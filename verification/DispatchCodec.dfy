/**
 A spelling of dispatch events that reads back and stays short: the hypothesis on the codec
 of the other dispatch modules can be met.
 */
module DispatchCodec {
  import opened Wrappers
  import opened Text
  import opened CallDispatch

  const RESERVED := "reserved"
  const RELEASED := "released"

  /** The fields of an event; an instant is counted from the earliest one. */
  function Parts(ev: Event): seq<string>
    requires Writable(ev)
  {
    match ev
    case Reserved(r) =>
      [RESERVED, r.claim.keyDigest, r.claim.fingerprintDigest, Decimal(r.claim.acceptedAt - EARLIEST_INSTANT), Decimal(r.attempt)]
    case Released(k, a) => [RELEASED, k, Decimal(a)]
  }

  function Spell(ev: Event): string { if Writable(ev) then Join(Parts(ev), ',') else "" }

  function FromParts(parts: seq<string>): Option<Event> {
    if |parts| == 5 && parts[0] == RESERVED && Numeral(parts[3]) && Numeral(parts[4]) then
      var t := EARLIEST_INSTANT + DecimalValue(parts[3]);
      Some(Reserved(Reservation(Claim(parts[1], parts[2], t, t + TTL), DecimalValue(parts[4]))))
    else if |parts| == 3 && parts[0] == RELEASED && Numeral(parts[2]) then
      Some(Released(parts[1], DecimalValue(parts[2])))
    else None
  }

  function Unspell(s: string): Option<Event> { FromParts(Split(s, ',')) }

  function PlainCodec(): Codec { Codec(Spell, Unspell) }

  lemma PartsRead(ev: Event)
    requires Writable(ev)
    ensures FromParts(Parts(ev)) == Some(ev)
  {
    match ev
    case Reserved(r) =>
      DecimalRoundTrip(r.claim.acceptedAt - EARLIEST_INSTANT);
      DecimalRoundTrip(r.attempt);
    case Released(_, a) => DecimalRoundTrip(a);
  }

  /** A field of the spelling: short, without a comma. */
  predicate Simple(part: string) { |part| <= 64 && Ascii(part) && ',' !in part }

  lemma DigestSimple(s: string)
    requires ValidDigest(s)
    ensures Simple(s)
  {
  }

  lemma NumberSimple(n: nat)
    requires n < PowerOfTen(21)
    ensures Simple(Decimal(n))
  {
    DecimalLength(n, 21);
    forall k | 0 <= k < |Decimal(n)| ensures Decimal(n)[k] < '\U{80}' && Decimal(n)[k] != ',' {
      assert IsDigit(Decimal(n)[k]);
    }
  }

  lemma TagsSimple()
    ensures Simple(RESERVED) && Simple(RELEASED)
  {
  }

  lemma Bounds()
    ensures MAX_SEQUENCE < PowerOfTen(21) && LATEST_INSTANT - EARLIEST_INSTANT < PowerOfTen(21)
  {
    assert PowerOfTen(7) == 10_000_000;
    assert PowerOfTen(14) == 100_000_000_000_000;
    assert PowerOfTen(21) == 1_000_000_000_000_000_000_000;
  }

  lemma PartsSimple(ev: Event)
    requires Writable(ev)
    ensures forall p <- Parts(ev) :: Simple(p)
  {
    TagsSimple();
    Bounds();
    match ev
    case Reserved(r) =>
      DigestSimple(r.claim.keyDigest);
      DigestSimple(r.claim.fingerprintDigest);
      NumberSimple(r.claim.acceptedAt - EARLIEST_INSTANT);
      NumberSimple(r.attempt);
    case Released(k, a) =>
      DigestSimple(k);
      NumberSimple(a);
  }

  lemma {:induction false} JoinShort(parts: seq<string>)
    requires forall p <- parts :: Simple(p)
    ensures Ascii(Join(parts, ',')) && |Join(parts, ',')| <= 65 * |parts|
  {
    if parts != [] {
      assert Simple(parts[0]);
      JoinShort(parts[1..]);
    }
  }

  /** There is a faithful codec. */
  lemma PlainIsFaithful()
    ensures Faithful(PlainCodec())
  {
    forall ev | Writable(ev)
      ensures Unspell(Spell(ev)) == Some(ev) && ByteLength(Spell(ev)) <= MAX_FACT
    {
      PartsSimple(ev);
      SplitJoin(Parts(ev), ',');
      PartsRead(ev);
      JoinShort(Parts(ev));
      AsciiLength(Spell(ev));
    }
  }
}
