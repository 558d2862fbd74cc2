/**
 The keyed dispatch fence of crates/mct-daemon/src/call_dispatch.rs.

 Instants are integers in nanoseconds. The JSON spelling of an event is an input: a
 codec that reads back what it wrote.
 */
module CallDispatch {
  import opened Wrappers
  import opened Text

  const TTL: int := 12 * 60 * 1_000_000_000
  /** The instants a timestamp can hold. */
  const EARLIEST_INSTANT: int := -377_705_023_201_000_000_000
  const LATEST_INSTANT: int := 253_402_207_200_999_999_999
  const MAX_SEQUENCE: nat := 0xFFFF_FFFF_FFFF_FFFF

  const FAMILY := "mct-call-dispatch-"
  const PREFIX := "mct-call-dispatch-v1:"
  const MAX_FACT: nat := 4096

  datatype Claim = Claim(keyDigest: string, fingerprintDigest: string, acceptedAt: int, expiresAt: int)

  predicate ValidDigest(s: string) { |s| == 64 && LowerHex(s) }

  predicate ValidClaim(c: Claim) {
    && ValidDigest(c.keyDigest) && ValidDigest(c.fingerprintDigest)
    && EARLIEST_INSTANT <= c.acceptedAt && c.acceptedAt + TTL <= LATEST_INSTANT
    && c.expiresAt == c.acceptedAt + TTL
  }

  datatype Reservation = Reservation(claim: Claim, attempt: nat)

  datatype Event = Reserved(reservation: Reservation) | Released(keyDigest: string, attempt: nat)

  function KeyOf(ev: Event): string {
    match ev
    case Reserved(r) => r.claim.keyDigest
    case Released(k, _) => k
  }

  // ---- ledger entries ------------------------------------------------------

  datatype ObservationKind = CallConstructed | CallDenied | OtherKind
  datatype ObservationOutcome = Started | OutcomeDenied | OtherOutcome
  datatype SourcePlane = Kernel | OtherPlane
  datatype Visibility = InternalOnly | OtherVisibility
  datatype Durability = BeforeEffect | OtherDurability

  datatype Observation = Observation(
    id: string, observedAt: int, kind: ObservationKind, outcome: ObservationOutcome,
    plane: SourcePlane, visibility: Visibility, callId: Option<string>, detail: Option<string>)

  datatype Entry = Entry(sequence: nat, durability: Durability, observation: Observation)

  datatype Codec = Codec(write: Event -> string, parse: string -> Option<Event>)

  /** The events a writer can produce: 64-character digests and a 64-bit sequence. */
  predicate Writable(ev: Event) {
    match ev
    case Reserved(r) => ValidClaim(r.claim) && r.attempt <= MAX_SEQUENCE
    case Released(k, a) => ValidDigest(k) && a <= MAX_SEQUENCE
  }

  /** The codec reads back what it wrote, and what it writes for such an event is short. */
  ghost predicate Faithful(codec: Codec) {
    forall ev :: Writable(ev) ==> codec.parse(codec.write(ev)) == Some(ev) && ByteLength(codec.write(ev)) <= MAX_FACT
  }

  datatype DispatchError =
    | InvalidClaim | UnknownSchema | FactTooLarge | Malformed
    | BadEnvelope | BadReservation | BadRelease | BadIdentity
    | Overlap | NotCurrentAttempt

  function DispatchId(action: string, sequence: nat): string {
    "obs:dispatch-" + action + ":" + Decimal(sequence)
  }

  /** The event's own checks against its entry: None where it is refused. */
  function EnvelopeError(entry: Entry, ev: Event): Option<DispatchError> {
    var obs := entry.observation;
    if !(entry.durability == BeforeEffect && obs.plane == Kernel && obs.visibility == InternalOnly && obs.callId.Some?)
    then Some(BadEnvelope)
    else
      match ev
      case Reserved(r) =>
        if !ValidClaim(r.claim) then Some(InvalidClaim)
        else if !(r.attempt == entry.sequence && obs.observedAt == r.claim.acceptedAt
                  && obs.kind == CallConstructed && obs.outcome == Started)
        then Some(BadReservation)
        else if !(entry.sequence > 0 && obs.id == DispatchId("reserved", entry.sequence)) then Some(BadIdentity)
        else None
      case Released(k, a) =>
        if !(ValidDigest(k) && 0 < a < entry.sequence && obs.kind == CallDenied && obs.outcome == OutcomeDenied)
        then Some(BadRelease)
        else if obs.id != DispatchId("released", entry.sequence) then Some(BadIdentity)
        else None
  }

  /** The dispatch event an entry carries, if any. */
  function DecodeEvent(codec: Codec, entry: Entry): Result<Option<Event>, DispatchError> {
    match entry.observation.detail
    case None => Ok(None)
    case Some(detail) =>
      if !StartsWith(detail, FAMILY) then Ok(None)
      else if !StartsWith(detail, PREFIX) then Err(UnknownSchema)
      else
        var json := detail[|PREFIX|..];
        if ByteLength(json) > MAX_FACT then Err(FactTooLarge)
        else
          match codec.parse(json)
          case None => Err(Malformed)
          case Some(ev) =>
            match EnvelopeError(entry, ev)
            case Some(e) => Err(e)
            case None => Ok(Some(ev))
  }

  // ---- writing events ------------------------------------------------------

  function ReservationObservation(codec: Codec, template: Observation, claim: Claim, sequence: nat)
    : Option<(Observation, Reservation)>
  {
    if !ValidClaim(claim) || template.callId.None? || sequence == 0 then None
    else
      var r := Reservation(claim, sequence);
      Some((template.(observedAt := claim.acceptedAt, id := DispatchId("reserved", sequence),
                      kind := CallConstructed, outcome := Started, plane := Kernel, visibility := InternalOnly,
                      detail := Some(PREFIX + codec.write(Reserved(r)))), r))
  }

  function ReleaseObservation(codec: Codec, template: Observation, r: Reservation, sequence: nat): Option<Observation> {
    if template.callId.None? || r.attempt == 0 || r.attempt >= sequence then None
    else
      Some(template.(id := DispatchId("released", sequence),
                     kind := CallDenied, outcome := OutcomeDenied, plane := Kernel, visibility := InternalOnly,
                     detail := Some(PREFIX + codec.write(Released(r.claim.keyDigest, r.attempt)))))
  }

  lemma PrefixedDetail(json: string)
    ensures StartsWith(PREFIX + json, FAMILY) && StartsWith(PREFIX + json, PREFIX)
    ensures (PREFIX + json)[|PREFIX|..] == json
  {
    assert PREFIX[..|FAMILY|] == FAMILY;
    assert (PREFIX + json)[..|FAMILY|] == PREFIX[..|FAMILY|];
  }

  /** A reservation observation, once appended under its sequence, decodes to that reservation. */
  lemma ReservationDecodes(codec: Codec, template: Observation, claim: Claim, sequence: nat)
    requires Faithful(codec) && sequence <= MAX_SEQUENCE
    requires ReservationObservation(codec, template, claim, sequence).Some?
    ensures var (obs, r) := ReservationObservation(codec, template, claim, sequence).value;
            DecodeEvent(codec, Entry(sequence, BeforeEffect, obs)) == Ok(Some(Reserved(r)))
  {
    var r := Reservation(claim, sequence);
    PrefixedDetail(codec.write(Reserved(r)));
    assert Writable(Reserved(r));
  }

  lemma ReleaseDecodes(codec: Codec, template: Observation, r: Reservation, sequence: nat)
    requires Faithful(codec) && sequence <= MAX_SEQUENCE && ValidClaim(r.claim)
    requires ReleaseObservation(codec, template, r, sequence).Some?
    ensures var obs := ReleaseObservation(codec, template, r, sequence).value;
            DecodeEvent(codec, Entry(sequence, BeforeEffect, obs)) == Ok(Some(Released(r.claim.keyDigest, r.attempt)))
  {
    var ev := Released(r.claim.keyDigest, r.attempt);
    PrefixedDetail(codec.write(ev));
    assert Writable(ev);
  }

  /**
   * And only such an entry does: it is, but for the spelling of its JSON, the very entry that the
   * writer makes of it.
   */
  lemma ReservationDecodesIff(codec: Codec, entry: Entry, json: string, r: Reservation)
    requires entry.observation.detail == Some(PREFIX + json)
    requires codec.parse(json) == Some(Reserved(r)) && ByteLength(json) <= MAX_FACT
    ensures var written := ReservationObservation(codec, entry.observation, r.claim, entry.sequence);
            DecodeEvent(codec, entry) == Ok(Some(Reserved(r))) <==>
            && entry.durability == BeforeEffect && written.Some? && written.value.1 == r
            && written.value.0.(detail := entry.observation.detail) == entry.observation
  {
    PrefixedDetail(json);
  }

  lemma ReleaseDecodesIff(codec: Codec, entry: Entry, json: string, r: Reservation)
    requires entry.observation.detail == Some(PREFIX + json)
    requires codec.parse(json) == Some(Released(r.claim.keyDigest, r.attempt)) && ByteLength(json) <= MAX_FACT
    ensures var written := ReleaseObservation(codec, entry.observation, r, entry.sequence);
            DecodeEvent(codec, entry).Ok? <==>
            && entry.durability == BeforeEffect && written.Some? && ValidDigest(r.claim.keyDigest)
            && written.value.(detail := entry.observation.detail) == entry.observation
  {
    PrefixedDetail(json);
  }

  // ---- the index -----------------------------------------------------------

  type Index = map<string, Reservation>

  datatype Answer = Fresh | Existing | FingerprintMismatch

  function Prune(idx: Index, now: int): Index {
    map k | k in idx && idx[k].claim.expiresAt > now :: idx[k]
  }

  function Lookup(idx: Index, claim: Claim): Answer {
    if claim.keyDigest !in idx then Fresh
    else if idx[claim.keyDigest].claim.fingerprintDigest == claim.fingerprintDigest then Existing
    else FingerprintMismatch
  }

  /** The answer `check` gives for a valid claim: pruned at its own acceptance time. */
  function CheckAnswer(idx: Index, claim: Claim): Answer { Lookup(Prune(idx, claim.acceptedAt), claim) }

  predicate Contains(idx: Index, r: Reservation) {
    r.claim.keyDigest in idx && idx[r.claim.keyDigest] == r
  }

  function ApplyEvent(idx: Index, ev: Event): Result<Index, DispatchError> {
    match ev
    case Reserved(r) =>
      var k := r.claim.keyDigest;
      if k in idx && idx[k].claim.expiresAt > r.claim.acceptedAt then Err(Overlap) else Ok(idx[k := r])
    case Released(k, a) =>
      if k in idx && idx[k].attempt == a then Ok(idx - {k}) else Err(NotCurrentAttempt)
  }

  function ReplayEntry(codec: Codec, idx: Index, entry: Entry): Result<Index, DispatchError> {
    match DecodeEvent(codec, entry)
    case Err(e) => Err(e)
    case Ok(None) => Ok(idx)
    case Ok(Some(ev)) => ApplyEvent(idx, ev)
  }

  /** Startup: replay the whole ledger into an empty index. */
  function Rebuild(codec: Codec, ledger: seq<Entry>): Result<Index, DispatchError> {
    if ledger == [] then Ok(map[])
    else
      match Rebuild(codec, ledger[..|ledger| - 1])
      case Err(e) => Err(e)
      case Ok(idx) => ReplayEntry(codec, idx, ledger[|ledger| - 1])
  }

  lemma RebuildAppend(codec: Codec, ledger: seq<Entry>, entry: Entry)
    ensures Rebuild(codec, ledger + [entry]) ==
            (if Rebuild(codec, ledger).Err? then Err(Rebuild(codec, ledger).error)
             else ReplayEntry(codec, Rebuild(codec, ledger).value, entry))
  {
    assert (ledger + [entry])[..|ledger|] == ledger;
  }

  /** The index object, pruned when checked and updated as entries are appended. */
  class CallDispatchIndex {
    var reservations: Index

    constructor ()
      ensures reservations == map[]
    {
      reservations := map[];
    }

    method Check(claim: Claim) returns (answer: Result<Answer, DispatchError>)
      modifies this
      ensures !ValidClaim(claim) ==> answer == Err(InvalidClaim) && reservations == old(reservations)
      ensures ValidClaim(claim) ==>
                && reservations == Prune(old(reservations), claim.acceptedAt)
                && answer == Ok(CheckAnswer(old(reservations), claim))
    {
      if !ValidClaim(claim) {
        return Err(InvalidClaim);
      }
      var now, before, keys := claim.acceptedAt, reservations, reservations.Keys;
      while keys != {}
        invariant keys <= before.Keys
        invariant reservations == map k | k in before && (k in keys || before[k].claim.expiresAt > now) :: before[k]
        decreases |keys|
      {
        var k :| k in keys;
        if !(reservations[k].claim.expiresAt > now) {
          reservations := reservations - {k};
        }
        keys := keys - {k};
      }
      if claim.keyDigest !in reservations {
        answer := Ok(Fresh);
      } else if reservations[claim.keyDigest].claim.fingerprintDigest == claim.fingerprintDigest {
        answer := Ok(Existing);
      } else {
        answer := Ok(FingerprintMismatch);
      }
    }

    /** A refused entry leaves the index as it was. */
    method Replay(codec: Codec, entry: Entry) returns (error: Option<DispatchError>)
      modifies this
      ensures match ReplayEntry(codec, old(reservations), entry)
              case Ok(idx) => error == None && reservations == idx
              case Err(e) => error == Some(e) && reservations == old(reservations)
    {
      var decoded := DecodeEvent(codec, entry);
      if decoded.Err? {
        return Some(decoded.error);
      }
      if decoded.value.None? {
        return None;
      }
      match decoded.value.value {
        case Reserved(r) =>
          var k := r.claim.keyDigest;
          if k in reservations && !(reservations[k].claim.expiresAt <= r.claim.acceptedAt) {
            return Some(Overlap);
          }
          reservations := reservations[k := r];
        case Released(k, a) =>
          if !(k in reservations && reservations[k].attempt == a) {
            return Some(NotCurrentAttempt);
          }
          reservations := reservations - {k};
      }
      error := None;
    }
  }

  /** Startup as the source runs it: one object, entry by entry, stopping at the first refusal. */
  method RebuildIndex(codec: Codec, ledger: seq<Entry>) returns (index: CallDispatchIndex, error: Option<DispatchError>)
    ensures fresh(index)
    ensures match Rebuild(codec, ledger)
            case Ok(idx) => error == None && index.reservations == idx
            case Err(e) => error == Some(e)
  {
    index := new CallDispatchIndex();
    error := None;
    var i := 0;
    while i < |ledger|
      invariant 0 <= i <= |ledger| && fresh(index) && error == None
      invariant Rebuild(codec, ledger[..i]) == Ok(index.reservations)
    {
      error := index.Replay(codec, ledger[i]);
      assert ledger[..i + 1] == ledger[..i] + [ledger[i]];
      RebuildAppend(codec, ledger[..i], ledger[i]);
      if error.Some? {
        RebuildStopsAt(codec, ledger, i + 1);
        return;
      }
      i := i + 1;
    }
    assert ledger[..i] == ledger;
  }

  lemma {:induction false} RebuildStopsAt(codec: Codec, ledger: seq<Entry>, n: nat)
    requires n <= |ledger| && Rebuild(codec, ledger[..n]).Err?
    ensures Rebuild(codec, ledger) == Rebuild(codec, ledger[..n])
    decreases |ledger|
  {
    if n < |ledger| {
      var init := ledger[..|ledger| - 1];
      assert init[..n] == ledger[..n];
      RebuildStopsAt(codec, init, n);
    } else {
      assert ledger[..n] == ledger;
    }
  }
}
