/** What the dispatch writer answers, in terms of the last event about a key in its ledger. */
module DispatchAnswers {
  import opened Wrappers
  import opened Text
  import opened CallDispatch
  import opened DispatchReplay
  import opened DispatchRuns

  // ---- claims, ids and entries ---------------------------------------------

  /** What every reservation in a ledger was checked for: two digests of 64 hexadecimal digits and a
      life of twelve minutes, from an instant that is the entry's own. */
  lemma DecodedReservation(codec: Codec, entry: Entry, r: Reservation)
    requires DecodeEvent(codec, entry) == Ok(Some(Reserved(r)))
    ensures |r.claim.keyDigest| == 64 && |r.claim.fingerprintDigest| == 64
    ensures forall c <- r.claim.keyDigest + r.claim.fingerprintDigest :: '0' <= c <= '9' || 'a' <= c <= 'f'
    ensures r.claim.expiresAt == r.claim.acceptedAt + 720_000_000_000
    ensures r.attempt == entry.sequence > 0 && entry.observation.observedAt == r.claim.acceptedAt
    ensures entry.durability == BeforeEffect && entry.observation.callId.Some?
    ensures entry.observation.kind == CallConstructed && entry.observation.outcome == Started
    ensures entry.observation.plane == Kernel && entry.observation.visibility == InternalOnly
  {
    var both := r.claim.keyDigest + r.claim.fingerprintDigest;
    forall c | c in both ensures '0' <= c <= '9' || 'a' <= c <= 'f' {
      var k :| 0 <= k < |both| && both[k] == c;
      assert IsLowerHex(c);
    }
  }

  lemma DecodedRelease(codec: Codec, entry: Entry, k: string, attempt: nat)
    requires DecodeEvent(codec, entry) == Ok(Some(Released(k, attempt)))
    ensures |k| == 64 && 0 < attempt < entry.sequence
    ensures entry.durability == BeforeEffect && entry.observation.callId.Some?
    ensures entry.observation.kind == CallDenied && entry.observation.outcome == OutcomeDenied
    ensures entry.observation.plane == Kernel && entry.observation.visibility == InternalOnly
  {
  }

  /** The details that are no business of the fence, those of a schema it does not know, and those too large. */
  lemma SchemaIff(codec: Codec, entry: Entry)
    ensures var d := entry.observation.detail;
            var known := d.Some? && "mct-call-dispatch-v1:" <= d.value;
            && (DecodeEvent(codec, entry) == Ok(None) <==> !(d.Some? && "mct-call-dispatch-" <= d.value))
            && (DecodeEvent(codec, entry) == Err(UnknownSchema) <==>
                d.Some? && "mct-call-dispatch-" <= d.value && !known)
            && (DecodeEvent(codec, entry) == Err(FactTooLarge) <==> known && ByteLength(d.value[21..]) > 4096)
            && (DecodeEvent(codec, entry) == Err(Malformed) <==>
                known && ByteLength(d.value[21..]) <= 4096 && codec.parse(d.value[21..]).None?)
  {
    var d := entry.observation.detail;
    if d.Some? {
      assert StartsWith(d.value, FAMILY) <==> "mct-call-dispatch-" <= d.value;
      assert StartsWith(d.value, PREFIX) <==> "mct-call-dispatch-v1:" <= d.value;
      if StartsWith(d.value, PREFIX) { assert PREFIX[..|FAMILY|] == FAMILY; assert d.value[..|FAMILY|] == PREFIX[..|FAMILY|]; }
    }
  }

  lemma DecimalInjective(m: nat, n: nat)
    requires Decimal(m) == Decimal(n)
    ensures m == n
  {
    DecimalRoundTrip(m);
    DecimalRoundTrip(n);
  }

  /** No two dispatch observations share an id: it tells the sequence, and a reservation from a release. */
  lemma DispatchIdsDiffer(m: nat, n: nat)
    ensures DispatchId("reserved", m) == DispatchId("reserved", n) ==> m == n
    ensures DispatchId("released", m) == DispatchId("released", n) ==> m == n
    ensures DispatchId("reserved", m) != DispatchId("released", n)
  {
    var a, b := "obs:dispatch-reserved:", "obs:dispatch-released:";
    assert DispatchId("reserved", m) == a + Decimal(m) && DispatchId("reserved", n) == a + Decimal(n);
    assert DispatchId("released", m) == b + Decimal(m) && DispatchId("released", n) == b + Decimal(n);
    if a + Decimal(m) == a + Decimal(n) {
      assert (a + Decimal(m))[|a|..] == Decimal(m) && (a + Decimal(n))[|a|..] == Decimal(n);
      DecimalInjective(m, n);
    }
    if b + Decimal(m) == b + Decimal(n) {
      assert (b + Decimal(m))[|b|..] == Decimal(m) && (b + Decimal(n))[|b|..] == Decimal(n);
      DecimalInjective(m, n);
    }
    assert a[15] != b[15];
    assert (a + Decimal(m))[15] == a[15] && (b + Decimal(n))[15] == b[15];
  }

  /** An expired record is no record, at the very instant of its expiry too. */
  lemma CheckedIff(idx: Index, claim: Claim)
    ensures var k := claim.keyDigest;
            var standing := k in idx && claim.acceptedAt < idx[k].claim.expiresAt;
            && (CheckAnswer(idx, claim) == Fresh <==> !standing)
            && (CheckAnswer(idx, claim) == Existing <==> standing && idx[k].claim.fingerprintDigest == claim.fingerprintDigest)
  {
  }

  // ---- releases ------------------------------------------------------------

  /** Every live record was written under its own sequence. */
  lemma LiveAttempt(codec: Codec, w: World, k: string)
    requires WriterInv(codec, w) && !w.fenced && k in w.live
    ensures 0 < w.live[k].attempt < |w.ledger|
    ensures w.live[k].claim.keyDigest == k
  {
    var i := LastEventAt(codec, w.ledger, k);
    AttemptIsSequence(codec, w.ledger, i, k, w.live[k].attempt);
  }

  /** The writer is unfenced, has a head, and numbers to give. */
  predicate Ready(w: World) { !w.fenced && 0 < |w.ledger| <= MAX_SEQUENCE }

  lemma ReleaseAppends(codec: Codec, w: World, r: Reservation, t: Observation)
    requires Faithful(codec) && WriterInv(codec, w) && Ready(w) && w.live.Keys >= {r.claim.keyDigest}
    requires w.live[r.claim.keyDigest] == r && t.callId.Some?
    ensures var (w2, reply) := Process(codec, w, Release(r, t, Durable));
            && reply == ReleaseDone && !w2.fenced && w2.now == w.now
            && w2.live == w.live - {r.claim.keyDigest}
            && |w2.ledger| == |w.ledger| + 1 && w2.ledger[..|w.ledger|] == w.ledger
            && DecodeEvent(codec, w2.ledger[|w.ledger|]) == Ok(Some(Released(r.claim.keyDigest, r.attempt)))
  {
    var k := r.claim.keyDigest;
    LiveAttempt(codec, w, k);
    var obs := ReleaseObservation(codec, t, r, |w.ledger|).value;
    ReleaseDecodes(codec, t, r, |w.ledger|);
    var entry := Entry(|w.ledger|, BeforeEffect, obs);
    assert ReplayEntry(codec, w.live, entry) == Ok(w.live - {k});
    assert (w.ledger + [entry])[..|w.ledger|] == w.ledger;
  }

  /** In every state of a run, releasing a live reservation appends exactly its release, and its key is
      fresh for every claim from then on: live, and in the index the ledger rebuilds to. */
  lemma ReleaseReleases(codec: Codec, t0: int, ops: seq<Op>, w: World, r: Reservation, t: Observation, claim: Claim)
    requires Faithful(codec) && Run(codec, Beginning(t0), ops) && w == After(codec, Beginning(t0), ops)
    requires Ready(w) && r.claim.keyDigest in w.live && w.live[r.claim.keyDigest] == r && t.callId.Some?
    requires claim.keyDigest == r.claim.keyDigest
    ensures var (w2, reply) := Process(codec, w, Release(r, t, Durable));
            && reply == ReleaseDone && !w2.fenced
            && |w2.ledger| == |w.ledger| + 1 && w2.ledger[..|w.ledger|] == w.ledger
            && DecodeEvent(codec, w2.ledger[|w.ledger|]) == Ok(Some(Released(r.claim.keyDigest, r.attempt)))
            && CheckAnswer(w2.live, claim) == Fresh
            && (Rebuild(codec, w2.ledger).Ok? ==> CheckAnswer(Rebuild(codec, w2.ledger).value, claim) == Fresh)
  {
    RunKeeps(codec, Beginning(t0), ops);
    ReleaseAppends(codec, w, r, t);
    var w2 := Process(codec, w, Release(r, t, Durable)).0;
    RebuildIff(codec, w2.ledger);
  }

  /** Releasing what is no longer the live reservation of its key is answered and does nothing. */
  lemma StaleRelease(codec: Codec, w: World, r: Reservation, t: Observation, append: Append)
    requires Ready(w) && !(r.claim.keyDigest in w.live && w.live[r.claim.keyDigest] == r)
    ensures Process(codec, w, Release(r, t, append)) == (w, ReleaseDone)
  {
  }

  // ---- reservations --------------------------------------------------------

  /** The last event about the claim's key is a reservation that has not expired at its acceptance. */
  predicate Standing(codec: Codec, ledger: seq<Entry>, claim: Claim) {
    var ev := LastEvent(codec, ledger, claim.keyDigest);
    ev.Some? && ev.value.Reserved? && claim.acceptedAt < ev.value.reservation.claim.expiresAt
  }

  lemma LiveIsStanding(codec: Codec, w: World, claim: Claim)
    requires WriterInv(codec, w) && TimedInv(codec, w) && !w.fenced && w.now <= claim.acceptedAt
    ensures CheckAnswer(w.live, claim) == Fresh <==> !Standing(codec, w.ledger, claim)
    ensures Standing(codec, w.ledger, claim) ==>
              (CheckAnswer(w.live, claim) == Existing <==>
               LastEvent(codec, w.ledger, claim.keyDigest).value.reservation.claim.fingerprintDigest == claim.fingerprintDigest)
  {
    RebuildIff(codec, w.ledger);
    CheckedIff(w.live, claim);
  }

  /** In every state of a run with times in order, a reservation is accepted exactly when none of its key
      is standing; a standing one is there already for the same request, and a mismatch for another. Only
      an accepted one is appended, under the next sequence. */
  lemma ReserveAnswers(codec: Codec, t0: int, ops: seq<Op>, w: World, claim: Claim, t: Observation)
    requires Faithful(codec) && Run(codec, Beginning(t0), ops) && TimedRun(codec, Beginning(t0), ops)
    requires w == After(codec, Beginning(t0), ops) && Ready(w)
    requires ValidClaim(claim) && w.now <= claim.acceptedAt && t.callId.Some?
    ensures var (w2, reply) := Process(codec, w, Reserve(claim, t, Durable));
            && !w2.fenced && w2.now == claim.acceptedAt
            && (if !Standing(codec, w.ledger, claim) then
                  && reply == Accepted(Reservation(claim, |w.ledger|))
                  && |w2.ledger| == |w.ledger| + 1 && w2.ledger[..|w.ledger|] == w.ledger
                  && DecodeEvent(codec, w2.ledger[|w.ledger|]) == Ok(Some(Reserved(Reservation(claim, |w.ledger|))))
                else
                  && w2.ledger == w.ledger
                  && var r := LastEvent(codec, w.ledger, claim.keyDigest).value.reservation;
                     reply == if r.claim.fingerprintDigest == claim.fingerprintDigest then AlreadyThere else Mismatch)
  {
    RunKeeps(codec, Beginning(t0), ops);
    TimedRunKeeps(codec, Beginning(t0), ops);
    LiveIsStanding(codec, w, claim);
    ReserveProcess(codec, w, claim, t);
  }

  lemma ReserveProcess(codec: Codec, w: World, claim: Claim, t: Observation)
    requires Faithful(codec) && Ready(w) && ValidClaim(claim) && t.callId.Some?
    ensures var (w2, reply) := Process(codec, w, Reserve(claim, t, Durable));
            && !w2.fenced && w2.now == claim.acceptedAt
            && (match CheckAnswer(w.live, claim)
                case Fresh =>
                  && reply == Accepted(Reservation(claim, |w.ledger|))
                  && |w2.ledger| == |w.ledger| + 1 && w2.ledger[..|w.ledger|] == w.ledger
                  && DecodeEvent(codec, w2.ledger[|w.ledger|]) == Ok(Some(Reserved(Reservation(claim, |w.ledger|))))
                case Existing => w2.ledger == w.ledger && reply == AlreadyThere
                case FingerprintMismatch => w2.ledger == w.ledger && reply == Mismatch)
  {
    var or := ReservationObservation(codec, t, claim, |w.ledger|).value;
    ReservationDecodes(codec, t, claim, |w.ledger|);
    var entry := Entry(|w.ledger|, BeforeEffect, or.0);
    assert (w.ledger + [entry])[..|w.ledger|] == w.ledger;
  }

  // ---- failures ------------------------------------------------------------

  /** A fenced writer does nothing but fail, until it is restarted. */
  lemma FencedFails(codec: Codec, w: World, op: Op)
    requires w.fenced && (op.Reserve? || op.Release?)
    ensures Process(codec, w, op) == (w, Failed)
  {
  }

  /** A lost append fails and fences; whether it reached the ledger or not. */
  lemma LostAppend(codec: Codec, w: World, claim: Claim, t: Observation, append: Append)
    requires Faithful(codec) && Ready(w) && ValidClaim(claim) && t.callId.Some? && append != Durable
    requires CheckAnswer(w.live, claim) == Fresh
    ensures var (w2, reply) := Process(codec, w, Reserve(claim, t, append));
            && reply == Failed && w2.fenced
            && (if append == LostBeforeWrite then w2.ledger == w.ledger
                else |w2.ledger| == |w.ledger| + 1 && w2.ledger[..|w.ledger|] == w.ledger
                     && DecodeEvent(codec, w2.ledger[|w.ledger|]) == Ok(Some(Reserved(Reservation(claim, |w.ledger|)))))
  {
    var or := ReservationObservation(codec, t, claim, |w.ledger|).value;
    ReservationDecodes(codec, t, claim, |w.ledger|);
    assert (w.ledger + [Entry(|w.ledger|, BeforeEffect, or.0)])[..|w.ledger|] == w.ledger;
  }

  /** A claim that is not valid, a template without a call, or a ledger without a head fences and writes nothing. */
  lemma BadReserve(codec: Codec, w: World, claim: Claim, t: Observation, append: Append)
    requires !w.fenced
    requires !Ready(w) || !ValidClaim(claim) || (t.callId.None? && CheckAnswer(w.live, claim) == Fresh)
    ensures var (w2, reply) := Process(codec, w, Reserve(claim, t, append));
            reply == Failed && w2.fenced && w2.ledger == w.ledger
  {
  }

  /** So does a lost release: the key stays reserved live, and is released in the ledger exactly if it got there. */
  lemma LostRelease(codec: Codec, w: World, r: Reservation, t: Observation, append: Append)
    requires Faithful(codec) && WriterInv(codec, w) && Ready(w) && append != Durable && t.callId.Some?
    requires r.claim.keyDigest in w.live && w.live[r.claim.keyDigest] == r
    ensures var (w2, reply) := Process(codec, w, Release(r, t, append));
            && reply == Failed && w2.fenced && w2.live == w.live
            && (if append == LostBeforeWrite then w2.ledger == w.ledger
                else |w2.ledger| == |w.ledger| + 1 && w2.ledger[..|w.ledger|] == w.ledger
                     && DecodeEvent(codec, w2.ledger[|w.ledger|]) == Ok(Some(Released(r.claim.keyDigest, r.attempt))))
  {
    LiveAttempt(codec, w, r.claim.keyDigest);
    var obs := ReleaseObservation(codec, t, r, |w.ledger|).value;
    ReleaseDecodes(codec, t, r, |w.ledger|);
    assert (w.ledger + [Entry(|w.ledger|, BeforeEffect, obs)])[..|w.ledger|] == w.ledger;
  }

  // ---- the ledger ----------------------------------------------------------

  /** What one operation adds: nothing, or one entry under the next sequence; another's write always its own. */
  lemma StepAppends(codec: Codec, w: World, op: Op)
    ensures var w2 := Process(codec, w, op).0;
            && w.ledger <= w2.ledger && |w2.ledger| <= |w.ledger| + 1
            && (|w2.ledger| == |w.ledger| + 1 ==> w2.ledger[|w.ledger|].sequence == |w.ledger|)
            && (op.WriteOther? ==>
                  && |w2.ledger| == |w.ledger| + 1 && w2.live == w.live && w2.fenced == w.fenced
                  && w2.ledger[|w.ledger|].durability == op.durability
                  && w2.ledger[|w.ledger|].observation == op.observation)
  {
  }

  /** Along every sequence of operations the ledger only grows, and no two entries share a sequence. */
  lemma {:induction false} LedgerOnlyGrows(codec: Codec, w: World, ops: seq<Op>, i: nat)
    ensures var w2 := After(codec, w, ops);
            && w.ledger <= w2.ledger && |w2.ledger| <= |w.ledger| + |ops|
            && (|w.ledger| <= i < |w2.ledger| ==> w2.ledger[i].sequence == i)
    decreases |ops|
  {
    if ops != [] {
      StepAppends(codec, w, ops[0]);
      LedgerOnlyGrows(codec, Process(codec, w, ops[0]).0, ops[1..], i);
    }
  }

  /** After a run with times in order a restart lifts the fence and goes on from the ledger alone. */
  lemma RestartResumes(codec: Codec, t0: int, ops: seq<Op>, w: World)
    requires Faithful(codec) && Run(codec, Beginning(t0), ops) && TimedRun(codec, Beginning(t0), ops)
    requires w == After(codec, Beginning(t0), ops)
    ensures var (w2, reply) := Process(codec, w, Restart);
            && reply == Done && !w2.fenced && w2.ledger == w.ledger
            && IsLast(codec, w.ledger, w2.live)
  {
    TimedRunKeeps(codec, Beginning(t0), ops);
    RebuildIff(codec, w.ledger);
  }
}
