/**
 Runs of the ledger writer that serves keyed dispatches
 (crates/mct-daemon/src/daemon/resident/observation.rs): one ledger, one live index that
 is pruned as it is checked, and restarts that rebuild the index from the ledger alone.
 */
module DispatchRuns {
  import opened Wrappers
  import opened Text
  import opened CallDispatch
  import opened DispatchReplay
  import opened DispatchCodec

  /** How an append ends: a failed one may still have reached the ledger. */
  datatype Append = Durable | LostBeforeWrite | LostAfterWrite

  datatype Op =
    | Reserve(claim: Claim, template: Observation, append: Append)
    | Release(reservation: Reservation, template: Observation, append: Append)
    | WriteOther(durability: Durability, observation: Observation)
    | Restart

  datatype Response = Accepted(reservation: Reservation) | AlreadyThere | Mismatch | ReleaseDone | Failed | Done

  /** `fenced` is set by any failed dispatch and cleared by a restart that rebuilds the index.
      `now` is the latest acceptance time checked so far. */
  datatype World = World(ledger: seq<Entry>, live: Index, now: int, fenced: bool)

  function NextSequence(w: World): nat { |w.ledger| }

  /** Append one dispatch observation and replay it into the live index. */
  function Commit(codec: Codec, w: World, obs: Observation, append: Append, ok: Response): (World, Response) {
    var entry := Entry(NextSequence(w), BeforeEffect, obs);
    match append
    case LostBeforeWrite => (w.(fenced := true), Failed)
    case LostAfterWrite => (w.(ledger := w.ledger + [entry], fenced := true), Failed)
    case Durable =>
      match ReplayEntry(codec, w.live, entry)
      case Err(_) => (w.(ledger := w.ledger + [entry], fenced := true), Failed)
      case Ok(idx) => (w.(ledger := w.ledger + [entry], live := idx), ok)
  }

  function Process(codec: Codec, w: World, op: Op): (World, Response) {
    match op
    case WriteOther(durability, obs) =>
      (w.(ledger := w.ledger + [Entry(NextSequence(w), durability, obs)]), Done)
    case Restart =>
      (match Rebuild(codec, w.ledger)
       case Ok(idx) => (w.(live := idx, fenced := false), Done)
       case Err(_) => (w.(live := map[], fenced := true), Failed))
    case Reserve(claim, template, append) =>
      if w.fenced then (w, Failed)
      else if w.ledger == [] || NextSequence(w) > MAX_SEQUENCE || !ValidClaim(claim) then (w.(fenced := true), Failed)
      else
        var p := w.(live := Prune(w.live, claim.acceptedAt), now := claim.acceptedAt);
        (match Lookup(p.live, claim)
         case Existing => (p, AlreadyThere)
         case FingerprintMismatch => (p, Mismatch)
         case Fresh =>
           match ReservationObservation(codec, template, claim, NextSequence(w))
           case None => (p.(fenced := true), Failed)
           case Some(or) => Commit(codec, p, or.0, append, Accepted(or.1)))
    case Release(r, template, append) =>
      if w.fenced then (w, Failed)
      else if w.ledger == [] || NextSequence(w) > MAX_SEQUENCE then (w.(fenced := true), Failed)
      else if !Contains(w.live, r) then (w, ReleaseDone)
      else
        match ReleaseObservation(codec, template, r, NextSequence(w))
        case None => (w.(fenced := true), Failed)
        case Some(obs) => Commit(codec, w, obs, append, ReleaseDone)
  }

  /** Other writers do not write dispatch facts. */
  predicate Permitted(codec: Codec, w: World, op: Op) {
    match op
    case WriteOther(durability, obs) => DecodeEvent(codec, Entry(NextSequence(w), durability, obs)) == Ok(None)
    case _ => true
  }

  /** The clock that stamps claims does not go back. */
  predicate InTime(w: World, op: Op) { op.Reserve? ==> w.now <= op.claim.acceptedAt }

  /** An empty ledger, with a clock that starts anywhere. */
  function Beginning(t0: int): World { World([], map[], t0, false) }

  predicate Run(codec: Codec, w: World, ops: seq<Op>)
    decreases |ops|
  {
    ops == [] || (Permitted(codec, w, ops[0]) && Run(codec, Process(codec, w, ops[0]).0, ops[1..]))
  }

  predicate TimedRun(codec: Codec, w: World, ops: seq<Op>)
    decreases |ops|
  {
    ops == [] || (InTime(w, ops[0]) && TimedRun(codec, Process(codec, w, ops[0]).0, ops[1..]))
  }

  function After(codec: Codec, w: World, ops: seq<Op>): World
    decreases |ops|
  {
    if ops == [] then w else After(codec, Process(codec, w, ops[0]).0, ops[1..])
  }

  // ---- what every run keeps, whatever the times ----------------------------

  /** The entries written so far decode, releases are coherent, and each live record is the
      last event about its key. */
  ghost predicate WriterInv(codec: Codec, w: World) {
    && (forall j :: 0 <= j < |w.ledger| ==> w.ledger[j].sequence == j && DecodeEvent(codec, w.ledger[j]).Ok?)
    && (forall j :: 0 <= j < |w.ledger| && IsRelease(codec, w.ledger[j]) ==> EntryAgrees(codec, w.ledger, j))
    && (!w.fenced ==> LiveIsLast(codec, w))
  }

  ghost predicate LiveIsLast(codec: Codec, w: World) {
    forall k :: k in w.live ==> LastEvent(codec, w.ledger, k) == Some(Reserved(w.live[k])) && ValidClaim(w.live[k].claim)
  }

  predicate IsRelease(codec: Codec, entry: Entry) {
    EventAt(codec, entry).Some? && EventAt(codec, entry).value.Released?
  }

  /** Whether each reservation found the previous one of its key expired, unless released. */
  predicate LifetimesRespected(codec: Codec, ledger: seq<Entry>) {
    forall j :: 0 <= j < |ledger| && IsReserved(codec, ledger[j]) ==>
      RespectsPrior(LastEvent(codec, ledger[..j], ClaimAt(codec, ledger[j]).keyDigest), ClaimAt(codec, ledger[j]))
  }

  predicate RespectsPrior(prior: Option<Event>, claim: Claim) {
    prior.Some? && prior.value.Reserved? ==> prior.value.reservation.claim.expiresAt <= claim.acceptedAt
  }

  lemma AppendOne(codec: Codec, ledger: seq<Entry>, entry: Entry)
    requires forall j :: 0 <= j < |ledger| && IsRelease(codec, ledger[j]) ==> EntryAgrees(codec, ledger, j)
    requires IsRelease(codec, entry) ==> EntryAgrees(codec, ledger + [entry], |ledger|)
    ensures var l2 := ledger + [entry];
            && (forall j :: 0 <= j < |l2| && IsRelease(codec, l2[j]) ==> EntryAgrees(codec, l2, j))
            && (forall k :: LastEvent(codec, l2, k) ==
                  (if EventAt(codec, entry).Some? && KeyOf(EventAt(codec, entry).value) == k then EventAt(codec, entry)
                   else LastEvent(codec, ledger, k)))
  {
    var l2 := ledger + [entry];
    assert l2[..|ledger|] == ledger;
    forall j | 0 <= j < |ledger| && IsRelease(codec, l2[j]) ensures EntryAgrees(codec, l2, j) {
      assert l2[..j] == ledger[..j] && l2[j] == ledger[j];
      assert EntryAgrees(codec, ledger, j);
    }
  }

  /** The entry a dispatch appends carries event `ev`, which agrees with the live index. */
  lemma CommitKeeps(codec: Codec, w: World, obs: Observation, append: Append, ok: Response, ev: Event)
    requires WriterInv(codec, w) && !w.fenced
    requires DecodeEvent(codec, Entry(NextSequence(w), BeforeEffect, obs)) == Ok(Some(ev))
    requires ev.Reserved? ==> ValidClaim(ev.reservation.claim)
    requires ev.Released? ==> ev.keyDigest in w.live && w.live[ev.keyDigest].attempt == ev.attempt
    ensures WriterInv(codec, Commit(codec, w, obs, append, ok).0)
  {
    var entry := Entry(NextSequence(w), BeforeEffect, obs);
    var l2 := w.ledger + [entry];
    assert l2[..|w.ledger|] == w.ledger;
    if ev.Released? {
      assert LastEvent(codec, w.ledger, ev.keyDigest) == Some(Reserved(w.live[ev.keyDigest]));
      assert EntryAgrees(codec, l2, |w.ledger|);
    }
    AppendOne(codec, w.ledger, entry);
  }

  lemma RebuiltIsLast(codec: Codec, ledger: seq<Entry>, idx: Index)
    requires Rebuild(codec, ledger) == Ok(idx)
    ensures forall k :: k in idx ==> LastEvent(codec, ledger, k) == Some(Reserved(idx[k])) && ValidClaim(idx[k].claim)
                                     && idx[k].claim.keyDigest == k
  {
    RebuildIff(codec, ledger);
    forall k | k in idx
      ensures ValidClaim(idx[k].claim) && idx[k].claim.keyDigest == k
    {
      var i := LastEventAt(codec, ledger, k);
    }
  }

  lemma ReserveKeeps(codec: Codec, w: World, op: Op)
    requires Faithful(codec) && WriterInv(codec, w) && op.Reserve?
    ensures WriterInv(codec, Process(codec, w, op).0)
  {
    var p := w.(live := Prune(w.live, op.claim.acceptedAt), now := op.claim.acceptedAt);
    var or := ReservationObservation(codec, op.template, op.claim, NextSequence(w));
    if !w.fenced && NextSequence(w) <= MAX_SEQUENCE && or.Some? {
      ReservationDecodes(codec, op.template, op.claim, NextSequence(w));
      CommitKeeps(codec, p, or.value.0, op.append, Accepted(or.value.1), Reserved(or.value.1));
    }
  }

  lemma ReleaseKeeps(codec: Codec, w: World, op: Op)
    requires Faithful(codec) && WriterInv(codec, w) && op.Release?
    ensures WriterInv(codec, Process(codec, w, op).0)
  {
    var r := op.reservation;
    var obs := ReleaseObservation(codec, op.template, r, NextSequence(w));
    if !w.fenced && NextSequence(w) <= MAX_SEQUENCE && Contains(w.live, r) && obs.Some? {
      ReleaseDecodes(codec, op.template, r, NextSequence(w));
      CommitKeeps(codec, w, obs.value, op.append, ReleaseDone, Released(r.claim.keyDigest, r.attempt));
    }
  }

  lemma ProcessKeeps(codec: Codec, w: World, op: Op)
    requires Faithful(codec) && WriterInv(codec, w) && Permitted(codec, w, op)
    ensures WriterInv(codec, Process(codec, w, op).0)
  {
    match op {
      case WriteOther(durability, obs) =>
        AppendOne(codec, w.ledger, Entry(NextSequence(w), durability, obs));
      case Restart =>
        if Rebuild(codec, w.ledger).Ok? { RebuiltIsLast(codec, w.ledger, Rebuild(codec, w.ledger).value); }
      case Reserve(_, _, _) => ReserveKeeps(codec, w, op);
      case Release(_, _, _) => ReleaseKeeps(codec, w, op);
    }
  }

  lemma {:induction false} RunKeeps(codec: Codec, w: World, ops: seq<Op>)
    requires Faithful(codec) && WriterInv(codec, w) && Run(codec, w, ops)
    ensures WriterInv(codec, After(codec, w, ops))
    decreases |ops|
  {
    if ops != [] {
      ProcessKeeps(codec, w, ops[0]);
      RunKeeps(codec, Process(codec, w, ops[0]).0, ops[1..]);
    }
  }

  /** Whatever the clock does, the ledger of a run can be rebuilt exactly when every
      reservation in it found the previous one of its key released or expired. */
  lemma RebuildsIffLifetimesRespected(codec: Codec, t0: int, ops: seq<Op>)
    requires Faithful(codec) && Run(codec, Beginning(t0), ops)
    ensures var ledger := After(codec, Beginning(t0), ops).ledger;
            Rebuild(codec, ledger).Ok? <==> LifetimesRespected(codec, ledger)
  {
    var w := After(codec, Beginning(t0), ops);
    RunKeeps(codec, Beginning(t0), ops);
    RebuildIff(codec, w.ledger);
    if Rebuild(codec, w.ledger).Ok? {
      forall j | 0 <= j < |w.ledger| && IsReserved(codec, w.ledger[j])
        ensures RespectsPrior(LastEvent(codec, w.ledger[..j], ClaimAt(codec, w.ledger[j]).keyDigest), ClaimAt(codec, w.ledger[j]))
      {
        assert EntryAgrees(codec, w.ledger, j);
      }
    } else {
      var j :| 0 <= j < |w.ledger| && !EntryAgrees(codec, w.ledger, j);
      assert IsReserved(codec, w.ledger[j]);
      assert !RespectsPrior(LastEvent(codec, w.ledger[..j], ClaimAt(codec, w.ledger[j]).keyDigest), ClaimAt(codec, w.ledger[j]));
    }
  }

  // ---- with times in order -------------------------------------------------

  /** The ledger rebuilds to an index that differs from the live one only by records that
      had already expired. */
  ghost predicate TimedInv(codec: Codec, w: World) {
    var full := Rebuild(codec, w.ledger);
    && full.Ok?
    && (!w.fenced ==>
          && (forall k :: k in w.live ==> k in full.value && full.value[k] == w.live[k])
          && (forall k :: k in full.value && k !in w.live ==> full.value[k].claim.expiresAt <= w.now))
  }

  /** What a durable reservation of a fresh key does to the ledger, the live index and the
      index the ledger rebuilds to. */
  lemma ReserveFresh(codec: Codec, w: World, op: Op)
    requires Faithful(codec) && op.Reserve? && op.append != LostBeforeWrite && op.template.callId.Some?
    requires !w.fenced && w.ledger != [] && NextSequence(w) <= MAX_SEQUENCE && ValidClaim(op.claim)
    requires CheckAnswer(w.live, op.claim) == Fresh
    ensures var w2, r := Process(codec, w, op).0, Reservation(op.claim, |w.ledger|);
            && w2.now == op.claim.acceptedAt && w2.fenced == (op.append != Durable)
            && w2.live == (if op.append == Durable then Prune(w.live, op.claim.acceptedAt)[op.claim.keyDigest := r]
                           else Prune(w.live, op.claim.acceptedAt))
            && |w2.ledger| == |w.ledger| + 1
            && Rebuild(codec, w2.ledger) ==
                 (if Rebuild(codec, w.ledger).Err? then Err(Rebuild(codec, w.ledger).error)
                  else ApplyEvent(Rebuild(codec, w.ledger).value, Reserved(r)))
  {
    var or := ReservationObservation(codec, op.template, op.claim, |w.ledger|);
    ReservationDecodes(codec, op.template, op.claim, |w.ledger|);
    RebuildAppend(codec, w.ledger, Entry(|w.ledger|, BeforeEffect, or.value.0));
  }

  lemma TimedReserve(codec: Codec, w: World, op: Op)
    requires Faithful(codec) && TimedInv(codec, w) && op.Reserve? && InTime(w, op)
    ensures TimedInv(codec, Process(codec, w, op).0)
  {
    if !w.fenced && w.ledger != [] && NextSequence(w) <= MAX_SEQUENCE && ValidClaim(op.claim) {
      if CheckAnswer(w.live, op.claim) == Fresh && op.template.callId.Some? && op.append != LostBeforeWrite {
        ReserveFresh(codec, w, op);
      }
    }
  }

  lemma TimedRelease(codec: Codec, w: World, op: Op)
    requires Faithful(codec) && WriterInv(codec, w) && TimedInv(codec, w) && op.Release?
    ensures TimedInv(codec, Process(codec, w, op).0)
  {
    var sequence := NextSequence(w);
    var obs := ReleaseObservation(codec, op.template, op.reservation, sequence);
    if !w.fenced && sequence <= MAX_SEQUENCE && Contains(w.live, op.reservation) && obs.Some? {
      ReleaseDecodes(codec, op.template, op.reservation, sequence);
      RebuildAppend(codec, w.ledger, Entry(sequence, BeforeEffect, obs.value));
    }
  }

  lemma {:induction false} TimedRunKeeps(codec: Codec, w: World, ops: seq<Op>)
    requires Faithful(codec) && WriterInv(codec, w) && TimedInv(codec, w)
    requires Run(codec, w, ops) && TimedRun(codec, w, ops)
    ensures TimedInv(codec, After(codec, w, ops))
    decreases |ops|
  {
    if ops != [] {
      var op := ops[0];
      ProcessKeeps(codec, w, op);
      match op {
        case WriteOther(durability, obs) => RebuildAppend(codec, w.ledger, Entry(NextSequence(w), durability, obs));
        case Restart =>
        case Reserve(_, _, _) => TimedReserve(codec, w, op);
        case Release(_, _, _) => TimedRelease(codec, w, op);
      }
      TimedRunKeeps(codec, Process(codec, w, op).0, ops[1..]);
    }
  }

  /** With times in order, over reservations, releases, lost acknowledgements, other writes
      and restarts: the ledger alone rebuilds, no reservation overlaps another, and the
      rebuilt index answers every later check exactly as the pruned live one does. */
  lemma RebuiltAnswersAsLive(codec: Codec, t0: int, ops: seq<Op>, claim: Claim)
    requires Faithful(codec) && Run(codec, Beginning(t0), ops) && TimedRun(codec, Beginning(t0), ops)
    ensures var w := After(codec, Beginning(t0), ops);
            && Rebuild(codec, w.ledger).Ok?
            && LifetimesRespected(codec, w.ledger)
            && (!w.fenced && w.now <= claim.acceptedAt ==>
                  CheckAnswer(Rebuild(codec, w.ledger).value, claim) == CheckAnswer(w.live, claim))
  {
    TimedRunKeeps(codec, Beginning(t0), ops);
    RebuildsIffLifetimesRespected(codec, t0, ops);
  }

  // ---- the clock hypothesis is needed --------------------------------------

  /** The guard that fails: after a reservation the live index takes as fresh, the ledger
      still rebuilds exactly when no unreleased record of the key outlives its acceptance. */
  lemma ReserveRebuildsIff(codec: Codec, w: World, op: Op)
    requires Faithful(codec) && op.Reserve? && op.append == Durable && op.template.callId.Some?
    requires !w.fenced && w.ledger != [] && NextSequence(w) <= MAX_SEQUENCE && ValidClaim(op.claim)
    requires CheckAnswer(w.live, op.claim) == Fresh && Rebuild(codec, w.ledger).Ok?
    ensures var full, k := Rebuild(codec, w.ledger).value, op.claim.keyDigest;
            Rebuild(codec, Process(codec, w, op).0.ledger).Ok? <==>
              (k in full ==> full[k].claim.expiresAt <= op.claim.acceptedAt)
  {
    ReserveFresh(codec, w, op);
  }

  lemma Steps(codec: Codec, w: World, op: Op, rest: seq<Op>)
    ensures Run(codec, w, [op] + rest) == (Permitted(codec, w, op) && Run(codec, Process(codec, w, op).0, rest))
    ensures After(codec, w, [op] + rest) == After(codec, Process(codec, w, op).0, rest)
  {
    assert ([op] + rest)[1..] == rest;
  }

  /** After some other write: reserve a key, check another later, reserve the first again at an earlier time. */
  function BackwardRun(t: Observation, a: Claim, b: Claim, a2: Claim): seq<Op> {
    [WriteOther(OtherDurability, t)]
    + ([Reserve(a, t, Durable)] + ([Reserve(b, t, Durable)] + ([Reserve(a2, t, Durable)] + [])))
  }

  lemma ReservedBackward(codec: Codec, w: World, t: Observation, a: Claim, b: Claim, a2: Claim)
    requires Faithful(codec) && t.callId.Some?
    requires ValidClaim(a) && ValidClaim(b) && ValidClaim(a2)
    requires a.keyDigest == a2.keyDigest != b.keyDigest
    requires a2.acceptedAt < a.expiresAt <= b.acceptedAt
    requires !w.fenced && w.live == map[] && Rebuild(codec, w.ledger) == Ok(map[]) && 0 < |w.ledger| < MAX_SEQUENCE - 2
    ensures var ops := [Reserve(a, t, Durable)] + ([Reserve(b, t, Durable)] + ([Reserve(a2, t, Durable)] + []));
            && Run(codec, w, ops) && !After(codec, w, ops).fenced
            && Rebuild(codec, After(codec, w, ops).ledger) == Err(Overlap)
  {
    var o1, o2, o3 := Reserve(a, t, Durable), Reserve(b, t, Durable), Reserve(a2, t, Durable);
    ReserveFresh(codec, w, o1);
    var w1 := Process(codec, w, o1).0;
    ReserveFresh(codec, w1, o2);
    var w2 := Process(codec, w1, o2).0;
    assert a.keyDigest !in w2.live;
    ReserveFresh(codec, w2, o3);
    Steps(codec, w2, o3, []);
    Steps(codec, w1, o2, [o3] + []);
    Steps(codec, w, o1, [o2] + ([o3] + []));
  }

  /** A check of another key at a later time prunes the record of the first key; a
      reservation of the first key stamped before that record's expiry is then accepted
      live, and the ledger no longer rebuilds. */
  lemma ClockMustNotGoBack(codec: Codec, t0: int, t: Observation, a: Claim, b: Claim, a2: Claim)
    requires Faithful(codec) && t.callId.Some? && t.detail.None?
    requires ValidClaim(a) && ValidClaim(b) && ValidClaim(a2)
    requires a.keyDigest == a2.keyDigest != b.keyDigest
    requires a2.acceptedAt < a.expiresAt <= b.acceptedAt
    ensures Run(codec, Beginning(t0), BackwardRun(t, a, b, a2))
    ensures !After(codec, Beginning(t0), BackwardRun(t, a, b, a2)).fenced
    ensures Rebuild(codec, After(codec, Beginning(t0), BackwardRun(t, a, b, a2)).ledger) == Err(Overlap)
  {
    var op := WriteOther(OtherDurability, t);
    var w := Process(codec, Beginning(t0), op).0;
    var entry := Entry(0, OtherDurability, t);
    assert w.ledger == [] + [entry];
    RebuildAppend(codec, [], entry);
    ReservedBackward(codec, w, t, a, b, a2);
    Steps(codec, Beginning(t0), op,
          [Reserve(a, t, Durable)] + ([Reserve(b, t, Durable)] + ([Reserve(a2, t, Durable)] + [])));
  }

  function Digest(c: char): string { seq(64, _ => c) }

  function ClaimFor(c: char, at: int): Claim { Claim(Digest(c), Digest(c), at, at + TTL) }

  /** One such run, at a codec that exists. */
  lemma BackwardRunExists()
    ensures var t := Observation("", 0, OtherKind, OtherOutcome, OtherPlane, OtherVisibility, Some("c"), None);
            var ops := BackwardRun(t, ClaimFor('a', 0), ClaimFor('b', TTL), ClaimFor('a', 1));
            && Faithful(PlainCodec()) && Run(PlainCodec(), Beginning(0), ops)
            && !After(PlainCodec(), Beginning(0), ops).fenced
            && Rebuild(PlainCodec(), After(PlainCodec(), Beginning(0), ops).ledger) == Err(Overlap)
  {
    PlainIsFaithful();
    assert Digest('a')[0] != Digest('b')[0];
    var t := Observation("", 0, OtherKind, OtherOutcome, OtherPlane, OtherVisibility, Some("c"), None);
    ClockMustNotGoBack(PlainCodec(), 0, t, ClaimFor('a', 0), ClaimFor('b', TTL), ClaimFor('a', 1));
  }
}
