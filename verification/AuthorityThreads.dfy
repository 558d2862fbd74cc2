/**
 Many threads using one authority order.

 Taking the mutex, the checks made under it, the start and the end of each callback,
 each write of the state and giving the mutex back are separate steps, and steps of
 different threads interleave freely. A callback may panic, which poisons the mutex.
 `log` records every commit callback, admission, effect start and state change.
 */
module AuthorityThreads {
  import opened Wrappers
  import opened Text
  import opened AuthorityOrder

  type Tid = nat

  /** What a successful rescan read and concluded. */
  datatype Recovery = Recovery(ledger: Ledger, cursor: Cursor, e: Expectation)

  datatype Pc =
    | Idle
    | WantCommit(id: string) | HeldCommit(id: string) | Committing(id: string) | Reported(id: string, outcome: CommitOutcome)
    | WantAdmit(e: Expectation) | HeldAdmit(e: Expectation) | Proving(e: Expectation)
    | Proven(e: Expectation, cursor: Cursor) | Starting(e: Expectation)
    | WantRescan | HeldRescan | Rescanned(found: Option<Recovery>)
    | Leaving
    | Crashed

  datatype Event =
    | CommitBegins(t: Tid, id: string)
    | CommitWrites(t: Tid, id: string, outcome: CommitOutcome)
    | Admitted(t: Tid, e: Expectation)
    | AdmissionEnds(t: Tid)
    | EffectBegins(t: Tid, e: Expectation, cursor: Cursor)
    | EffectEnds(t: Tid, e: Expectation)
    | Recovers(t: Tid, e: Expectation, ledger: Ledger, cursor: Cursor)
    | Panics(t: Tid)

  datatype World = World(
    order: OrderState,
    lock: Option<Tid>,
    poisoned: bool,
    pcs: map<Tid, Pc>,
    log: seq<Event>)
  {
    function At(t: Tid): Pc { if t in pcs then pcs[t] else Idle }

    function Goto(t: Tid, pc: Pc): World { this.(pcs := pcs[t := pc]) }

    function Note(ev: Event): World { this.(log := log + [ev]) }
  }

  datatype Action =
    | Call(t: Tid, want: Pc)
    | Lock(t: Tid)
    | CheckCommit(t: Tid)
    | CommitReturns(t: Tid, outcome: CommitOutcome)
    | WriteCommit(t: Tid)
    | CheckAdmission(t: Tid)
    | ProofReturns(t: Tid, proof: Proof)
    | Start(t: Tid)
    | StartReturns(t: Tid)
    | ReadLedger(t: Tid, ledger: Ledger, store: Expectation -> Option<Proof>)
    | WriteRescan(t: Tid)
    | Unlock(t: Tid)
    | Panic(t: Tid)

  predicate Enabled(w: World, a: Action) {
    match a
    case Call(t, want) => w.At(t).Idle? && (want.WantCommit? || want.WantAdmit? || want.WantRescan?)
    case Lock(t) => w.lock.None? && (w.At(t).WantCommit? || w.At(t).WantAdmit? || w.At(t).WantRescan?)
    case CheckCommit(t) => w.At(t).HeldCommit?
    case CommitReturns(t, _) => w.At(t).Committing?
    case WriteCommit(t) => w.At(t).Reported?
    case CheckAdmission(t) => w.At(t).HeldAdmit?
    case ProofReturns(t, _) => w.At(t).Proving?
    case Start(t) => w.At(t).Proven?
    case StartReturns(t) => w.At(t).Starting?
    case ReadLedger(t, _, _) => w.At(t).HeldRescan?
    case WriteRescan(t) => w.At(t).Rescanned?
    case Unlock(t) => w.At(t).Leaving?
    case Panic(t) => w.At(t).Committing? || w.At(t).Proving? || w.At(t).Starting?
  }

  function Held(want: Pc): Pc {
    match want
    case WantCommit(id) => HeldCommit(id)
    case WantAdmit(e) => HeldAdmit(e)
    case _ => HeldRescan
  }

  function FoundBy(s: OrderState, ledger: Ledger, store: Expectation -> Option<Proof>): (found: Option<Recovery>)
    ensures found.Some? <==> Rescan(s, ledger, store).Ok?
    ensures found.Some? ==>
              && Rescan(s, ledger, store) == Ok(found.value.e) && found.value.ledger == ledger
              && Lifts(s, ledger, found.value.cursor, found.value.e)
  {
    match Rescan(s, ledger, store)
    case Err(_) => None
    case Ok(e) => Some(Recovery(ledger, store(e).value.cursor, e))
  }

  function Perform(w: World, a: Action): World
    requires Enabled(w, a)
  {
    match a
    case Call(t, want) => w.Goto(t, want)
    case Lock(t) =>
      // `lock().expect(..)` panics on a poisoned mutex before any state is read
      if w.poisoned then w.Goto(t, Crashed) else w.(lock := Some(t)).Goto(t, Held(w.At(t)))
    case CheckCommit(t) =>
      var id := w.At(t).id;
      if MayCommit(w.order, id) then w.Goto(t, Committing(id)).Note(CommitBegins(t, id)) else w.Goto(t, Leaving)
    case CommitReturns(t, outcome) => w.Goto(t, Reported(w.At(t).id, outcome))
    case WriteCommit(t) =>
      var pc := w.At(t);
      w.(order := AfterCommit(w.order, pc.id, pc.outcome)).Goto(t, Leaving).Note(CommitWrites(t, pc.id, pc.outcome))
    case CheckAdmission(t) =>
      var e := w.At(t).e;
      if Precheck(w.order, e).None? then w.Goto(t, Proving(e)).Note(Admitted(t, e)) else w.Goto(t, Leaving)
    case ProofReturns(t, proof) =>
      var e := w.At(t).e;
      if ProofCheck(proof, e).None? && proof.Usable? then w.Goto(t, Proven(e, proof.cursor))
      else w.Goto(t, Leaving).Note(AdmissionEnds(t))
    case Start(t) => w.Goto(t, Starting(w.At(t).e)).Note(EffectBegins(t, w.At(t).e, w.At(t).cursor))
    case StartReturns(t) => w.Goto(t, Leaving).Note(EffectEnds(t, w.At(t).e))
    case ReadLedger(t, ledger, store) =>
      w.Goto(t, Rescanned(FoundBy(w.order, ledger, store)))
    case WriteRescan(t) =>
      var pc := w.At(t);
      if pc.found.None? then w.Goto(t, Leaving)
      else
        w.(order := AfterRescan(w.order, Ok(pc.found.value.e))).Goto(t, Leaving)
         .Note(Recovers(t, pc.found.value.e, pc.found.value.ledger, pc.found.value.cursor))
    case Unlock(t) => w.(lock := None).Goto(t, Idle)
    case Panic(t) => w.(lock := None, poisoned := true).Goto(t, Crashed).Note(Panics(t))
  }

  predicate Initial(w: World) {
    && w.lock.None? && !w.poisoned && w.pcs == map[] && w.log == []
    && (w.order == UnavailableOrder || (w.order.expectation.Some? && w.order == New(w.order.expectation.value)))
  }

  predicate ValidRun(w: World, acts: seq<Action>)
    decreases |acts|
  {
    acts == [] || (Enabled(w, acts[0]) && ValidRun(Perform(w, acts[0]), acts[1..]))
  }

  function RunAll(w: World, acts: seq<Action>): World
    requires ValidRun(w, acts)
    decreases |acts|
  {
    if acts == [] then w else RunAll(Perform(w, acts[0]), acts[1..])
  }

  // ---- reading the log -----------------------------------------------------

  /** The expectation in force: the latest one set initially, by a commit or by a recovery. */
  function InForce(start: Option<Expectation>, log: seq<Event>): Option<Expectation> {
    if log == [] then start
    else
      match log[|log| - 1]
      case Recovers(_, e, _, _) => Some(e)
      case CommitWrites(_, id, Committed(id2, e)) =>
        if id == id2 then Some(e) else InForce(start, log[..|log| - 1])
      case _ => InForce(start, log[..|log| - 1])
  }

  /** The callback left it uncertain whether, or how far, `id` was committed. */
  predicate Uncertain(id: string, outcome: CommitOutcome) {
    outcome.id != id || outcome.ProjectionPending? || outcome.CommitUnknown? || outcome.WriterPoisoned?
  }

  /** A fence is up: the latest uncertain commit, or the start, has not been followed by a recovery. */
  predicate FenceUp(start: bool, log: seq<Event>) {
    if log == [] then start
    else
      match log[|log| - 1]
      case Recovers(_, _, _, _) => false
      case CommitWrites(_, id, outcome) => Uncertain(id, outcome) || FenceUp(start, log[..|log| - 1])
      case _ => FenceUp(start, log[..|log| - 1])
  }

  /** What may follow an event in the log. Nothing follows a panic, and between a
      callback's beginning and its end no other thread does anything that is logged. */
  predicate MayFollow(prev: Event, next: Event) {
    match prev
    case CommitBegins(t, id) => (next.CommitWrites? && next.t == t && next.id == id) || next == Panics(t)
    case Admitted(t, e) => (next.EffectBegins? && next.t == t && next.e == e) || next == AdmissionEnds(t) || next == Panics(t)
    case EffectBegins(t, e, _) => next == EffectEnds(t, e) || next == Panics(t)
    case Panics(_) => false
    case _ => Opens(next)
  }

  /** Events that begin a section rather than continue one. */
  predicate Opens(ev: Event) { ev.CommitBegins? || ev.Admitted? || ev.Recovers? }

  predicate Sections(log: seq<Event>) {
    && (log != [] ==> Opens(log[0]))
    && (forall k :: 0 < k < |log| ==> MayFollow(log[k - 1], log[k]))
  }

  // ---- the invariant -------------------------------------------------------

  predicate HoldsLock(pc: Pc) {
    !(pc.Idle? || pc.WantCommit? || pc.WantAdmit? || pc.WantRescan? || pc.Crashed?)
  }

  /** The last logged event leaves no section open. */
  predicate Closed(log: seq<Event>) {
    log == [] || !(log[|log| - 1].CommitBegins? || log[|log| - 1].Admitted? || log[|log| - 1].EffectBegins?
                   || log[|log| - 1].Panics?)
  }

  predicate Lifts(s: OrderState, ledger: Ledger, cursor: Cursor, e: Expectation) {
    AccountsFor(s, ledger, e) && CursorMatches(cursor, e)
  }

  /** What the thread inside the mutex knows about the state and the log. */
  predicate Inside(w: World, t: Tid, pc: Pc) {
    match pc
    case Committing(id) => MayCommit(w.order, id) && w.log != [] && w.log[|w.log| - 1] == CommitBegins(t, id)
    case Reported(id, _) => MayCommit(w.order, id) && w.log != [] && w.log[|w.log| - 1] == CommitBegins(t, id)
    case Proving(e) => Precheck(w.order, e).None? && w.log != [] && w.log[|w.log| - 1] == Admitted(t, e)
    case Proven(e, cursor) =>
      Precheck(w.order, e).None? && CursorMatches(cursor, e) && w.log != [] && w.log[|w.log| - 1] == Admitted(t, e)
    case Starting(e) =>
      && Precheck(w.order, e).None? && w.log != [] && w.log[|w.log| - 1].EffectBegins?
      && w.log[|w.log| - 1].t == t && w.log[|w.log| - 1].e == e
    case Rescanned(found) =>
      Closed(w.log) && (found.Some? ==> Lifts(w.order, found.value.ledger, found.value.cursor, found.value.e))
    case _ => Closed(w.log)
  }

  ghost predicate Inv(start: OrderState, w: World) {
    && Coherent(w.order)
    && Sections(w.log)
    && (forall t :: t in w.pcs && HoldsLock(w.pcs[t]) ==> w.lock == Some(t))
    && (w.lock.Some? ==> HoldsLock(w.At(w.lock.value)) && Inside(w, w.lock.value, w.At(w.lock.value)))
    && (w.lock.None? && !w.poisoned ==> Closed(w.log))
    && (w.poisoned ==> w.lock.None? && w.log != [] && w.log[|w.log| - 1].Panics?)
    && w.order.expectation == InForce(start.expectation, w.log)
    && w.order.fenced.Some? == FenceUp(start.fenced.Some?, w.log)
  }

  lemma InitialInv(w: World)
    requires Initial(w)
    ensures Inv(w.order, w)
  {
  }

  /** One more event, read by each of the three readings of the log. */
  lemma Noted(start: OrderState, log: seq<Event>, ev: Event)
    requires Sections(log)
    requires if log == [] then Opens(ev) else MayFollow(log[|log| - 1], ev)
    ensures Sections(log + [ev])
    ensures !ev.Recovers? && !ev.CommitWrites? ==>
              && InForce(start.expectation, log + [ev]) == InForce(start.expectation, log)
              && FenceUp(start.fenced.Some?, log + [ev]) == FenceUp(start.fenced.Some?, log)
    ensures ev.Recovers? ==>
              InForce(start.expectation, log + [ev]) == Some(ev.e) && !FenceUp(start.fenced.Some?, log + [ev])
    ensures ev.CommitWrites? ==>
              && FenceUp(start.fenced.Some?, log + [ev]) ==
                   (Uncertain(ev.id, ev.outcome) || FenceUp(start.fenced.Some?, log))
              && InForce(start.expectation, log + [ev]) ==
                   (if ev.outcome.Committed? && ev.outcome.id == ev.id then Some(ev.outcome.expectation)
                    else InForce(start.expectation, log))
  {
    var log2 := log + [ev];
    assert log2[..|log2| - 1] == log;
    forall k | 0 < k < |log2| ensures MayFollow(log2[k - 1], log2[k]) {
      if k < |log| { assert log2[k] == log[k]; }
    }
  }

  lemma LockStep(start: OrderState, w: World, a: Action)
    requires Inv(start, w) && Enabled(w, a) && (a.Call? || a.Lock? || a.Unlock? || a.CommitReturns?)
    ensures Inv(start, Perform(w, a))
  {
    assert HoldsLock(w.At(a.t)) ==> w.lock == Some(a.t);
  }

  lemma ReadLedgerStep(start: OrderState, w: World, a: Action)
    requires Inv(start, w) && Enabled(w, a) && a.ReadLedger?
    ensures Inv(start, Perform(w, a))
  {
    assert w.lock == Some(a.t);
  }

  lemma WriteRescanStep(start: OrderState, w: World, a: Action)
    requires Inv(start, w) && Enabled(w, a) && a.WriteRescan?
    ensures Inv(start, Perform(w, a))
  {
    var w2 := Perform(w, a);
    assert w.lock == Some(a.t);
    if w2.log != w.log { Noted(start, w.log, w2.log[|w2.log| - 1]); }
  }

  lemma CheckCommitStep(start: OrderState, w: World, a: Action)
    requires Inv(start, w) && Enabled(w, a) && a.CheckCommit?
    ensures Inv(start, Perform(w, a))
  {
    var w2 := Perform(w, a);
    assert w.lock == Some(a.t);
    if w2.log != w.log { Noted(start, w.log, w2.log[|w2.log| - 1]); }
  }

  lemma WriteCommitStep(start: OrderState, w: World, a: Action)
    requires Inv(start, w) && Enabled(w, a) && a.WriteCommit?
    ensures Inv(start, Perform(w, a))
  {
    assert w.lock == Some(a.t);
    var pc := w.At(a.t);
    CommitKeepsCoherent(w.order, pc.id, pc.outcome);
    Noted(start, w.log, CommitWrites(a.t, pc.id, pc.outcome));
  }

  lemma CheckAdmissionStep(start: OrderState, w: World, a: Action)
    requires Inv(start, w) && Enabled(w, a) && a.CheckAdmission?
    ensures Inv(start, Perform(w, a))
  {
    var w2 := Perform(w, a);
    assert w.lock == Some(a.t);
    if w2.log != w.log { Noted(start, w.log, w2.log[|w2.log| - 1]); }
  }

  lemma ProofStep(start: OrderState, w: World, a: Action)
    requires Inv(start, w) && Enabled(w, a) && a.ProofReturns?
    ensures Inv(start, Perform(w, a))
  {
    var w2 := Perform(w, a);
    assert w.lock == Some(a.t);
    if w2.log != w.log { Noted(start, w.log, w2.log[|w2.log| - 1]); }
  }

  lemma StartStep(start: OrderState, w: World, a: Action)
    requires Inv(start, w) && Enabled(w, a) && (a.Start? || a.StartReturns?)
    ensures Inv(start, Perform(w, a))
  {
    var w2 := Perform(w, a);
    assert w.lock == Some(a.t);
    Noted(start, w.log, w2.log[|w2.log| - 1]);
  }

  lemma PanicStep(start: OrderState, w: World, a: Action)
    requires Inv(start, w) && Enabled(w, a) && a.Panic?
    ensures Inv(start, Perform(w, a))
  {
    assert w.lock == Some(a.t);
    Noted(start, w.log, Panics(a.t));
  }

  lemma StepKeepsInv(start: OrderState, w: World, a: Action)
    requires Inv(start, w) && Enabled(w, a)
    ensures Inv(start, Perform(w, a))
  {
    match a {
      case Call(_, _) => LockStep(start, w, a);
      case Lock(_) => LockStep(start, w, a);
      case Unlock(_) => LockStep(start, w, a);
      case CommitReturns(_, _) => LockStep(start, w, a);
      case CheckCommit(_) => CheckCommitStep(start, w, a);
      case WriteCommit(_) => WriteCommitStep(start, w, a);
      case ReadLedger(_, _, _) => ReadLedgerStep(start, w, a);
      case WriteRescan(_) => WriteRescanStep(start, w, a);
      case CheckAdmission(_) => CheckAdmissionStep(start, w, a);
      case ProofReturns(_, _) => ProofStep(start, w, a);
      case Panic(_) => PanicStep(start, w, a);
      case _ => StartStep(start, w, a);
    }
  }

  // ---- why each event was allowed ------------------------------------------

  /** The mutations acknowledged as committed since the last recovery. */
  function Acknowledged(log: seq<Event>): set<string> {
    if log == [] then {} else AcknowledgedNext(Acknowledged(log[..|log| - 1]), log[|log| - 1])
  }

  function AcknowledgedNext(prev: set<string>, ev: Event): set<string> {
    if ev.Recovers? then {}
    else if ev.CommitWrites? && ev.outcome == ProjectionPending(ev.id) then prev + {ev.id}
    else prev
  }

  /** `ev` was allowed after `before`: callbacks only start unfenced, effects only under
      the authority in force, and a recovery ends a fence on a ledger that renews the authority. */
  predicate Warranted(start: OrderState, before: seq<Event>, ev: Event) {
    match ev
    case CommitBegins(_, id) => !FenceUp(start.fenced.Some?, before) && !Blank(id)
    case Admitted(_, e) => UnderAuthority(start, before, e)
    case EffectBegins(_, e, cursor) => UnderAuthority(start, before, e) && CursorMatches(cursor, e)
    case Recovers(_, e, ledger, cursor) =>
      FenceUp(start.fenced.Some?, before) && Renews(InForce(start.expectation, before), Acknowledged(before), ledger, cursor, e)
    case _ => true
  }

  /** A ledger read under a new epoch, unpoisoned and whole, that lost nothing acknowledged, with a
      current cursor at its head. */
  predicate Renews(retained: Option<Expectation>, acknowledged: set<string>, ledger: Ledger, cursor: Cursor, e: Expectation) {
    && FreshLedger(retained, ledger, e)
    && acknowledged <= ledger.replay.value.mutations
    && CursorMatches(cursor, e)
  }

  predicate UnderAuthority(start: OrderState, before: seq<Event>, e: Expectation) {
    && !FenceUp(start.fenced.Some?, before)
    && InForce(start.expectation, before).Some?
    && var x := InForce(start.expectation, before).value;
    && x.sourceMotherNodeId == e.sourceMotherNodeId && x.sourceLedgerId == e.sourceLedgerId
    && x.grants == e.grants && x.stateHash == e.stateHash
  }

  predicate Justified(start: OrderState, log: seq<Event>) {
    forall k :: 0 <= k < |log| ==> Warranted(start, log[..k], log[k])
  }

  predicate AcknowledgedPending(w: World) {
    forall id :: id in Acknowledged(w.log) ==> id in w.order.pending && w.order.pending[id] == MustBeCommitted
  }

  lemma AppendJustified(start: OrderState, log: seq<Event>, ev: Event)
    requires Justified(start, log) && Warranted(start, log, ev)
    ensures Justified(start, log + [ev])
  {
    var log2 := log + [ev];
    forall k | 0 <= k < |log2| ensures Warranted(start, log2[..k], log2[k]) {
      assert log2[..k] == log[..k];
      assert log[..|log|] == log;
    }
  }

  lemma AppendAcknowledged(log: seq<Event>, ev: Event)
    ensures Acknowledged(log + [ev]) == AcknowledgedNext(Acknowledged(log), ev)
  {
    assert (log + [ev])[..|log|] == log;
  }

  /** A step logs at most one event, and only one that is warranted. */
  lemma StepWarranted(start: OrderState, w: World, a: Action)
    requires Inv(start, w) && Enabled(w, a) && AcknowledgedPending(w)
    ensures var w2 := Perform(w, a);
            w2.log == w.log || (|w2.log| == |w.log| + 1 && w2.log == w.log + [w2.log[|w.log|]]
                                && Warranted(start, w.log, w2.log[|w.log|]))
  {
    assert HoldsLock(w.At(a.t)) ==> w.lock == Some(a.t);
  }

  lemma WriteAcknowledged(start: OrderState, w: World, a: Action)
    requires Inv(start, w) && Enabled(w, a) && AcknowledgedPending(w) && a.WriteCommit?
    ensures AcknowledgedPending(Perform(w, a))
  {
    var pc := w.At(a.t);
    assert w.lock == Some(a.t);
    assert Acknowledged(w.log) == {};
    AppendAcknowledged(w.log, CommitWrites(a.t, pc.id, pc.outcome));
  }

  /** A step other than a commit's write logs at most one event, and changes the pending
      mutations only by recovering. */
  lemma OtherStep(w: World, a: Action)
    requires Enabled(w, a) && !a.WriteCommit?
    ensures var w2 := Perform(w, a);
            || (w2.log == w.log && w2.order == w.order)
            || (exists ev :: w2.log == w.log + [ev] && !ev.CommitWrites? && (ev.Recovers? || w2.order == w.order))
  {
  }

  lemma OtherAcknowledged(w: World, a: Action)
    requires Enabled(w, a) && AcknowledgedPending(w) && !a.WriteCommit?
    ensures AcknowledgedPending(Perform(w, a))
  {
    OtherStep(w, a);
    var w2 := Perform(w, a);
    if w2.log != w.log {
      var ev :| w2.log == w.log + [ev] && !ev.CommitWrites? && (ev.Recovers? || w2.order == w.order);
      AppendAcknowledged(w.log, ev);
    }
  }

  lemma StepAcknowledged(start: OrderState, w: World, a: Action)
    requires Inv(start, w) && Enabled(w, a) && AcknowledgedPending(w)
    ensures AcknowledgedPending(Perform(w, a))
  {
    if a.WriteCommit? { WriteAcknowledged(start, w, a); } else { OtherAcknowledged(w, a); }
  }

  lemma StepJustified(start: OrderState, w: World, a: Action)
    requires Inv(start, w) && Enabled(w, a) && AcknowledgedPending(w) && Justified(start, w.log)
    ensures AcknowledgedPending(Perform(w, a)) && Justified(start, Perform(w, a).log)
  {
    StepAcknowledged(start, w, a);
    StepWarranted(start, w, a);
    var log2 := Perform(w, a).log;
    if log2 != w.log { AppendJustified(start, w.log, log2[|w.log|]); }
  }

  lemma {:induction false} RunKeepsInv(start: OrderState, w: World, acts: seq<Action>)
    requires Inv(start, w) && AcknowledgedPending(w) && Justified(start, w.log) && ValidRun(w, acts)
    ensures Inv(start, RunAll(w, acts)) && Justified(start, RunAll(w, acts).log)
    decreases |acts|
  {
    if acts != [] {
      StepKeepsInv(start, w, acts[0]);
      StepJustified(start, w, acts[0]);
      RunKeepsInv(start, Perform(w, acts[0]), acts[1..]);
    }
  }

  // ---- theorems ------------------------------------------------------------

  predicate Reached(w0: World, acts: seq<Action>, w: World) {
    Initial(w0) && ValidRun(w0, acts) && w == RunAll(w0, acts)
  }

  lemma ReachedInv(w0: World, acts: seq<Action>, w: World)
    requires Reached(w0, acts, w)
    ensures Inv(w0.order, w) && Justified(w0.order, w.log)
  {
    InitialInv(w0);
    RunKeepsInv(w0.order, w0, acts);
  }

  /** However the threads interleave, an effect's admission, start and end are adjacent in
      the log of callbacks and state changes, and so are a commit callback and its write;
      a panic inside a callback ends the log. */
  lemma SectionsAreExclusive(w0: World, acts: seq<Action>, w: World, k: nat)
    requires Reached(w0, acts, w) && k < |w.log|
    ensures w.log[k].EffectEnds? ==>
              k >= 2 && w.log[k - 1].EffectBegins? && w.log[k - 1].t == w.log[k].t && w.log[k - 1].e == w.log[k].e
              && w.log[k - 2] == Admitted(w.log[k].t, w.log[k].e)
    ensures w.log[k].EffectBegins? ==>
              && k >= 1 && w.log[k - 1] == Admitted(w.log[k].t, w.log[k].e)
              && (k + 1 < |w.log| ==>
                    w.log[k + 1] == EffectEnds(w.log[k].t, w.log[k].e) || w.log[k + 1] == Panics(w.log[k].t))
    ensures w.log[k].CommitWrites? ==>
              k >= 1 && w.log[k - 1] == CommitBegins(w.log[k].t, w.log[k].id)
    ensures w.log[k].Panics? ==> k == |w.log| - 1
  {
    ReachedInv(w0, acts, w);
    if k >= 1 { assert MayFollow(w.log[k - 1], w.log[k]); }
    if k >= 2 { assert MayFollow(w.log[k - 2], w.log[k - 1]); }
    if k + 1 < |w.log| { assert MayFollow(w.log[k], w.log[k + 1]); }
  }

  /** Every effect starts unfenced, with the mother, ledger, grants and state hash of the expectation in
      force at that point of the log, and with a cursor that is current at its own expectation. */
  lemma EffectsStartUnderAuthority(w0: World, acts: seq<Action>, w: World, k: nat)
    requires Reached(w0, acts, w) && k < |w.log| && w.log[k].EffectBegins?
    ensures UnderAuthority(w0.order, w.log[..k], w.log[k].e)
    ensures w.log[k].cursor == CursorAt(w.log[k].e)
  {
    ReachedInv(w0, acts, w);
    CursorMatchesIff(w.log[k].cursor, w.log[k].e);
  }

  /** While a fence is up no commit callback and no effect begins, and only a recovery takes it
      down: from an unpoisoned ledger of a new epoch whose replay holds every acknowledged mutation
      and the tenure's authority, with a matching cursor at its head. */
  lemma FenceStopsEverything(w0: World, acts: seq<Action>, w: World, k: nat)
    requires Reached(w0, acts, w) && k < |w.log| && FenceUp(w0.order.fenced.Some?, w.log[..k])
    ensures !w.log[k].CommitBegins? && !w.log[k].Admitted? && !w.log[k].EffectBegins?
    ensures !FenceUp(w0.order.fenced.Some?, w.log[..k + 1]) ==>
              && w.log[k].Recovers?
              && Renews(InForce(w0.order.expectation, w.log[..k]), Acknowledged(w.log[..k]),
                        w.log[k].ledger, w.log[k].cursor, w.log[k].e)
  {
    ReachedInv(w0, acts, w);
    assert Warranted(w0.order, w.log[..k], w.log[k]);
    assert w.log[..k + 1][..k] == w.log[..k];
  }

  /** And every recovery of every run is of that kind: it ends a fence that was up. */
  lemma RecoveriesRenew(w0: World, acts: seq<Action>, w: World, k: nat)
    requires Reached(w0, acts, w) && k < |w.log| && w.log[k].Recovers?
    ensures FenceUp(w0.order.fenced.Some?, w.log[..k]) && !FenceUp(w0.order.fenced.Some?, w.log[..k + 1])
    ensures Renews(InForce(w0.order.expectation, w.log[..k]), Acknowledged(w.log[..k]),
                   w.log[k].ledger, w.log[k].cursor, w.log[k].e)
    ensures InForce(w0.order.expectation, w.log[..k + 1]) == Some(w.log[k].e)
  {
    ReachedInv(w0, acts, w);
    assert Warranted(w0.order, w.log[..k], w.log[k]);
    assert w.log[..k + 1][..k] == w.log[..k];
  }

  /** Expectation, fence and pending mutations stay coherent, and the state is the one the
      log describes; so no admission is ever denied for want of an authority state. */
  lemma StateIsCoherent(w0: World, acts: seq<Action>, w: World, e: Expectation, proof: Proof)
    requires Reached(w0, acts, w)
    ensures Coherent(w.order)
    ensures w.order.expectation == InForce(w0.order.expectation, w.log)
    ensures w.order.fenced.Some? == FenceUp(w0.order.fenced.Some?, w.log)
    ensures Admission(w.order, e, proof) != Some(AuthorityStateUnavailable)
  {
    ReachedInv(w0, acts, w);
    NeverUnavailable(w.order, e, proof);
  }

  // ---- the state, read off the log -----------------------------------------

  /** Why the fence is up: the latest uncertain commit since the last recovery, or the start. */
  function Reason(start: Option<FenceReason>, log: seq<Event>): Option<FenceReason> {
    if log == [] then start else ReasonNext(Reason(start, log[..|log| - 1]), log[|log| - 1])
  }

  function ReasonNext(prev: Option<FenceReason>, ev: Event): Option<FenceReason> {
    if ev.Recovers? then None
    else if !ev.CommitWrites? then prev
    else if ev.outcome.id != ev.id || ev.outcome.CommitUnknown? then Some(CommitUnknownFence)
    else if ev.outcome.WriterPoisoned? then Some(WriterPoisonedFence)
    else if ev.outcome.ProjectionPending? then Some(ProjectionLag)
    else prev
  }

  /** The mutations a recovery has to account for: acknowledged ones must be there, others need not. */
  function Unresolved(log: seq<Event>): map<string, Requirement> {
    if log == [] then map[] else UnresolvedNext(Unresolved(log[..|log| - 1]), log[|log| - 1])
  }

  function UnresolvedNext(prev: map<string, Requirement>, ev: Event): map<string, Requirement> {
    if ev.Recovers? then map[]
    else if !ev.CommitWrites? then prev
    else if ev.outcome == ProjectionPending(ev.id) then prev[ev.id := MustBeCommitted]
    else if Uncertain(ev.id, ev.outcome) then prev[ev.id := PresentOrAbsent]
    else prev
  }

  predicate Read(start: OrderState, w: World) {
    w.order.fenced == Reason(start.fenced, w.log) && w.order.pending == Unresolved(w.log)
  }

  lemma OneMoreRead(start: OrderState, log: seq<Event>, ev: Event)
    ensures Reason(start.fenced, log + [ev]) == ReasonNext(Reason(start.fenced, log), ev)
    ensures Unresolved(log + [ev]) == UnresolvedNext(Unresolved(log), ev)
  {
    assert (log + [ev])[..|log|] == log;
  }

  lemma OutcomeRead(s: OrderState, t: Tid, id: string, outcome: CommitOutcome)
    ensures AfterCommit(s, id, outcome).fenced == ReasonNext(s.fenced, CommitWrites(t, id, outcome))
    ensures AfterCommit(s, id, outcome).pending == UnresolvedNext(s.pending, CommitWrites(t, id, outcome))
  {
  }

  lemma CommitRead(start: OrderState, w: World, a: Action)
    requires Enabled(w, a) && Read(start, w) && a.WriteCommit?
    ensures Read(start, Perform(w, a))
  {
    OutcomeRead(w.order, a.t, w.At(a.t).id, w.At(a.t).outcome);
    OneMoreRead(start, w.log, CommitWrites(a.t, w.At(a.t).id, w.At(a.t).outcome));
  }

  lemma RescanRead(start: OrderState, w: World, a: Action)
    requires Enabled(w, a) && Read(start, w) && a.WriteRescan?
    ensures Read(start, Perform(w, a))
  {
    var found := w.At(a.t).found;
    if found.Some? {
      OneMoreRead(start, w.log, Recovers(a.t, found.value.e, found.value.ledger, found.value.cursor));
    }
  }

  /** Any other step leaves the state alone and logs at most one event that says nothing about it. */
  lemma QuietStep(w: World, a: Action)
    requires Enabled(w, a) && !a.WriteCommit? && !a.WriteRescan?
    ensures Perform(w, a).order == w.order
    ensures Perform(w, a).log == w.log || exists ev :: Perform(w, a).log == w.log + [ev] && !ev.CommitWrites? && !ev.Recovers?
  {
  }

  lemma OtherRead(start: OrderState, w: World, a: Action)
    requires Enabled(w, a) && Read(start, w) && !a.WriteCommit? && !a.WriteRescan?
    ensures Read(start, Perform(w, a))
  {
    QuietStep(w, a);
    var log2 := Perform(w, a).log;
    if log2 != w.log {
      var ev :| log2 == w.log + [ev] && !ev.CommitWrites? && !ev.Recovers?;
      OneMoreRead(start, w.log, ev);
    }
  }

  lemma StepRead(start: OrderState, w: World, a: Action)
    requires Enabled(w, a) && Read(start, w)
    ensures Read(start, Perform(w, a))
  {
    if a.WriteCommit? {
      CommitRead(start, w, a);
    } else if a.WriteRescan? {
      RescanRead(start, w, a);
    } else {
      OtherRead(start, w, a);
    }
  }

  lemma {:induction false} RunRead(start: OrderState, w: World, acts: seq<Action>)
    requires Read(start, w) && ValidRun(w, acts)
    ensures Read(start, RunAll(w, acts))
    decreases |acts|
  {
    if acts != [] {
      StepRead(start, w, acts[0]);
      RunRead(start, Perform(w, acts[0]), acts[1..]);
    }
  }

  /** A rescan finds something exactly when the ledger accounts for everything and the cursor at its head is
      current. */
  lemma RescanReads(w: World, t: Tid, ledger: Ledger, store: Expectation -> Option<Proof>, e: Expectation)
    requires w.At(t).HeldRescan?
    ensures var w2 := Perform(w, ReadLedger(t, ledger, store));
            && w2.At(t).Rescanned? && w2.log == w.log && w2.order == w.order
            && (w2.At(t).found == Some(Recovery(ledger, CursorAt(e), e)) <==>
                AccountsFor(w.order, ledger, e) && store(e) == Some(Usable(CursorAt(e))))
  {
    if AccountsFor(w.order, ledger, e) { RescanAtHead(w.order, ledger, store, e); }
  }

  /** And a section goes on to its end: what a commit callback reports is written, an effect is started under
      its cursor and its end noted, and what a rescan finds is put in force. */
  lemma SectionsClose(w: World, t: Tid)
    ensures w.At(t).Reported? ==>
              var w2, pc := Perform(w, WriteCommit(t)), w.At(t);
              w2.log == w.log + [CommitWrites(t, pc.id, pc.outcome)] && w2.At(t) == Leaving
    ensures w.At(t).Proven? ==>
              var w2, pc := Perform(w, Start(t)), w.At(t);
              w2.log == w.log + [EffectBegins(t, pc.e, pc.cursor)] && w2.At(t) == Starting(pc.e)
    ensures w.At(t).Starting? ==>
              var w2 := Perform(w, StartReturns(t));
              w2.log == w.log + [EffectEnds(t, w.At(t).e)] && w2.At(t) == Leaving
    ensures w.At(t).Rescanned? && w.At(t).found.Some? ==>
              var w2, f := Perform(w, WriteRescan(t)), w.At(t).found.value;
              && w2.log == w.log + [Recovers(t, f.e, f.ledger, f.cursor)] && w2.At(t) == Leaving
              && w2.order.expectation == Some(f.e) && w2.order.fenced.None? && w2.order.pending == map[]
    ensures w.At(t).Leaving? ==> Perform(w, Unlock(t)).lock.None? && Perform(w, Unlock(t)).At(t) == Idle
  {
  }

  /** In every reached state the fence has the reason, and the pending mutations the requirements, that
      the log gives them. */
  lemma FenceIsAsLogged(w0: World, acts: seq<Action>, w: World)
    requires Reached(w0, acts, w)
    ensures w.order.fenced == Reason(w0.order.fenced, w.log) && w.order.pending == Unresolved(w.log)
  {
    RunRead(w0.order, w0, acts);
  }

  /** A section opens exactly when its check lets it: a commit callback unfenced and with an id, an admission
      unfenced and for the authority in force; and an effect starts after exactly the cursor that is current. */
  lemma SectionsOpen(w: World, t: Tid, proof: Proof)
    requires Coherent(w.order)
    ensures w.At(t).HeldCommit? ==>
              var w2 := Perform(w, CheckCommit(t));
              if w.order.fenced.None? && !Blank(w.At(t).id) then w2.log == w.log + [CommitBegins(t, w.At(t).id)]
              else w2.log == w.log && w2.At(t) == Leaving
    ensures w.At(t).HeldAdmit? ==>
              var w2, e := Perform(w, CheckAdmission(t)), w.At(t).e;
              if && w.order.fenced.None? && w.order.expectation.Some?
                 && e == w.order.expectation.value.(throughSequence := e.throughSequence, throughEntryHash := e.throughEntryHash)
              then w2.log == w.log + [Admitted(t, e)] else w2.log == w.log && w2.At(t) == Leaving
    ensures w.At(t).Proving? ==>
              var w2, e := Perform(w, ProofReturns(t, proof)), w.At(t).e;
              if proof == Usable(CursorAt(e)) then w2.At(t) == Proven(e, CursorAt(e)) else w2.At(t) == Leaving
  {
    if w.At(t).HeldAdmit? && w.order.expectation.Some? { SameAuthorityIff(w.order.expectation.value, w.At(t).e); }
    if proof.Usable? && w.At(t).Proving? { CursorMatchesIff(proof.cursor, w.At(t).e); }
  }

  /** At most one thread is between taking and giving back the mutex. */
  lemma MutualExclusion(w0: World, acts: seq<Action>, w: World, t1: Tid, t2: Tid)
    requires Reached(w0, acts, w) && HoldsLock(w.At(t1)) && HoldsLock(w.At(t2))
    ensures t1 == t2
  {
    ReachedInv(w0, acts, w);
    assert t1 in w.pcs && t2 in w.pcs;
  }
}
