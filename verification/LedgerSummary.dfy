/**
 * The two-pass summary of a ledger for one job: `Counts`, `CorrelatedCounts` and
 * `ledger_summary` of crates/mct-daemon/examples/first_real_app_host.rs.
 */
module LedgerSummary {
  import opened Wrappers
  import opened Text
  import opened OrderedStrings

  datatype Kind =
    | RuntimeStarted | RuntimeCompleted | RuntimeFailed | RuntimeTrapped | RuntimeTimedOut
    | ToyAllowed | ToyDenied | CallConstructed | OtherKind

  datatype Observation = Observation(kind: Kind, callId: Option<string>, detail: Option<string>)

  datatype Correlation = Correlation(callerCall: string, callerNode: string, callerVision: string, peerBinding: string)

  /** Reading the JSON of a correlation; none when it is not one. */
  type Decoder = string -> Option<Correlation>

  datatype CorrelationError = BadPayload | BadField | BadExecution

  const PREFIX := "mct-peer-call-correlation-v1:"
  const ID_MAX := 1024

  // ---- correlations --------------------------------------------------------

  predicate GoodField(s: string) { !Blank(s) && ByteLength(s) <= ID_MAX }

  predicate GoodCorrelation(c: Correlation) {
    GoodField(c.callerCall) && GoodField(c.callerNode) && GoodField(c.callerVision) && GoodField(c.peerBinding)
  }

  /** The execution that one observation ties to the job, if any. */
  function ExecutionOf(decode: Decoder, o: Observation, id: string): Result<Option<string>, CorrelationError> {
    if o.kind != CallConstructed || o.detail.None? || !StartsWith(o.detail.value, PREFIX) then Ok(None)
    else
      match decode(o.detail.value[|PREFIX|..])
      case None => Err(BadPayload)
      case Some(c) =>
        if !GoodCorrelation(c) then Err(BadField)
        else if c.callerCall != id then Ok(None)
        else if o.callId.None? || !GoodField(o.callId.value) then Err(BadExecution)
        else Ok(o.callId)
  }

  predicate Ties(decode: Decoder, o: Observation, id: string, execution: string) {
    ExecutionOf(decode, o, id) == Ok(Some(execution))
  }

  /** Text of at most 1024 bytes that is not blank. */
  predicate IsField(s: string) { (exists k :: 0 <= k < |s| && !IsWhitespace(s[k])) && ByteLength(s) <= 1024 }

  /** The observation constructs a call and carries a correlation. */
  predicate Carries(decode: Decoder, o: Observation, c: Correlation) {
    && o.kind == CallConstructed && o.detail.Some?
    && StartsWith(o.detail.value, "mct-peer-call-correlation-v1:")
    && decode(o.detail.value[|"mct-peer-call-correlation-v1:"|..]) == Some(c)
  }

  predicate AllFields(c: Correlation) {
    IsField(c.callerCall) && IsField(c.callerNode) && IsField(c.callerVision) && IsField(c.peerBinding)
  }

  /** An execution is tied to a job by a correlation whose caller's call is the job, on an observation
      whose own call is the execution. */
  lemma TiesIff(decode: Decoder, o: Observation, id: string, execution: string)
    ensures Ties(decode, o, id, execution) <==>
            && IsField(execution) && o.callId == Some(execution)
            && exists c :: Carries(decode, o, c) && AllFields(c) && c.callerCall == id
  {
    if Ties(decode, o, id, execution) {
      var c := decode(o.detail.value[|PREFIX|..]).value;
      assert Carries(decode, o, c) && AllFields(c);
    }
  }

  /** An observation cannot be read exactly when it should carry a correlation and carries none, or one
      with a bad field, or one for this job without a good call of its own. */
  lemma UnreadableIff(decode: Decoder, o: Observation, id: string)
    ensures ExecutionOf(decode, o, id).Err? <==>
            && o.kind == CallConstructed && o.detail.Some? && StartsWith(o.detail.value, "mct-peer-call-correlation-v1:")
            && var c := decode(o.detail.value[|"mct-peer-call-correlation-v1:"|..]);
               c.None? || !AllFields(c.value) || (c.value.callerCall == id && !(o.callId.Some? && IsField(o.callId.value)))
  {
  }

  function Absorb(ids: seq<string>, execution: Option<string>): seq<string> {
    if execution.Some? then Insert(ids, execution.value) else ids
  }

  /** The first pass. */
  function Executions(decode: Decoder, ledger: seq<Observation>, id: string): Result<seq<string>, CorrelationError> {
    if ledger == [] then Ok([])
    else
      match Executions(decode, ledger[..|ledger| - 1], id)
      case Err(e) => Err(e)
      case Ok(ids) =>
        match ExecutionOf(decode, ledger[|ledger| - 1], id)
        case Err(e) => Err(e)
        case Ok(execution) => Ok(Absorb(ids, execution))
  }

  /** An observation anywhere in the ledger ties the execution to the job. */
  ghost predicate TiedAnywhere(decode: Decoder, ledger: seq<Observation>, id: string, execution: string) {
    exists o :: o in ledger && Ties(decode, o, id, execution)
  }

  /** The pass succeeds when every observation can be read, and finds what is tied anywhere, sorted. */
  lemma {:induction false} ExecutionsMean(decode: Decoder, ledger: seq<Observation>, id: string)
    ensures Executions(decode, ledger, id).Ok? <==> forall o <- ledger :: ExecutionOf(decode, o, id).Ok?
    ensures var r := Executions(decode, ledger, id);
            r.Ok? ==> Ordered(r.value) && forall x :: x in r.value <==> TiedAnywhere(decode, ledger, id, x)
  {
    if ledger != [] {
      var init, last := ledger[..|ledger| - 1], ledger[|ledger| - 1];
      assert ledger == init + [last];
      ExecutionsMean(decode, init, id);
      if Executions(decode, init, id).Ok? && ExecutionOf(decode, last, id).Ok? {
        AbsorbMeans(decode, init, last, id, Executions(decode, init, id).value);
      }
      assert last in ledger;
      assert forall o :: o in init ==> o in ledger;
    }
  }

  lemma AbsorbMeans(decode: Decoder, init: seq<Observation>, last: Observation, id: string, ids: seq<string>)
    requires Ordered(ids) && forall x :: x in ids <==> TiedAnywhere(decode, init, id, x)
    requires ExecutionOf(decode, last, id).Ok?
    ensures var all := Absorb(ids, ExecutionOf(decode, last, id).value);
            Ordered(all) && forall x :: x in all <==> TiedAnywhere(decode, init + [last], id, x)
  {
    var ledger := init + [last];
    var execution := ExecutionOf(decode, last, id).value;
    if execution.Some? {
      InsertKeepsOrder(ids, execution.value);
      InsertMembers(ids, execution.value);
    }
    assert last in ledger;
    forall x ensures TiedAnywhere(decode, ledger, id, x) <==> TiedAnywhere(decode, init, id, x) || Ties(decode, last, id, x) {
      if TiedAnywhere(decode, init, id, x) {
        var o :| o in init && Ties(decode, o, id, x);
        assert o in ledger;
      }
    }
  }

  // ---- counting ------------------------------------------------------------

  datatype Tally = Tally(started: nat, completed: nat, failed: nat, allowed: nat, denied: nat)

  function Bump(t: Tally, kind: Kind): Tally {
    match kind
    case RuntimeStarted => t.(started := t.started + 1)
    case RuntimeCompleted => t.(completed := t.completed + 1)
    case RuntimeFailed => t.(failed := t.failed + 1)
    case RuntimeTrapped => t.(failed := t.failed + 1)
    case RuntimeTimedOut => t.(failed := t.failed + 1)
    case ToyAllowed => t.(allowed := t.allowed + 1)
    case ToyDenied => t.(denied := t.denied + 1)
    case CallConstructed => t
    case OtherKind => t
  }

  predicate IsRuntime(kind: Kind) {
    kind.RuntimeStarted? || kind.RuntimeCompleted? || kind.RuntimeFailed? || kind.RuntimeTrapped? || kind.RuntimeTimedOut?
  }

  /** The observation is about the job itself or about one of the executions. */
  predicate Concerns(o: Observation, id: string, ids: seq<string>) {
    o.callId.Some? && (o.callId.value == id || o.callId.value in ids)
  }

  predicate RunsHere(o: Observation, id: string) { o.callId == Some(id) && IsRuntime(o.kind) }

  /** The second pass. */
  function Counted(ledger: seq<Observation>, id: string, ids: seq<string>): Tally {
    if ledger == [] then Tally(0, 0, 0, 0, 0)
    else
      var before, last := Counted(ledger[..|ledger| - 1], id, ids), ledger[|ledger| - 1];
      if Concerns(last, id, ids) then Bump(before, last.kind) else before
  }

  /** The five kinds of a runtime execution, with the job's own call. */
  lemma RunsHereIff(o: Observation, id: string)
    ensures RunsHere(o, id) <==>
            o.callId == Some(id) && o.kind in {RuntimeStarted, RuntimeCompleted, RuntimeFailed, RuntimeTrapped, RuntimeTimedOut}
  {
  }

  predicate RanHere(ledger: seq<Observation>, id: string) { exists o :: o in ledger && RunsHere(o, id) }

  datatype Summary = Summary(tally: Tally, executions: seq<string>)

  function Summarise(decode: Decoder, ledger: seq<Observation>, id: string): Result<Summary, CorrelationError> {
    match Executions(decode, ledger, id)
    case Err(e) => Err(e)
    case Ok(ids) => Ok(Summary(Counted(ledger, id, ids), if RanHere(ledger, id) then Insert(ids, id) else ids))
  }

  // ---- what is counted -----------------------------------------------------

  function CountIf(ledger: seq<Observation>, p: Observation -> bool): nat {
    if ledger == [] then 0
    else CountIf(ledger[..|ledger| - 1], p) + if p(ledger[|ledger| - 1]) then 1 else 0
  }

  /** The facts of some kinds about the job or an execution. */
  function About(id: string, ids: seq<string>, kinds: set<Kind>): Observation -> bool {
    o => Concerns(o, id, ids) && o.kind in kinds
  }

  const FAILURES: set<Kind> := {RuntimeFailed, RuntimeTrapped, RuntimeTimedOut}

  lemma {:induction false} CountedIs(ledger: seq<Observation>, id: string, ids: seq<string>)
    ensures Counted(ledger, id, ids) == Tally(
              CountIf(ledger, About(id, ids, {RuntimeStarted})), CountIf(ledger, About(id, ids, {RuntimeCompleted})),
              CountIf(ledger, About(id, ids, FAILURES)),
              CountIf(ledger, About(id, ids, {ToyAllowed})), CountIf(ledger, About(id, ids, {ToyDenied})))
  {
    if ledger != [] {
      CountedIs(ledger[..|ledger| - 1], id, ids);
    }
  }

  lemma {:induction false} CountConcat(a: seq<Observation>, b: seq<Observation>, p: Observation -> bool)
    ensures CountIf(a + b, p) == CountIf(a, p) + CountIf(b, p)
  {
    if b == [] {
      assert a + b == a;
    } else {
      CountConcat(a, b[..|b| - 1], p);
      assert (a + b)[..|a + b| - 1] == a + b[..|b| - 1];
    }
  }

  lemma RemoveOne(init: seq<Observation>, left: seq<Observation>, o: Observation, right: seq<Observation>)
    requires multiset(init + [o]) == multiset(left + [o] + right)
    ensures multiset(init) == multiset(left + right)
  {
    assert multiset(init + [o]) == multiset(init) + multiset{o};
    assert multiset(left + [o] + right) == multiset(left + right) + multiset{o};
    assert multiset(init) == multiset(init + [o]) - multiset{o};
    assert multiset(left + right) == multiset(left + [o] + right) - multiset{o};
  }

  lemma {:induction false} CountPermuted(a: seq<Observation>, b: seq<Observation>, p: Observation -> bool)
    requires multiset(a) == multiset(b)
    ensures CountIf(a, p) == CountIf(b, p)
  {
    assert |multiset(a)| == |a| && |multiset(b)| == |b|;
    if a != [] {
      var init, last := a[..|a| - 1], a[|a| - 1];
      assert a == init + [last];
      assert last in multiset(b);
      var k :| 0 <= k < |b| && b[k] == last;
      var left, right := b[..k], b[k + 1..];
      assert b == left + [last] + right;
      RemoveOne(init, left, last, right);
      CountPermuted(init, left + right, p);
      CountConcat(left, right, p);
      CountConcat(left + [last], right, p);
      CountConcat(left, [last], p);
    }
  }

  lemma SameElements(a: seq<Observation>, b: seq<Observation>)
    requires multiset(a) == multiset(b)
    ensures forall o :: o in a <==> o in b
  {
    forall o ensures o in a <==> o in b {
      assert o in multiset(a) <==> o in multiset(b);
    }
  }

  // ---- the summary ---------------------------------------------------------

  /** A fact of the kinds whose call is the job or an execution tied to it anywhere in the ledger. */
  ghost function FactsAbout(decode: Decoder, ledger: seq<Observation>, id: string, kinds: set<Kind>): Observation -> bool {
    (o: Observation) => o.callId.Some? && o.kind in kinds && (o.callId.value == id || TiedAnywhere(decode, ledger, id, o.callId.value))
  }

  lemma {:induction false} CountSame(ledger: seq<Observation>, p: Observation -> bool, q: Observation -> bool)
    requires forall o <- ledger :: p(o) == q(o)
    ensures CountIf(ledger, p) == CountIf(ledger, q)
  {
    if ledger != [] {
      assert ledger[|ledger| - 1] in ledger;
      CountSame(ledger[..|ledger| - 1], p, q);
    }
  }

  lemma AboutIsFacts(decode: Decoder, ledger: seq<Observation>, id: string, kinds: set<Kind>)
    requires Executions(decode, ledger, id).Ok?
    ensures CountIf(ledger, About(id, Executions(decode, ledger, id).value, kinds)) ==
            CountIf(ledger, FactsAbout(decode, ledger, id, kinds))
  {
    ExecutionsMean(decode, ledger, id);
    CountSame(ledger, About(id, Executions(decode, ledger, id).value, kinds), FactsAbout(decode, ledger, id, kinds));
  }

  /**
   * Each count is the number of facts of its kinds about the job or an execution tied to it
   * anywhere; the executions are sorted, distinct, and include the job exactly when it ran here.
   */
  lemma SummaryMeans(decode: Decoder, ledger: seq<Observation>, id: string)
    ensures Summarise(decode, ledger, id).Ok? <==> forall o <- ledger :: ExecutionOf(decode, o, id).Ok?
    ensures Summarise(decode, ledger, id).Ok? ==>
              && var s := Summarise(decode, ledger, id).value;
              && s.tally == Tally(
                   CountIf(ledger, FactsAbout(decode, ledger, id, {RuntimeStarted})),
                   CountIf(ledger, FactsAbout(decode, ledger, id, {RuntimeCompleted})),
                   CountIf(ledger, FactsAbout(decode, ledger, id, FAILURES)),
                   CountIf(ledger, FactsAbout(decode, ledger, id, {ToyAllowed})),
                   CountIf(ledger, FactsAbout(decode, ledger, id, {ToyDenied})))
              && Ordered(s.executions)
              && forall x :: x in s.executions <==> TiedAnywhere(decode, ledger, id, x) || (x == id && RanHere(ledger, id))
  {
    ExecutionsMean(decode, ledger, id);
    if Executions(decode, ledger, id).Ok? {
      var ids := Executions(decode, ledger, id).value;
      CountedIs(ledger, id, ids);
      AboutIsFacts(decode, ledger, id, {RuntimeStarted});
      AboutIsFacts(decode, ledger, id, {RuntimeCompleted});
      AboutIsFacts(decode, ledger, id, FAILURES);
      AboutIsFacts(decode, ledger, id, {ToyAllowed});
      AboutIsFacts(decode, ledger, id, {ToyDenied});
      InsertKeepsOrder(ids, id);
      InsertMembers(ids, id);
    }
  }

  lemma ExecutionsPermuted(decode: Decoder, a: seq<Observation>, b: seq<Observation>, id: string)
    requires multiset(a) == multiset(b)
    ensures Executions(decode, a, id).Ok? == Executions(decode, b, id).Ok?
    ensures Executions(decode, a, id).Ok? ==> Executions(decode, a, id) == Executions(decode, b, id)
  {
    SameElements(a, b);
    ExecutionsMean(decode, a, id);
    ExecutionsMean(decode, b, id);
    if Executions(decode, a, id).Ok? {
      forall x ensures TiedAnywhere(decode, a, id, x) <==> TiedAnywhere(decode, b, id, x) {}
      SameMembers(Executions(decode, a, id).value, Executions(decode, b, id).value);
    }
  }

  /** Reordering the ledger changes neither whether there is a summary nor the summary. */
  lemma OrderDoesNotMatter(decode: Decoder, a: seq<Observation>, b: seq<Observation>, id: string)
    requires multiset(a) == multiset(b)
    ensures Summarise(decode, a, id).Ok? == Summarise(decode, b, id).Ok?
    ensures Summarise(decode, a, id).Ok? ==> Summarise(decode, a, id) == Summarise(decode, b, id)
  {
    SameElements(a, b);
    ExecutionsPermuted(decode, a, b, id);
    if Executions(decode, a, id).Ok? {
      var ids := Executions(decode, a, id).value;
      CountedPermuted(a, b, id, ids);
      assert RanHere(a, id) == RanHere(b, id);
    }
  }

  lemma CountedPermuted(a: seq<Observation>, b: seq<Observation>, id: string, ids: seq<string>)
    requires multiset(a) == multiset(b)
    ensures Counted(a, id, ids) == Counted(b, id, ids)
  {
    CountedIs(a, id, ids);
    CountedIs(b, id, ids);
    CountPermuted(a, b, About(id, ids, {RuntimeStarted}));
    CountPermuted(a, b, About(id, ids, {RuntimeCompleted}));
    CountPermuted(a, b, About(id, ids, FAILURES));
    CountPermuted(a, b, About(id, ids, {ToyAllowed}));
    CountPermuted(a, b, About(id, ids, {ToyDenied}));
  }

  // ---- the two passes ------------------------------------------------------

  class Counts {
    var started: nat
    var completed: nat
    var failed: nat
    var allowed: nat
    var denied: nat

    function Value(): Tally
      reads this
    {
      Tally(started, completed, failed, allowed, denied)
    }

    constructor ()
      ensures Value() == Tally(0, 0, 0, 0, 0)
    {
      started, completed, failed, allowed, denied := 0, 0, 0, 0, 0;
    }

    method Add(o: Observation, id: string)
      modifies this
      ensures Value() == if o.callId == Some(id) then Bump(old(Value()), o.kind) else old(Value())
    {
      if o.callId != Some(id) {
        return;
      }
      match o.kind
      case RuntimeStarted => started := started + 1;
      case RuntimeCompleted => completed := completed + 1;
      case RuntimeFailed => failed := failed + 1;
      case RuntimeTrapped => failed := failed + 1;
      case RuntimeTimedOut => failed := failed + 1;
      case ToyAllowed => allowed := allowed + 1;
      case ToyDenied => denied := denied + 1;
      case CallConstructed =>
      case OtherKind =>
    }
  }

  class CorrelatedCounts {
    const counts: Counts
    var correlatedIds: seq<string>
    var directRuntime: bool

    constructor ()
      ensures fresh(counts) && counts.Value() == Tally(0, 0, 0, 0, 0) && correlatedIds == [] && !directRuntime
    {
      counts := new Counts();
      correlatedIds, directRuntime := [], false;
    }

    method Correlate(decode: Decoder, o: Observation, id: string) returns (error: Option<CorrelationError>)
      modifies this`correlatedIds
      ensures var r := ExecutionOf(decode, o, id);
              if r.Ok? then error == None && correlatedIds == Absorb(old(correlatedIds), r.value)
              else error == Some(r.error) && correlatedIds == old(correlatedIds)
    {
      if o.kind != CallConstructed || o.detail.None? || !StartsWith(o.detail.value, PREFIX) {
        return None;
      }
      var payload := decode(o.detail.value[|PREFIX|..]);
      if payload.None? {
        return Some(BadPayload);
      }
      var correlation := payload.value;
      var fields := [correlation.callerCall, correlation.callerNode, correlation.callerVision, correlation.peerBinding];
      for k := 0 to |fields|
        invariant forall j :: 0 <= j < k ==> GoodField(fields[j])
      {
        if !GoodField(fields[k]) {
          return Some(BadField);
        }
      }
      assert GoodField(fields[0]) && GoodField(fields[1]) && GoodField(fields[2]) && GoodField(fields[3]);
      if correlation.callerCall != id {
        return None;
      }
      if o.callId.None? || !GoodField(o.callId.value) {
        return Some(BadExecution);
      }
      correlatedIds := Insert(correlatedIds, o.callId.value);
      return None;
    }

    method Count(o: Observation, id: string)
      modifies this`directRuntime, counts
      ensures directRuntime == (old(directRuntime) || RunsHere(o, id))
      ensures counts.Value() ==
              if Concerns(o, id, correlatedIds) then Bump(old(counts.Value()), o.kind) else old(counts.Value())
    {
      if o.callId == Some(id) {
        if IsRuntime(o.kind) {
          directRuntime := true;
        }
        counts.Add(o, id);
      } else {
        for k := 0 to |correlatedIds|
          invariant unchanged(this) && unchanged(counts)
          invariant forall j :: 0 <= j < k ==> o.callId != Some(correlatedIds[j])
        {
          if o.callId == Some(correlatedIds[k]) {
            counts.Add(o, correlatedIds[k]);
            return;
          }
        }
      }
    }

    /** The correlated executions and, if it ran here, the job itself, in order. */
    method ExecutionCallIds(id: string) returns (ids: seq<string>)
      requires Ordered(correlatedIds)
      ensures ids == if directRuntime then Insert(correlatedIds, id) else correlatedIds
    {
      ids := correlatedIds;
      if directRuntime && id !in ids {
        ids := Insert(ids, id);
      }
      if id in correlatedIds {
        InsertPresent(correlatedIds, id);
      }
    }
  }

  lemma {:induction false} InsertPresent(s: seq<string>, x: string)
    requires Ordered(s) && x in s
    ensures Insert(s, x) == s
  {
    InsertKeepsOrder(s, x);
    InsertMembers(s, x);
    SameMembers(Insert(s, x), s);
  }

  lemma {:induction false} FirstErrorStays(decode: Decoder, ledger: seq<Observation>, id: string, n: nat)
    requires n <= |ledger| && Executions(decode, ledger[..n], id).Err?
    ensures Executions(decode, ledger, id) == Executions(decode, ledger[..n], id)
    decreases |ledger| - n
  {
    if n == |ledger| {
      assert ledger[..n] == ledger;
    } else {
      assert ledger[..n + 1][..n] == ledger[..n];
      FirstErrorStays(decode, ledger, id, n + 1);
    }
  }

  /** First every correlation, then every fact. */
  method SummariseLedger(decode: Decoder, ledger: seq<Observation>, id: string)
    returns (r: Result<Summary, CorrelationError>)
    ensures r == Summarise(decode, ledger, id)
  {
    var c := new CorrelatedCounts();
    for i := 0 to |ledger|
      invariant Executions(decode, ledger[..i], id) == Ok(c.correlatedIds)
      invariant fresh(c) && fresh(c.counts) && c.counts.Value() == Tally(0, 0, 0, 0, 0) && !c.directRuntime
    {
      assert ledger[..i + 1][..i] == ledger[..i];
      var error := c.Correlate(decode, ledger[i], id);
      if error.Some? {
        FirstErrorStays(decode, ledger, id, i + 1);
        return Err(error.value);
      }
    }
    assert ledger[..|ledger|] == ledger;
    var ids := c.correlatedIds;
    for i := 0 to |ledger|
      invariant c.correlatedIds == ids && fresh(c) && fresh(c.counts)
      invariant c.counts.Value() == Counted(ledger[..i], id, ids)
      invariant c.directRuntime == RanHere(ledger[..i], id)
    {
      assert ledger[..i + 1][..i] == ledger[..i];
      RanStep(ledger, id, i);
      c.Count(ledger[i], id);
    }
    ExecutionsMean(decode, ledger, id);
    var executions := c.ExecutionCallIds(id);
    return Ok(Summary(c.counts.Value(), executions));
  }

  lemma RanStep(ledger: seq<Observation>, id: string, i: nat)
    requires i < |ledger|
    ensures RanHere(ledger[..i + 1], id) <==> RanHere(ledger[..i], id) || RunsHere(ledger[i], id)
  {
    assert ledger[..i + 1] == ledger[..i] + [ledger[i]];
    if RanHere(ledger[..i], id) {
      var o :| o in ledger[..i] && RunsHere(o, id);
      assert o in ledger[..i + 1];
    }
    assert ledger[i] in ledger[..i + 1];
  }
}
