/**
 The authority order of crates/mct-daemon/src/authority_order.rs: the state behind the
 mutex, what each locked section does to it, and the object that holds it.

 The ledger, its replay and the projection store are inputs; what the callbacks return
 is an input too.
 */
module AuthorityOrder {
  import opened Wrappers
  import opened Text

  datatype GrantsAuthority = GrantsAuthority(
    motherNodeId: string, authorityEpoch: string, generation: nat, sourceObservationId: string)

  datatype Expectation = Expectation(
    sourceMotherNodeId: string,
    sourceLedgerId: string,
    throughSequence: nat,
    throughEntryHash: string,
    grants: GrantsAuthority,
    stateHash: string)

  datatype ProjectionStatus = Rebuilding | Current | Stale | StatusQuarantined

  datatype Cursor = Cursor(
    sourceMotherNodeId: string,
    sourceLedgerId: string,
    throughSequence: nat,
    throughEntryHash: string,
    grants: GrantsAuthority,
    stateHash: string,
    status: ProjectionStatus)

  datatype ProjectionDeny =
    | ProjectionMissing | ProjectionNotCurrent | WrongSourceMother | WrongSourceLedger
    | HeadSequenceMismatch | HeadHashMismatch | AuthorityMotherMismatch | EpochMismatch
    | GenerationMismatch | SourceAuthorityObservationMismatch | AuthorityStateHashMismatch
    | ProjectionHashMismatch | LedgerQuarantined

  datatype Proof = Usable(cursor: Cursor) | Denied(reason: ProjectionDeny)

  datatype FenceReason = CommitUnknownFence | WriterPoisonedFence | ProjectionLag | RescanUnresolved

  datatype Requirement = MustBeCommitted | PresentOrAbsent

  datatype CommitOutcome =
    | Committed(id: string, expectation: Expectation)
    | ProjectionPending(id: string)
    | CommitUnknown(id: string)
    | WriterPoisoned(id: string)
    | RejectedBeforeCommit(id: string)

  datatype AdmissionDeny =
    | Fenced(reason: FenceReason)
    | ExactAuthorityStateMismatch
    | AuthorityStateUnavailable
    | AdmissionProjection(deny: ProjectionDeny)
    | AdmissionExpectationMismatch

  datatype RecoveryDeny =
    | NotFenced
    | ExclusiveWriterUnavailable
    | FreshWriterTenureRequired
    | LedgerReplayBlocked
    | MutationResolutionUnproven
    | RecoveryProjection(deny: ProjectionDeny)
    | RecoveryExpectationMismatch

  datatype OrderState = OrderState(
    expectation: Option<Expectation>,
    fenced: Option<FenceReason>,
    pending: map<string, Requirement>)

  // ---- comparisons ---------------------------------------------------------

  /** The same authority identity and state, whatever ledger head each was taken at. */
  predicate SameAuthorityState(left: Expectation, right: Expectation) {
    && left.sourceMotherNodeId == right.sourceMotherNodeId
    && left.sourceLedgerId == right.sourceLedgerId
    && left.grants == right.grants
    && left.stateHash == right.stateHash
  }

  predicate CursorMatches(c: Cursor, e: Expectation) {
    && c.sourceMotherNodeId == e.sourceMotherNodeId
    && c.sourceLedgerId == e.sourceLedgerId
    && c.throughSequence == e.throughSequence
    && c.throughEntryHash == e.throughEntryHash
    && c.grants == e.grants
    && c.stateHash == e.stateHash
    && c.status == Current
  }

  /** Two expectations are of the same authority exactly when they differ in the ledger head alone. */
  lemma SameAuthorityIff(a: Expectation, b: Expectation)
    ensures SameAuthorityState(a, b) <==>
            b == a.(throughSequence := b.throughSequence, throughEntryHash := b.throughEntryHash)
  {
  }

  /** The cursor that is current at exactly this expectation. */
  function CursorAt(e: Expectation): Cursor {
    Cursor(e.sourceMotherNodeId, e.sourceLedgerId, e.throughSequence, e.throughEntryHash, e.grants, e.stateHash, Current)
  }

  lemma CursorMatchesIff(c: Cursor, e: Expectation)
    ensures CursorMatches(c, e) <==> c == CursorAt(e)
  {
  }

  // ---- commit_mutation -----------------------------------------------------

  /** The callback runs: no fence, and an id that is not blank. */
  predicate MayCommit(s: OrderState, id: string) { s.fenced.None? && !Blank(id) }

  function Fence(s: OrderState, id: string, reason: FenceReason, req: Requirement): OrderState {
    s.(fenced := Some(reason), pending := s.pending[id := req])
  }

  /** The state after the callback for `id` reported `outcome`. A report about another
      id proves nothing about the offered one. */
  function AfterCommit(s: OrderState, id: string, outcome: CommitOutcome): OrderState {
    if outcome.id != id then Fence(s, id, CommitUnknownFence, PresentOrAbsent)
    else
      match outcome
      case Committed(_, e) => s.(expectation := Some(e))
      case ProjectionPending(_) => Fence(s, id, ProjectionLag, MustBeCommitted)
      case CommitUnknown(_) => Fence(s, id, CommitUnknownFence, PresentOrAbsent)
      case WriterPoisoned(_) => Fence(s, id, WriterPoisonedFence, PresentOrAbsent)
      case RejectedBeforeCommit(_) => s
  }

  // ---- clear_fence_after_exclusive_rescan ----------------------------------

  datatype Entry = Entry(motherNodeId: string, ledgerId: string, localSequence: nat, entryHash: string)

  datatype Tenure = Tenure(authorityEpoch: string, resultingAuthority: GrantsAuthority)

  datatype Replay = Replay(mutations: set<string>, currentAuthority: Option<GrantsAuthority>, stateHash: Option<string>)

  /** What a rescan reads: `entries` is None where reading fails, `replay` where replaying
      those entries fails. */
  datatype Ledger = Ledger(
    tenure: Option<Tenure>, poisoned: bool, entries: Option<seq<Entry>>, replay: Option<Replay>)

  function HeadExpectation(head: Entry, grants: GrantsAuthority, stateHash: string): Expectation {
    Expectation(head.motherNodeId, head.ledgerId, head.localSequence, head.entryHash, grants, stateHash)
  }

  function ExpectationFromLedger(ledger: Ledger): Result<Expectation, RecoveryDeny> {
    if ledger.entries.None? || ledger.entries.value == [] || ledger.replay.None?
       || ledger.replay.value.currentAuthority.None? || ledger.replay.value.stateHash.None?
    then Err(LedgerReplayBlocked)
    else
      var entries := ledger.entries.value;
      Ok(HeadExpectation(entries[|entries| - 1], ledger.replay.value.currentAuthority.value,
                         ledger.replay.value.stateHash.value))
  }

  predicate Unproven(pending: map<string, Requirement>, mutations: set<string>) {
    exists id :: id in pending && pending[id] == MustBeCommitted && id !in mutations
  }

  /** The replay's part of a rescan: the expectation at the ledger head, if the ledger
      accounts for everything that was acknowledged. */
  function Rescan(s: OrderState, ledger: Ledger, store: Expectation -> Option<Proof>): Result<Expectation, RecoveryDeny> {
    if s.fenced.None? then Err(NotFenced)
    else if ledger.tenure.None? || ledger.poisoned then Err(ExclusiveWriterUnavailable)
    else if s.expectation.Some? && s.expectation.value.grants.authorityEpoch == ledger.tenure.value.authorityEpoch
    then Err(FreshWriterTenureRequired)
    else if ledger.entries.None? || ledger.replay.None? then Err(LedgerReplayBlocked)
    else if Unproven(s.pending, ledger.replay.value.mutations) then Err(MutationResolutionUnproven)
    else
      match ExpectationFromLedger(ledger)
      case Err(e) => Err(e)
      case Ok(e) =>
        if e.grants != ledger.tenure.value.resultingAuthority then Err(LedgerReplayBlocked)
        else
          match store(e)
          case None => Err(RecoveryProjection(ProjectionNotCurrent))
          case Some(Denied(reason)) => Err(RecoveryProjection(reason))
          case Some(Usable(cursor)) =>
            if CursorMatches(cursor, e) then Ok(e) else Err(RecoveryExpectationMismatch)
  }

  function Recovered(e: Expectation): OrderState { OrderState(Some(e), None, map[]) }

  function AfterRescan(s: OrderState, r: Result<Expectation, RecoveryDeny>): OrderState {
    if r.Ok? then Recovered(r.value) else s
  }

  /** An exclusive, unpoisoned writer in a tenure other than the retained one, whose replay ends in
      the tenure's authority; `e` is what it expects at its head. */
  predicate FreshLedger(retained: Option<Expectation>, ledger: Ledger, e: Expectation) {
    && ledger.tenure.Some? && !ledger.poisoned
    && (retained.Some? ==> retained.value.grants.authorityEpoch != ledger.tenure.value.authorityEpoch)
    && ledger.entries.Some? && ledger.entries.value != []
    && ledger.replay.Some? && ledger.replay.value.stateHash.Some?
    && ledger.replay.value.currentAuthority == Some(ledger.tenure.value.resultingAuthority)
    && var head := ledger.entries.value[|ledger.entries.value| - 1];
    && e.sourceMotherNodeId == head.motherNodeId && e.sourceLedgerId == head.ledgerId
    && e.throughSequence == head.localSequence && e.throughEntryHash == head.entryHash
    && e.grants == ledger.tenure.value.resultingAuthority && e.stateHash == ledger.replay.value.stateHash.value
  }

  /** What lifting a fence takes, but for the cursor: a fresh ledger with every acknowledged mutation in it. */
  predicate AccountsFor(s: OrderState, ledger: Ledger, e: Expectation) {
    && s.fenced.Some?
    && FreshLedger(s.expectation, ledger, e)
    && !Unproven(s.pending, ledger.replay.value.mutations)
  }

  /** And a usable cursor matches that head. */
  ghost predicate Liftable(s: OrderState, ledger: Ledger, store: Expectation -> Option<Proof>, e: Expectation) {
    AccountsFor(s, ledger, e) && exists c :: store(e) == Some(Usable(c)) && CursorMatches(c, e)
  }

  /** A rescan lifts the fence exactly under those conditions, at that expectation. */
  lemma RescanLiftsIff(s: OrderState, ledger: Ledger, store: Expectation -> Option<Proof>, e: Expectation)
    ensures Rescan(s, ledger, store) == Ok(e) <==> Liftable(s, ledger, store, e)
    ensures s.fenced.Some? ==>
              (AfterRescan(s, Rescan(s, ledger, store)).fenced.None? <==> exists x :: Liftable(s, ledger, store, x))
  {
    var r := Rescan(s, ledger, store);
    if r == Ok(e) {
      var c := store(e).value.cursor;
      assert store(e) == Some(Usable(c)) && CursorMatches(c, e);
    }
    if r.Ok? {
      var c := store(r.value).value.cursor;
      assert store(r.value) == Some(Usable(c)) && CursorMatches(c, r.value);
      assert Liftable(s, ledger, store, r.value);
    }
    forall x | Liftable(s, ledger, store, x)
      ensures r == Ok(x)
    {
    }
  }

  // ---- admit_effect --------------------------------------------------------

  /** The checks made before the proof is asked for. */
  function Precheck(s: OrderState, e: Expectation): Option<AdmissionDeny> {
    if s.fenced.Some? then Some(Fenced(s.fenced.value))
    else if s.expectation.None? then Some(AuthorityStateUnavailable)
    else if !SameAuthorityState(s.expectation.value, e) then Some(ExactAuthorityStateMismatch)
    else None
  }

  function ProofCheck(proof: Proof, e: Expectation): Option<AdmissionDeny> {
    match proof
    case Denied(reason) => Some(AdmissionProjection(reason))
    case Usable(cursor) => if CursorMatches(cursor, e) then None else Some(AdmissionExpectationMismatch)
  }

  function Admission(s: OrderState, e: Expectation, proof: Proof): Option<AdmissionDeny> {
    match Precheck(s, e)
    case Some(d) => Some(d)
    case None => ProofCheck(proof, e)
  }

  // ---- reachable states ----------------------------------------------------

  function New(e: Expectation): OrderState { OrderState(Some(e), None, map[]) }

  const UnavailableOrder := OrderState(None, Some(RescanUnresolved), map[])

  function FromLedger(ledger: Ledger): OrderState {
    match ExpectationFromLedger(ledger)
    case Ok(e) => New(e)
    case Err(_) => UnavailableOrder
  }

  /** How expectation, fence and pending mutations go together. */
  predicate Coherent(s: OrderState) {
    && (s.expectation.None? <==> s.fenced == Some(RescanUnresolved))
    && (match s.fenced
        case None => s.pending == map[]
        case Some(RescanUnresolved) => s.pending == map[]
        case Some(ProjectionLag) => |s.pending| == 1 && s.pending.Values == {MustBeCommitted}
        case Some(_) => |s.pending| == 1 && s.pending.Values == {PresentOrAbsent})
  }

  lemma OnePending(id: string, req: Requirement)
    ensures |map[id := req]| == 1 && map[id := req].Values == {req}
  {
    var m := map[id := req];
    assert m.Keys == {id};
    assert m[id] in m.Values;
    assert forall v :: v in m.Values ==> v == req;
  }

  lemma CommitKeepsCoherent(s: OrderState, id: string, outcome: CommitOutcome)
    requires Coherent(s) && MayCommit(s, id)
    ensures Coherent(AfterCommit(s, id, outcome))
  {
    OnePending(id, MustBeCommitted);
    OnePending(id, PresentOrAbsent);
    assert forall req :: s.pending[id := req] == map[id := req];
  }

  /** In a coherent state the "authority state unavailable" denial cannot be given. */
  lemma NeverUnavailable(s: OrderState, e: Expectation, proof: Proof)
    requires Coherent(s)
    ensures Admission(s, e, proof) != Some(AuthorityStateUnavailable)
    ensures Admission(s, e, proof).None? ==>
              && s.fenced.None? && s.expectation.Some? && proof == Usable(CursorAt(e))
              && e == s.expectation.value.(throughSequence := e.throughSequence, throughEntryHash := e.throughEntryHash)
  {
    if Admission(s, e, proof).None? {
      SameAuthorityIff(s.expectation.value, e);
      CursorMatchesIff(proof.cursor, e);
    }
  }

  /** An effect is admitted exactly when nothing is fenced, the expectation differs from the one in force
      in the ledger head alone, and the proof is the cursor current at it; each denial has its one cause. */
  lemma AdmittedIff(s: OrderState, e: Expectation, proof: Proof)
    requires Coherent(s)
    ensures var same := s.expectation.Some? &&
                        e == s.expectation.value.(throughSequence := e.throughSequence, throughEntryHash := e.throughEntryHash);
            var deny := Admission(s, e, proof);
            && (deny.None? <==> s.fenced.None? && same && proof == Usable(CursorAt(e)))
            && (forall r :: deny == Some(Fenced(r)) <==> s.fenced == Some(r))
            && (deny == Some(ExactAuthorityStateMismatch) <==> s.fenced.None? && !same)
            && (forall r :: deny == Some(AdmissionProjection(r)) <==> s.fenced.None? && same && proof == Denied(r))
  {
    if s.expectation.Some? { SameAuthorityIff(s.expectation.value, e); }
    if proof.Usable? { CursorMatchesIff(proof.cursor, e); }
  }

  /** Why a rescan is refused, as far as it gets to look. */
  lemma RescanRefusals(s: OrderState, ledger: Ledger, store: Expectation -> Option<Proof>)
    ensures var r := Rescan(s, ledger, store);
            var exclusive := s.fenced.Some? && ledger.tenure.Some? && !ledger.poisoned;
            var renewed := ledger.tenure.Some? && (s.expectation.Some? ==>
                             s.expectation.value.grants.authorityEpoch != ledger.tenure.value.authorityEpoch);
            && (r == Err(NotFenced) <==> s.fenced.None?)
            && (r == Err(ExclusiveWriterUnavailable) <==> s.fenced.Some? && !exclusive)
            && (r == Err(FreshWriterTenureRequired) <==> exclusive && !renewed)
            && (r == Err(MutationResolutionUnproven) <==>
                  && exclusive && renewed && ledger.entries.Some? && ledger.replay.Some?
                  && exists id :: id in s.pending && s.pending[id] == MustBeCommitted && id !in ledger.replay.value.mutations)
  {
  }

  /** Once the ledger accounts for everything, the projection at its head decides. */
  lemma RescanAtHead(s: OrderState, ledger: Ledger, store: Expectation -> Option<Proof>, e: Expectation)
    requires AccountsFor(s, ledger, e)
    ensures Rescan(s, ledger, store) ==
            if store(e) == Some(Usable(CursorAt(e))) then Ok(e)
            else if store(e).None? then Err(RecoveryProjection(ProjectionNotCurrent))
            else if store(e).value.Denied? then Err(RecoveryProjection(store(e).value.reason))
            else Err(RecoveryExpectationMismatch)
  {
    if store(e).Some? && store(e).value.Usable? { CursorMatchesIff(store(e).value.cursor, e); }
  }

  /** And whatever else is missing from the ledger blocks the replay. */
  lemma RescanBlocked(s: OrderState, ledger: Ledger, store: Expectation -> Option<Proof>)
    requires forall e :: !AccountsFor(s, ledger, e)
    ensures Rescan(s, ledger, store) in
            {Err(NotFenced), Err(ExclusiveWriterUnavailable), Err(FreshWriterTenureRequired),
             Err(MutationResolutionUnproven), Err(LedgerReplayBlocked)}
  {
    var r := ExpectationFromLedger(ledger);
    assert r.Ok? ==> !AccountsFor(s, ledger, r.value);
  }

  /** An order starts unfenced exactly on a ledger that can be read, replayed and has a head, at that head;
      otherwise it starts fenced for a rescan. */
  lemma StartsIff(ledger: Ledger)
    ensures var s := FromLedger(ledger);
            var good := && ledger.entries.Some? && ledger.entries.value != [] && ledger.replay.Some?
                        && ledger.replay.value.currentAuthority.Some? && ledger.replay.value.stateHash.Some?;
            && s.pending == map[]
            && (if good then
                  && s.fenced.None? && s.expectation.Some?
                  && var head, e := ledger.entries.value[|ledger.entries.value| - 1], s.expectation.value;
                  && e.sourceMotherNodeId == head.motherNodeId && e.sourceLedgerId == head.ledgerId
                  && e.throughSequence == head.localSequence && e.throughEntryHash == head.entryHash
                  && e.grants == ledger.replay.value.currentAuthority.value
                  && e.stateHash == ledger.replay.value.stateHash.value
                else s.fenced == Some(RescanUnresolved) && s.expectation.None?)
  {
  }

  // ---- the object ----------------------------------------------------------

  class MotherAuthorityOrder {
    var expectation: Option<Expectation>
    var fenced: Option<FenceReason>
    var pending: map<string, Requirement>

    ghost function Value(): OrderState
      reads this
    {
      OrderState(expectation, fenced, pending)
    }

    ghost predicate Valid()
      reads this
    {
      Coherent(Value())
    }

    constructor (ledger: Ledger)
      ensures Valid() && Value() == FromLedger(ledger)
    {
      var e := ExpectationFromLedger(ledger);
      if e.Ok? {
        expectation, fenced := Some(e.value), None;
      } else {
        expectation, fenced := None, Some(RescanUnresolved);
      }
      pending := map[];
    }

    /** `reported` is what the callback returns if it is called. */
    method CommitMutation(id: string, reported: CommitOutcome) returns (outcome: CommitOutcome, called: bool)
      requires Valid()
      modifies this
      ensures Valid()
      ensures called <==> old(fenced).None? && !Blank(id)
      ensures called ==> outcome == reported && Value() == AfterCommit(old(Value()), id, reported)
      ensures !called ==> outcome == RejectedBeforeCommit(id) && Value() == old(Value())
    {
      if fenced.Some? || Blank(id) {
        return RejectedBeforeCommit(id), false;
      }
      CommitKeepsCoherent(Value(), id, reported);
      outcome, called := reported, true;
      var matches := outcome.id == id;
      if outcome.Committed? && matches {
        expectation := Some(outcome.expectation);
      } else if outcome.ProjectionPending? && matches {
        fenced := Some(ProjectionLag);
        pending := pending[id := MustBeCommitted];
      } else if outcome.WriterPoisoned? && matches {
        fenced := Some(WriterPoisonedFence);
        pending := pending[id := PresentOrAbsent];
      } else if !(outcome.RejectedBeforeCommit? && matches) {
        fenced := Some(CommitUnknownFence);
        pending := pending[id := PresentOrAbsent];
      }
    }

    /** Whether some acknowledged mutation is missing from the replay. */
    method MissesAcknowledged(mutations: set<string>) returns (missing: bool)
      ensures missing == Unproven(pending, mutations)
    {
      var rest := pending.Keys;
      while rest != {}
        invariant rest <= pending.Keys
        invariant forall id :: id in pending.Keys - rest && pending[id] == MustBeCommitted ==> id in mutations
        decreases |rest|
      {
        var id :| id in rest;
        if pending[id] == MustBeCommitted && id !in mutations {
          return true;
        }
        rest := rest - {id};
      }
      missing := false;
    }

    method ClearFenceAfterExclusiveRescan(ledger: Ledger, store: Expectation -> Option<Proof>)
      returns (r: Result<Expectation, RecoveryDeny>)
      requires Valid()
      modifies this
      ensures Valid()
      ensures r == Rescan(old(Value()), ledger, store)
      ensures Value() == AfterRescan(old(Value()), r)
    {
      if fenced.None? {
        return Err(NotFenced);
      }
      if ledger.tenure.None? || ledger.poisoned {
        return Err(ExclusiveWriterUnavailable);
      }
      if expectation.Some? && expectation.value.grants.authorityEpoch == ledger.tenure.value.authorityEpoch {
        return Err(FreshWriterTenureRequired);
      }
      if ledger.entries.None? || ledger.replay.None? {
        return Err(LedgerReplayBlocked);
      }
      var missing := MissesAcknowledged(ledger.replay.value.mutations);
      if missing {
        return Err(MutationResolutionUnproven);
      }
      var entries, replay := ledger.entries.value, ledger.replay.value;
      if entries == [] || replay.currentAuthority.None?
         || replay.currentAuthority.value != ledger.tenure.value.resultingAuthority || replay.stateHash.None?
      {
        return Err(LedgerReplayBlocked);
      }
      var e := HeadExpectation(entries[|entries| - 1], replay.currentAuthority.value, replay.stateHash.value);
      var proof := store(e);
      if proof.None? {
        return Err(RecoveryProjection(ProjectionNotCurrent));
      }
      if proof.value.Denied? {
        return Err(RecoveryProjection(proof.value.reason));
      }
      if !CursorMatches(proof.value.cursor, e) {
        return Err(RecoveryExpectationMismatch);
      }
      expectation, fenced, pending := Some(e), None, map[];
      r := Ok(e);
    }

    /** `proof` is what the proof callback returns if it is called. The start callback runs
        exactly when None is returned. */
    method AdmitEffect(e: Expectation, proof: Proof) returns (deny: Option<AdmissionDeny>)
      requires Valid()
      ensures deny == Admission(Value(), e, proof)
      ensures deny.None? ==>
                && fenced.None? && expectation.Some? && proof == Usable(CursorAt(e))
                && e == expectation.value.(throughSequence := e.throughSequence, throughEntryHash := e.throughEntryHash)
      ensures deny != Some(AuthorityStateUnavailable)
    {
      NeverUnavailable(Value(), e, proof);
      if fenced.Some? {
        return Some(Fenced(fenced.value));
      }
      if expectation.None? {
        return Some(AuthorityStateUnavailable);
      }
      if !SameAuthorityState(expectation.value, e) {
        return Some(ExactAuthorityStateMismatch);
      }
      if proof.Denied? {
        return Some(AdmissionProjection(proof.reason));
      }
      if !CursorMatches(proof.cursor, e) {
        return Some(AdmissionExpectationMismatch);
      }
      deny := None;
    }
  }
}
