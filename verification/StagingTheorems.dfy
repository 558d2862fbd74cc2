/** What every staging run settles, and what the catalogue keeps over any sequence of runs. */
module StagingTheorems {
  import opened Wrappers
  import opened Text
  import opened AcquisitionAuthority
  import opened Staging

  // ---- when an operator's run is allowed -----------------------------------

  /**
   * The decision is made out for the request it is then held against, so an operator's run is
   * denied only when the user changed between two readings or the minute was over.
   */
  lemma OperatorAllowedIff(w: World, run: Run)
    requires ReachesEvaluation(w, run) && GroundOf(w, run).Operator?
    ensures Allowed(run, Operator) <==>
            run.env.setup.value.effectUid == run.env.setup.value.claimUid && run.env.setup.value.now < run.env.setup.value.expiresAt
  {
  }

  /** Current for now, of this policy, and with sidecars for its integrity. */
  predicate Current(source: SourceAuthority, now: int) {
    && source.state == Active && source.issuedAt <= now < source.expiresAt
    && source.policyRevision == 1 && source.integrityPolicy == SIDECARS
  }

  /** The scope names the artifact, its publisher and the acquiring. */
  predicate Names(scope: Scope, r: Request) {
    && Permits(scope.mode, scope.artifacts, Identity(r.childName, r.version))
    && r.publisher.Some? && Permits(scope.mode, scope.publishers, r.publisher.value)
    && "acquire" in scope.actions
  }

  /**
   * The first evaluation holds a standing source's own namespaces against its scope, so it never
   * decides on namespaces: a run is allowed exactly when the source is current, its scope names
   * the request and has some namespace, and user and minute hold.
   */
  lemma StandingAllowedIff(w: World, run: Run)
    requires ReachesEvaluation(w, run) && GroundOf(w, run).Standing?
    ensures var g, s := GroundOf(w, run), run.env.setup.value;
            Allowed(run, g) <==>
            && Current(g.source, s.now) && Names(g.source.scope, run.request) && g.source.scope.namespaces != []
            && s.effectUid == s.claimUid && s.now < s.expiresAt
  {
    var scope := GroundOf(w, run).source.scope;
    assert forall n <- scope.namespaces :: Permits(scope.mode, scope.namespaces, n);
  }

  // ---- how far a run gets --------------------------------------------------

  function TargetOf(run: Run): PackagePath
    requires Tagged(run.env.load.artifactId)
  {
    PathOf(run.request.childrenDir, run.env.load.artifactId)
  }

  /** Once the source was found fit: the package is staged, loads and meets no conflicting package. */
  predicate Shown(w: World, run: Run) {
    && run.env.staged && StrictlyLoaded(run)
    && Tagged(run.env.load.artifactId)
    && (TargetOf(run) in w.catalogue ==> run.env.existingLoads)
  }

  /** Once it was shown: the observer accepts and the package gets into the catalogue. */
  predicate Accepted(w: World, run: Run) {
    && Tagged(run.env.load.artifactId)
    && run.env.observerAccepts
    && (if TargetOf(run) in w.catalogue then run.env.existingLoads && run.env.existingLoadsAgain && run.env.stagingRemoved
        else run.env.publishes)
  }

  /** Everything up to the observer has gone well. */
  predicate AtObserver(t: Tools, w: World, run: Run) {
    && ReachesEvaluation(w, run) && Examine(t, run, GroundOf(w, run)).Fit?
    && StagingOf(run) !in w.staging
    && Shown(w, run)
  }

  predicate ObserverRefuses(t: Tools, w: World, run: Run) { AtObserver(t, w, run) && !run.env.observerAccepts }

  /** The package is in the catalogue and only the store is left to write. */
  predicate AtProjection(t: Tools, w: World, run: Run) { AtObserver(t, w, run) && Accepted(w, run) }

  /** A standing source that is allowed and readable, and no file URL. */
  predicate IsForeign(w: World, run: Run) {
    var g := GroundOf(w, run);
    g.Standing? && Allowed(run, g) && RootHolds(run) && !StartsWith(g.source.sourceRef, FILE)
  }

  /** Terminal store writes go through. */
  predicate StoreWorks(e: Env) { e.recordWorks && e.consumeWorks }

  /** The transaction is committed and then what is read back is refused. */
  predicate LateConflict(w: World, run: Run, path: PackagePath) {
    && run.env.reopens
    && !CommitRefused(w, run, run.env.load.artifactId, path) && ReadBackRefused(w, run, run.env.load.artifactId, path)
  }

  /**
   * The store cannot be reopened for the transaction; or an operator's is committed and then read
   * back under another path, or the store cannot be reopened once more.
   */
  predicate CutOff(w: World, run: Run, g: Ground, path: PackagePath) {
    || !run.env.reopens
    || (&& g.Operator? && !CommitRefused(w, run, run.env.load.artifactId, path)
        && (ReadBackRefused(w, run, run.env.load.artifactId, path) || !run.env.reopensAgain))
  }

  /** None of the three ways of leaving a run unsettled is taken. */
  predicate Settles(t: Tools, w: World, run: Run) {
    && !IsForeign(w, run)
    && !ObserverRefuses(t, w, run)
    && !(AtProjection(t, w, run) && CutOff(w, run, GroundOf(w, run), TargetOf(run)))
  }

  // ---- one record, one consumed decision -----------------------------------

  predicate DecisionUsed(w: World, w': World, run: Run, g: Ground) {
    w'.decisions == if g.Operator? then w.decisions[run.context.decisionId := Consumed] else w.decisions
  }

  predicate RecordedOne(w: World, w': World, run: Run) {
    var id := run.context.acquisitionId;
    id in w'.acquisitions && w'.acquisitions == w.acquisitions[id := w'.acquisitions[id]]
  }

  /** Exactly one acquisition was added and the operator's decision, if there is one, is used up. */
  predicate Settled(w: World, w': World, run: Run, g: Ground) { RecordedOne(w, w', run) && DecisionUsed(w, w', run, g) }

  /** The store as it was, but for the decision just recorded. */
  predicate JustOpened(w: World, o: World, run: Run, g: Ground) {
    && g != Refused
    && o.acquisitions == w.acquisitions && run.context.acquisitionId !in w.acquisitions
    && o.decisions == (if g.Operator? then w.decisions[run.context.decisionId := Open] else w.decisions)
    && o.artifacts == w.artifacts && o.packages == w.packages
  }

  lemma TerminalSettles(w: World, o: World, run: Run, g: Ground, a: Acquisition)
    requires JustOpened(w, o, run, g) && StoreWorks(run.env)
    ensures var r := Terminal(o, run, g, a); r.ok && Settled(w, r.world, run, g)
    ensures Settled(w, Cleaned(Terminal(o, run, g, a), run).world, run, g)
  {
  }

  lemma CommittedWell(t: Tools, w: World, o: World, run: Run, g: Ground, path: PackagePath, preexisting: bool)
    requires JustOpened(w, o, run, g) && StoreWorks(run.env) && run.env.component.Some?
    requires !CommitRefused(o, run, run.env.load.artifactId, path) && !CutOff(o, run, g, path)
    requires !ReadBackRefused(o, run, run.env.load.artifactId, path)
    ensures var r := Project(t, o, run, g, path, preexisting); r.ok && Settled(w, r.world, run, g)
  {
  }

  /**
   * The transaction stands. When it is read back under another path, a second record of the same
   * id is refused; then, and when the store cannot be reopened once more, the decision stays open.
   */
  lemma CommittedLate(t: Tools, w: World, o: World, run: Run, g: Ground, path: PackagePath, preexisting: bool)
    requires JustOpened(w, o, run, g) && run.env.reopens && run.env.component.Some?
    requires !CommitRefused(o, run, run.env.load.artifactId, path)
    requires ReadBackRefused(o, run, run.env.load.artifactId, path) || (g.Operator? && !run.env.reopensAgain)
    ensures var r := Project(t, o, run, g, path, preexisting);
            !r.ok && RecordedOne(w, r.world, run) && r.world.decisions == o.decisions
  {
  }

  lemma CommittedSettles(t: Tools, w: World, o: World, run: Run, g: Ground, path: PackagePath, preexisting: bool)
    requires JustOpened(w, o, run, g) && StoreWorks(run.env) && run.env.component.Some? && run.env.reopens
    requires !CommitRefused(w, run, run.env.load.artifactId, path)
    ensures Settled(w, Project(t, o, run, g, path, preexisting).world, run, g) <==> !CutOff(w, run, g, path)
  {
    SameStore(w, o, run, path);
    if ReadBackRefused(w, run, run.env.load.artifactId, path) || (g.Operator? && !run.env.reopensAgain) {
      CommittedLate(t, w, o, run, g, path, preexisting);
      StillOpen(w.decisions, run.context.decisionId);
    } else {
      CommittedWell(t, w, o, run, g, path, preexisting);
    }
  }

  lemma StillOpen(decisions: map<string, DecisionState>, id: string)
    ensures decisions[id := Open] != decisions[id := Consumed]
  {
    assert decisions[id := Open][id] == Open;
  }

  lemma SameStore(w: World, o: World, run: Run, path: PackagePath)
    requires o.acquisitions == w.acquisitions && o.artifacts == w.artifacts && o.packages == w.packages
    ensures CommitRefused(o, run, run.env.load.artifactId, path) == CommitRefused(w, run, run.env.load.artifactId, path)
    ensures ReadBackRefused(o, run, run.env.load.artifactId, path) == ReadBackRefused(w, run, run.env.load.artifactId, path)
  {
  }

  lemma RefusedSettles(t: Tools, w: World, o: World, run: Run, g: Ground, path: PackagePath, preexisting: bool)
    requires JustOpened(w, o, run, g) && StoreWorks(run.env) && run.env.component.Some? && run.env.reopens
    requires CommitRefused(w, run, run.env.load.artifactId, path)
    ensures Settled(w, Project(t, o, run, g, path, preexisting).world, run, g)
  {
    assert CommitRefused(o, run, run.env.load.artifactId, path);
    TerminalSettles(w, TakenBack(o, run, path, preexisting), run, g, Observed(t, run, g, Verified, None));
  }

  lemma ProjectSettles(t: Tools, w: World, o: World, run: Run, g: Ground, path: PackagePath, preexisting: bool)
    requires JustOpened(w, o, run, g) && StoreWorks(run.env) && run.env.component.Some?
    ensures Settled(w, Project(t, o, run, g, path, preexisting).world, run, g) <==> !CutOff(w, run, g, path)
  {
    if !run.env.reopens {
      assert Project(t, o, run, g, path, preexisting).world == o;
    } else if CommitRefused(w, run, run.env.load.artifactId, path) {
      RefusedSettles(t, w, o, run, g, path, preexisting);
    } else {
      CommittedSettles(t, w, o, run, g, path, preexisting);
    }
  }

  lemma PublishSettles(t: Tools, w: World, o: World, run: Run, g: Ground, package: Package, path: PackagePath)
    requires JustOpened(w, o, run, g) && StoreWorks(run.env) && run.env.component.Some?
    ensures var projected := if path in o.catalogue then run.env.existingLoadsAgain && run.env.stagingRemoved
                             else run.env.publishes;
            Settled(w, Publish(t, o, run, g, package, path).world, run, g) <==>
            !(projected && CutOff(w, run, g, path))
  {
    var emptied := o.(staging := o.staging - {StagingOf(run)});
    TerminalSettles(w, o, run, g, Observed(t, run, g, Verified, None));
    ProjectSettles(t, w, emptied, run, g, path, true);
    ProjectSettles(t, w, emptied.(catalogue := o.catalogue[path := package]), run, g, path, false);
  }

  predicate RefusedUnrecorded(w: World, w': World, run: Run, g: Ground) {
    w'.acquisitions == w.acquisitions && DecisionUsed(w, w', run, g)
  }

  lemma RefusedObserver(t: Tools, w: World, o: World, run: Run, g: Ground, package: Package)
    requires JustOpened(w, o, run, g) && run.env.consumeWorks && run.env.component.Some?
    requires Tagged(run.env.load.artifactId) && (TargetOf(run) in o.catalogue ==> run.env.existingLoads)
    requires !run.env.observerAccepts
    ensures var w' := Present(t, o, run, g, package).world;
            RefusedUnrecorded(w, w', run, g) && !Settled(w, w', run, g)
  {
  }

  lemma PresentSettles(t: Tools, w: World, o: World, run: Run, g: Ground, package: Package)
    requires JustOpened(w, o, run, g) && o.catalogue == w.catalogue && StoreWorks(run.env) && run.env.component.Some?
    requires !(Tagged(run.env.load.artifactId) && (TargetOf(run) in w.catalogue ==> run.env.existingLoads)) ||
             run.env.observerAccepts
    ensures Settled(w, Present(t, o, run, g, package).world, run, g) <==>
            !(Accepted(w, run) && CutOff(w, run, g, TargetOf(run)))
  {
    TerminalSettles(w, o, run, g, Observed(t, run, g, Verified, None));
    if Tagged(run.env.load.artifactId) {
      PublishSettles(t, w, o, run, g, package, TargetOf(run));
    }
  }

  lemma StagedSettles(t: Tools, w: World, o: World, run: Run, g: Ground, package: Package)
    requires JustOpened(w, o, run, g) && o.catalogue == w.catalogue && StoreWorks(run.env) && run.env.component.Some?
    ensures var w' := Staged(t, o, run, g, package).world;
            Settled(w, w', run, g) <==>
            !(Shown(w, run) && !run.env.observerAccepts) &&
            !(Shown(w, run) && Accepted(w, run) && CutOff(w, run, g, TargetOf(run)))
  {
    if !run.env.staged || !StrictlyLoaded(run) {
      TerminalSettles(w, o, run, g, Observed(t, run, g, Rejected, None));
    } else if Shown(w, run) && !run.env.observerAccepts {
      RefusedObserver(t, w, o, run, g, package);
    } else {
      PresentSettles(t, w, o, run, g, package);
    }
  }

  lemma ConcludeSettles(t: Tools, w: World, o: World, run: Run, g: Ground, found: Finding)
    requires found.Unfit? || found.Fit? ==> run.env.component.Some?
    requires JustOpened(w, o, run, g) && o.catalogue == w.catalogue && o.staging == w.staging && StoreWorks(run.env)
    ensures var shown := found.Fit? && StagingOf(run) !in w.staging && Shown(w, run);
            Settled(w, Conclude(t, o, run, g, found).world, run, g) <==>
            && !found.Foreign?
            && !(shown && !run.env.observerAccepts)
            && !(shown && Accepted(w, run) && CutOff(w, run, g, TargetOf(run)))
  {
    match found
    case Unread => TerminalSettles(w, o, run, g, Record(run, g));
    case Foreign =>
    case Unfit => TerminalSettles(w, o, run, g, Observed(t, run, g, Rejected, None));
    case Fit(package) =>
      TerminalSettles(w, o, run, g, Observed(t, run, g, Rejected, None));
      StagedSettles(t, w, o.(staging := o.staging + {StagingOf(run)}), run, g, package);
  }

  /**
   * With working terminal store writes, a run that reaches the evaluation records exactly one
   * acquisition and uses up its decision, exactly unless the source is foreign, the observer
   * refuses, or the store is cut off between publication and the last write.
   */
  lemma SettledIff(t: Tools, w: World, run: Run)
    requires ReachesEvaluation(w, run) && StoreWorks(run.env) && run.context.acquisitionId !in w.acquisitions
    ensures var g := GroundOf(w, run);
            Settled(w, Stage(t, w, run).world, run, g) <==> Settles(t, w, run)
  {
    ConcludeSettles(t, w, Opened(w, run), run, GroundOf(w, run), Examine(t, run, GroundOf(w, run)));
  }

  /** A refusing observer: nothing is recorded, and the decision is used up all the same. */
  lemma RefusalUsesDecision(t: Tools, w: World, run: Run)
    requires ObserverRefuses(t, w, run) && run.env.consumeWorks && run.context.acquisitionId !in w.acquisitions
    ensures RefusedUnrecorded(w, Stage(t, w, run).world, run, GroundOf(w, run))
  {
    var g := GroundOf(w, run);
    var o := Opened(w, run);
    assert JustOpened(w, o, run, g);
    RefusedObserver(t, w, o.(staging := o.staging + {StagingOf(run)}), run, g, Examine(t, run, g).package);
  }
}
