/**
 * The staging transaction as it is carried out: step by step on a store, a catalogue and a
 * staging directory, leaving at the first step that fails.
 */
module StagingHost {
  import opened Wrappers
  import opened Text
  import opened AcquisitionAuthority
  import opened Staging
  import opened StagingTheorems
  import opened StagingCatalogue
  import opened StagingMeaning
  import opened StagingRecords
  import HttpText

  /** The component to read; none makes a failed acquisition. */
  method SelectComponent(t: Tools, run: Run) returns (selected: Option<string>)
    ensures selected == Selected(t, run)
  {
    if run.request.componentPath.Some? {
      return run.request.componentPath;
    }
    if run.env.manifest.None? {
      return None;
    }
    if !HttpText.Utf8(run.env.manifest.value) {
      return None;
    }
    var manifest := t.parse(run.env.manifest.value);
    if manifest.None? || manifest.value.wasm.None? {
      return None;
    }
    if !RelativePath(manifest.value.wasm.value) {
      return None;
    }
    return manifest.value.wasm;
  }

  /** The claimed identity, the namespaces, and the component that the manifest declares. */
  method JudgeManifest(t: Tools, run: Run, g: Ground, selected: string, manifest: Manifest) returns (fit: bool)
    requires Selected(t, run) == Some(selected)
    ensures fit == ManifestFits(t, run, g, manifest)
  {
    if manifest.name != run.request.childName || manifest.version != run.request.version {
      return false;
    }
    var namespaces := ManifestNamespaces(manifest.operations);
    if namespaces.None? {
      return false;
    }
    if g.Standing? && !StillAllowed(run, g, namespaces.value) {
      return false;
    }
    if manifest.wasm.Some? {
      if !RelativePath(manifest.wasm.value) || Components(manifest.wasm.value) != Components(selected) {
        return false;
      }
    }
    return run.env.canonical.Some?;
  }

  /** The verification of what was read. */
  method JudgeSource(t: Tools, run: Run, g: Ground, selected: string) returns (fit: bool)
    requires run.env.manifest.Some? && run.env.component.Some? && Selected(t, run) == Some(selected)
    ensures fit == Fits(t, run, g)
  {
    if run.request.requireSidecars && !run.env.sidecarsMatch {
      return false;
    }
    var observed := t.blake3(run.env.component.value);
    if run.request.expectedDigest.Some? && run.request.expectedDigest.value != observed {
      return false;
    }
    if run.request.expectedManifestDigest.Some?
       && run.request.expectedManifestDigest.value != t.sha256(run.env.manifest.value) {
      return false;
    }
    if !HttpText.Utf8(run.env.manifest.value) {
      return false;
    }
    var parsed := t.parse(run.env.manifest.value);
    if parsed.None? {
      return false;
    }
    fit := JudgeManifest(t, run, g, selected, parsed.value);
  }

  /** The reads and checks between the evaluation and the staging directory. */
  method ExamineSource(t: Tools, run: Run, g: Ground) returns (found: Finding)
    ensures found == Examine(t, run, g)
  {
    if !Allowed(run, g) {
      return Unread;
    }
    if run.env.root.None? || !run.env.rootIsDirectory {
      return Unread;
    }
    if g.Standing? {
      if !StartsWith(g.source.sourceRef, FILE) {
        return Foreign;
      }
      if !run.env.standingRootHolds {
        return Unread;
      }
    }
    if !run.env.manifestResolves {
      return Unread;
    }
    var selected := SelectComponent(t, run);
    if selected.None? || !run.env.componentResolves {
      return Unread;
    }
    if run.env.manifest.None? || run.env.component.None? {
      return Unread;
    }
    var fit := JudgeSource(t, run, g, selected.value);
    if !fit {
      return Unfit;
    }
    return Fit(Package(run.env.canonical.value, run.env.component.value));
  }

  /**
   * What the transaction promises: packages and records of before are kept; success means one
   * record, a used-up decision and the package in place; with working terminal writes a run that
   * reaches the evaluation settles exactly when it should; and a new package holds what was acquired.
   */
  predicate Promised(t: Tools, w: World, run: Run, r: Outcome) {
    && Keeps(w, r.world)
    && (run.context.acquisitionId !in w.acquisitions && r.ok ==>
          && Settled(w, r.world, run, GroundOf(w, run))
          && Tagged(run.env.load.artifactId) && TargetOf(run) in r.world.catalogue)
    && (run.context.acquisitionId !in w.acquisitions && ReachesEvaluation(w, run) && StoreWorks(run.env) ==>
          (Settled(w, r.world, run, GroundOf(w, run)) <==> Settles(t, w, run)))
    && (forall p :: p in r.world.catalogue && p !in w.catalogue ==> Holds(run, r.world.catalogue[p]))
  }

  /** The rewritten manifest and the acquired bytes. */
  predicate Holds(run: Run, package: Package) {
    && run.env.canonical.Some? && package.manifest == run.env.canonical.value
    && run.env.component.Some? && package.component == run.env.component.value
  }

  lemma StageKeepsPromises(t: Tools, w: World, run: Run)
    ensures Promised(t, w, run, Stage(t, w, run))
  {
    RunKeeps(t, w, run);
    forall p | p in Stage(t, w, run).world.catalogue && p !in w.catalogue
      ensures Holds(run, Stage(t, w, run).world.catalogue[p])
    {
      PublishedContent(t, w, run, p);
    }
    if run.context.acquisitionId !in w.acquisitions {
      if Stage(t, w, run).ok { SuccessMeans(t, w, run); }
      if ReachesEvaluation(w, run) && StoreWorks(run.env) { SettledIff(t, w, run); }
    }
  }

  class Host {
    const sources: map<string, Proof>
    var acquisitions: map<string, Acquisition>
    var decisions: map<string, DecisionState>
    var artifacts: map<string, Facts>
    var packages: map<string, PackagePath>
    var catalogue: map<PackagePath, Package>
    var staging: set<StagingPath>

    function Value(): World
      reads this
    {
      World(sources, acquisitions, decisions, artifacts, packages, catalogue, staging)
    }

    constructor (w: World)
      ensures Value() == w
    {
      sources := w.sources;
      acquisitions := w.acquisitions;
      decisions := w.decisions;
      artifacts := w.artifacts;
      packages := w.packages;
      catalogue := w.catalogue;
      staging := w.staging;
    }

    method ConsumeDecision(run: Run) returns (ok: bool)
      modifies this`decisions
      ensures Outcome(Value(), ok) == Consume(old(Value()), run)
    {
      var id := run.context.decisionId;
      if !run.env.consumeWorks || id !in decisions || decisions[id] != Open {
        return false;
      }
      decisions := decisions[id := Consumed];
      return true;
    }

    method RecordTerminal(run: Run, g: Ground, a: Acquisition) returns (ok: bool)
      modifies this`acquisitions, this`decisions
      ensures Outcome(Value(), ok) == Terminal(old(Value()), run, g, a)
    {
      var id := run.context.acquisitionId;
      if !run.env.recordWorks || id in acquisitions {
        return false;
      }
      acquisitions := acquisitions[id := a];
      if g.Standing? {
        return true;
      }
      ok := ConsumeDecision(run);
    }

    /** Records a terminal acquisition and, once it is written, drops the staging directory. */
    method RecordAndDrop(run: Run, g: Ground, a: Acquisition)
      modifies this`acquisitions, this`decisions, this`staging
      ensures Value() == Cleaned(Terminal(old(Value()), run, g, a), run).world
    {
      var ok := RecordTerminal(run, g, a);
      if ok && run.env.cleanupWorks {
        staging := staging - {StagingOf(run)};
      }
    }

    method RecordVerifiedArtifact(run: Run, artifact: string, path: PackagePath, a: Acquisition) returns (ok: bool)
      modifies this`acquisitions, this`artifacts, this`packages
      ensures Outcome(Value(), ok) == RecordVerified(old(Value()), run, artifact, path, a)
    {
      if artifact in artifacts && artifacts[artifact] != Facts(run.env.load.facts, true) {
        return false;
      }
      if run.env.projection == FaultBeforeCommit || run.context.acquisitionId in acquisitions {
        return false;
      }
      if artifact !in packages && path in packages.Values {
        return false;
      }
      acquisitions := acquisitions[run.context.acquisitionId := a];
      artifacts := artifacts[artifact := Facts(run.env.load.facts, true)];
      if artifact !in packages {
        packages := packages[artifact := path];
      }
      return run.env.projection != FaultAfterCommit && packages[artifact] == path;
    }

    method ProjectArtifact(t: Tools, run: Run, g: Ground, path: PackagePath, preexisting: bool) returns (ok: bool)
      requires run.env.component.Some?
      modifies this
      ensures Outcome(Value(), ok) == Project(t, old(Value()), run, g, path, preexisting)
    {
      if !run.env.reopens {
        return false;
      }
      var artifact := run.env.load.artifactId;
      var recorded := RecordVerifiedArtifact(run, artifact, path, Observed(t, run, g, Verified, Some(artifact)));
      if !recorded {
        if !preexisting && run.env.cleanupWorks {
          catalogue := catalogue - {path};
        }
        var written := RecordTerminal(run, g, Observed(t, run, g, Verified, None));
        return false;
      }
      if g.Standing? {
        return true;
      }
      if !run.env.reopensAgain {
        return false;
      }
      ok := ConsumeDecision(run);
    }

    method PublishPackage(t: Tools, run: Run, g: Ground, package: Package, path: PackagePath) returns (ok: bool)
      requires run.env.component.Some?
      modifies this
      ensures Outcome(Value(), ok) == Publish(t, old(Value()), run, g, package, path)
    {
      var without := Observed(t, run, g, Verified, None);
      var preexisting := path in catalogue;
      if preexisting {
        if !run.env.existingLoadsAgain {
          RecordAndDrop(run, g, without);
          return false;
        }
        if !run.env.stagingRemoved {
          var written := RecordTerminal(run, g, without);
          return false;
        }
        staging := staging - {StagingOf(run)};
      } else {
        if !run.env.publishes {
          RecordAndDrop(run, g, without);
          return false;
        }
        catalogue := catalogue[path := package];
        staging := staging - {StagingOf(run)};
      }
      ok := ProjectArtifact(t, run, g, path, preexisting);
    }

    method PresentPackage(t: Tools, run: Run, g: Ground, package: Package) returns (ok: bool)
      requires run.env.component.Some?
      modifies this
      ensures Outcome(Value(), ok) == Present(t, old(Value()), run, g, package)
    {
      var without := Observed(t, run, g, Verified, None);
      var artifact := run.env.load.artifactId;
      if !Tagged(artifact) {
        RecordAndDrop(run, g, without);
        return false;
      }
      var path := PathOf(run.request.childrenDir, artifact);
      if path in catalogue && !run.env.existingLoads {
        RecordAndDrop(run, g, without);
        return false;
      }
      if !run.env.observerAccepts {
        if run.env.cleanupWorks {
          staging := staging - {StagingOf(run)};
        }
        if !g.Standing? {
          var consumed := ConsumeDecision(run);
        }
        return false;
      }
      ok := PublishPackage(t, run, g, package, path);
    }

    method StagePackage(t: Tools, run: Run, g: Ground, package: Package) returns (ok: bool)
      requires run.env.component.Some?
      modifies this
      ensures Outcome(Value(), ok) == Conclude(t, old(Value()), run, g, Fit(package))
    {
      var rejected := Observed(t, run, g, Rejected, None);
      if StagingOf(run) in staging {
        var written := RecordTerminal(run, g, rejected);
        return false;
      }
      staging := staging + {StagingOf(run)};
      if !run.env.staged || run.env.load.loaded != 1 || run.env.load.failed != 0 {
        RecordAndDrop(run, g, rejected);
        return false;
      }
      ok := PresentPackage(t, run, g, package);
    }

    /** The checks before anything is read, and the record of an operator's decision. */
    method Admit(run: Run) returns (ground: Option<Ground>)
      modifies this`decisions
      ensures ground.Some? <==> Admitted(old(Value()), run)
      ensures ground.Some? ==> ground.value == GroundOf(old(Value()), run)
      ensures Value() == if ground.Some? then Opened(old(Value()), run) else old(Value())
    {
      if !WellFormed(run.request) || !run.env.opens {
        return None;
      }
      var g := GroundOf(Value(), run);
      if g == Refused {
        return None;
      }
      if g == Operator {
        if !run.env.decisionSaved || run.context.decisionId in decisions {
          return None;
        }
        decisions := decisions[run.context.decisionId := Open];
      }
      return Some(g);
    }

    /** What is done about a finding. */
    method ActOn(t: Tools, run: Run, g: Ground, found: Finding) returns (ok: bool)
      requires found.Unfit? || found.Fit? ==> run.env.component.Some?
      modifies this
      ensures Outcome(Value(), ok) == Conclude(t, old(Value()), run, g, found)
    {
      ok := false;
      match found
      case Unread => var written := RecordTerminal(run, g, Record(run, g));
      case Foreign =>
      case Unfit => var written := RecordTerminal(run, g, Observed(t, run, g, Rejected, None));
      case Fit(package) => ok := StagePackage(t, run, g, package);
    }

    /** The whole transaction. */
    method StageArtifact(t: Tools, run: Run) returns (ok: bool)
      modifies this
      ensures Outcome(Value(), ok) == Stage(t, old(Value()), run)
      ensures Promised(t, old(Value()), run, Outcome(Value(), ok))
    {
      StageKeepsPromises(t, Value(), run);
      var ground := Admit(run);
      if ground.None? || run.env.setup.None? {
        return false;
      }
      var found := ExamineSource(t, run, ground.value);
      ok := ActOn(t, run, ground.value, found);
    }
  }
}
