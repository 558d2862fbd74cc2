/** What the record of a run says, what success means, and what is left in the staging area. */
module StagingRecords {
  import opened Wrappers
  import opened Text
  import opened AcquisitionAuthority
  import opened Staging
  import opened StagingTheorems
  import opened StagingCatalogue
  import opened StagingMeaning

  predicate SameStoreAs(w: World, o: World) {
    && o.acquisitions == w.acquisitions && o.artifacts == w.artifacts && o.packages == w.packages
    && o.catalogue == w.catalogue
  }

  // ---- the record tells what happened --------------------------------------

  /** If the run has recorded an acquisition, it is this one. */
  predicate Writes(w: World, w': World, run: Run, a: Acquisition) {
    var id := run.context.acquisitionId;
    id !in w.acquisitions && id in w'.acquisitions ==> w'.acquisitions[id] == a
  }

  lemma TerminalWrites(w: World, o: World, run: Run, g: Ground, a: Acquisition)
    requires o.acquisitions == w.acquisitions
    ensures Writes(w, Terminal(o, run, g, a).world, run, a)
    ensures Writes(w, Cleaned(Terminal(o, run, g, a), run).world, run, a)
  {
  }

  lemma ProjectWrites(t: Tools, w: World, o: World, run: Run, g: Ground, path: PackagePath, preexisting: bool)
    requires o.acquisitions == w.acquisitions && o.artifacts == w.artifacts && o.packages == w.packages
    requires run.env.component.Some?
    ensures Writes(w, Project(t, o, run, g, path, preexisting).world, run,
                   Observed(t, run, g, Verified, if Commits(w, run, path) then Some(run.env.load.artifactId) else None))
  {
    SameStore(w, o, run, path);
    if Commits(w, run, path) {
      CommittedStays(t, o, run, g, path, preexisting);
    } else if run.env.reopens {
      TerminalWrites(w, TakenBack(o, run, path, preexisting), run, g, Observed(t, run, g, Verified, None));
    }
  }

  lemma PublishWrites(t: Tools, w: World, o: World, run: Run, g: Ground, package: Package, path: PackagePath)
    requires SameStoreAs(w, o) && run.env.component.Some?
    ensures var projected := if path in w.catalogue then run.env.existingLoadsAgain && run.env.stagingRemoved
                             else run.env.publishes;
            Writes(w, Publish(t, o, run, g, package, path).world, run,
                   Observed(t, run, g, Verified,
                            if projected && Commits(w, run, path) then Some(run.env.load.artifactId) else None))
  {
    var emptied := o.(staging := o.staging - {StagingOf(run)});
    TerminalWrites(w, o, run, g, Observed(t, run, g, Verified, None));
    ProjectWrites(t, w, emptied, run, g, path, true);
    ProjectWrites(t, w, emptied.(catalogue := o.catalogue[path := package]), run, g, path, false);
  }

  /** The artifact a shown package is recorded with. */
  function RecordedArtifact(w: World, run: Run): Option<string> {
    if Tagged(run.env.load.artifactId) && Accepted(w, run) && Commits(w, run, TargetOf(run))
    then Some(run.env.load.artifactId) else None
  }

  lemma PresentWrites(t: Tools, w: World, o: World, run: Run, g: Ground, package: Package)
    requires SameStoreAs(w, o) && run.env.component.Some?
    ensures Writes(w, Present(t, o, run, g, package).world, run, Observed(t, run, g, Verified, RecordedArtifact(w, run)))
  {
    TerminalWrites(w, o, run, g, Observed(t, run, g, Verified, None));
    if Tagged(run.env.load.artifactId) {
      TaggedWrites(t, w, o, run, g, package);
    }
  }

  lemma TaggedWrites(t: Tools, w: World, o: World, run: Run, g: Ground, package: Package)
    requires SameStoreAs(w, o) && run.env.component.Some? && Tagged(run.env.load.artifactId)
    ensures Writes(w, Present(t, o, run, g, package).world, run, Observed(t, run, g, Verified, RecordedArtifact(w, run)))
  {
    TerminalWrites(w, o, run, g, Observed(t, run, g, Verified, None));
    PublishWrites(t, w, o, run, g, package, TargetOf(run));
  }

  /** A package is staged anew and passes the strict loader. */
  predicate PassesLoad(w: World, run: Run) { StagingOf(run) !in w.staging && run.env.staged && StrictlyLoaded(run) }

  function ExpectedRecord(t: Tools, w: World, run: Run, g: Ground, found: Finding): Acquisition
    requires found.Unfit? || found.Fit? ==> run.env.component.Some?
  {
    if found.Unfit? || (found.Fit? && !PassesLoad(w, run)) then Observed(t, run, g, Rejected, None)
    else if found.Fit? then Observed(t, run, g, Verified, RecordedArtifact(w, run))
    else Record(run, g)
  }

  lemma ConcludeWrites(t: Tools, w: World, o: World, run: Run, g: Ground, found: Finding)
    requires SameStoreAs(w, o) && o.staging == w.staging
    requires found.Unfit? || found.Fit? ==> run.env.component.Some?
    ensures Writes(w, Conclude(t, o, run, g, found).world, run, ExpectedRecord(t, w, run, g, found))
  {
    TerminalWrites(w, o, run, g, Record(run, g));
    if found.Unfit? || found.Fit? {
      var staged := o.(staging := o.staging + {StagingOf(run)});
      TerminalWrites(w, o, run, g, Observed(t, run, g, Rejected, None));
      TerminalWrites(w, staged, run, g, Observed(t, run, g, Rejected, None));
      if found.Fit? {
        PresentWrites(t, w, staged, run, g, found.package);
      }
    }
  }

  /**
   * The record names its one authority, its request and its observations; it says "acquired" with
   * the size and digest of the component exactly when the source was entitled and read, "verified"
   * exactly when it was fit and its package passed the strict loader, and an artifact exactly when
   * that was earned.
   */
  ghost predicate Truthful(t: Tools, w: World, run: Run, a: Acquisition) {
    var read := Entitled(run) && WasRead(t, run);
    var source := if run.env.root.Some? then run.env.root.value else run.request.sourceRoot;
    && a.standingId == run.request.standingId
    && a.decisionId == (if run.request.standingId.Some? then None else Some(run.context.decisionId))
    && a.sourceRef == (if run.proof.Some? then run.proof.value.source.sourceRef else "file://" + source)
    && a.childName == run.request.childName && a.version == run.request.version
    && a.adapterStart == run.context.adapterStart && a.acquisitionObservation == run.context.acquisitionObservation
    && a.acquired == read
    && (read ==>
          && run.env.component.Some? && a.size == Some(|run.env.component.value|)
          && a.digest == Some(t.blake3(run.env.component.value))
          && a.verificationObservation == Some(run.context.verificationObservation)
          && a.verification == if WasFit(t, run) && PassesLoad(w, run) then Verified else Rejected)
    && (!read ==> a.size == None && a.digest == None && a.verificationObservation == None && a.verification == NotReached)
    && a.artifact == if Earned(t, w, run) then Some(run.env.load.artifactId) else None
  }

  /** The same by what was found. */
  lemma ExpectedIs(t: Tools, w: World, run: Run, g: Ground, found: Finding)
    requires found.Unfit? || found.Fit? ==> run.env.component.Some?
    ensures var a := ExpectedRecord(t, w, run, g, found);
            && a.standingId == (if g.Standing? then Some(g.source.id) else None)
            && a.decisionId == (if g.Standing? then None else Some(run.context.decisionId))
            && a.sourceRef == (if g.Standing? then g.source.sourceRef
                               else "file://" + (if run.env.root.Some? then run.env.root.value else run.request.sourceRoot))
            && a.childName == run.request.childName && a.version == run.request.version
            && a.adapterStart == run.context.adapterStart && a.acquisitionObservation == run.context.acquisitionObservation
            && a.acquired == (found.Unfit? || found.Fit?)
            && (a.acquired ==>
                  && a.size == Some(|run.env.component.value|) && a.digest == Some(t.blake3(run.env.component.value))
                  && a.verificationObservation == Some(run.context.verificationObservation)
                  && a.verification == if found.Fit? && PassesLoad(w, run) then Verified else Rejected)
            && (!a.acquired ==>
                  a.size == None && a.digest == None && a.verificationObservation == None && a.verification == NotReached)
            && (a.artifact.Some? <==>
                  found.Fit? && PassesLoad(w, run) && Tagged(run.env.load.artifactId) && Accepted(w, run)
                  && Commits(w, run, TargetOf(run)))
            && (a.artifact.Some? ==> a.artifact.value == run.env.load.artifactId)
  {
  }

  /** Whatever fails, a run that records an acquisition has reached the evaluation and records the truth. */
  lemma RecordTellsTruth(t: Tools, w: World, run: Run)
    requires run.context.acquisitionId !in w.acquisitions
    requires run.context.acquisitionId in Stage(t, w, run).world.acquisitions
    ensures ReachesEvaluation(w, run)
    ensures Truthful(t, w, run, Stage(t, w, run).world.acquisitions[run.context.acquisitionId])
  {
    RecordIsExpected(t, w, run);
    var g := GroundOf(w, run);
    ExpectedIs(t, w, run, g, Examine(t, run, g));
    FindingMeans(t, w, run);
    RecordedIffEarned(t, w, run);
  }

  lemma RecordIsExpected(t: Tools, w: World, run: Run)
    requires run.context.acquisitionId !in w.acquisitions
    requires run.context.acquisitionId in Stage(t, w, run).world.acquisitions
    ensures ReachesEvaluation(w, run)
    ensures var g := GroundOf(w, run);
            Stage(t, w, run).world.acquisitions[run.context.acquisitionId] == ExpectedRecord(t, w, run, g, Examine(t, run, g))
  {
    var g := GroundOf(w, run);
    ConcludeWrites(t, w, Opened(w, run), run, g, Examine(t, run, g));
  }

  /** The digest on record is that of the component in the package. */
  lemma DigestIsOfPackage(t: Tools, w: World, run: Run, p: PackagePath)
    requires run.context.acquisitionId !in w.acquisitions
    requires run.context.acquisitionId in Stage(t, w, run).world.acquisitions
    requires p in Stage(t, w, run).world.catalogue && p !in w.catalogue
    ensures var w' := Stage(t, w, run).world;
            w'.acquisitions[run.context.acquisitionId].digest == Some(t.blake3(w'.catalogue[p].component))
  {
    RecordTellsTruth(t, w, run);
    PublishedContent(t, w, run, p);
  }

  // ---- success -------------------------------------------------------------

  lemma ProjectSucceeds(t: Tools, w: World, o: World, run: Run, g: Ground, path: PackagePath, preexisting: bool)
    requires JustOpened(w, o, run, g) && run.env.component.Some? && path in o.catalogue
    requires Project(t, o, run, g, path, preexisting).ok
    ensures var w' := Project(t, o, run, g, path, preexisting).world;
            && Settled(w, w', run, g) && path in w'.catalogue
            && w'.acquisitions[run.context.acquisitionId].artifact == Some(run.env.load.artifactId)
  {
    SameStore(w, o, run, path);
  }

  lemma PublishSucceeds(t: Tools, w: World, o: World, run: Run, g: Ground, package: Package, path: PackagePath)
    requires JustOpened(w, o, run, g) && run.env.component.Some?
    requires Publish(t, o, run, g, package, path).ok
    ensures var w' := Publish(t, o, run, g, package, path).world;
            && Settled(w, w', run, g) && path in w'.catalogue
            && w'.acquisitions[run.context.acquisitionId].artifact == Some(run.env.load.artifactId)
  {
    var emptied := o.(staging := o.staging - {StagingOf(run)});
    if path in o.catalogue {
      ProjectSucceeds(t, w, emptied, run, g, path, true);
    } else {
      ProjectSucceeds(t, w, emptied.(catalogue := o.catalogue[path := package]), run, g, path, false);
    }
  }

  lemma ConcludeSucceeds(t: Tools, w: World, o: World, run: Run, g: Ground, found: Finding)
    requires JustOpened(w, o, run, g) && (found.Unfit? || found.Fit? ==> run.env.component.Some?)
    requires Conclude(t, o, run, g, found).ok
    ensures Tagged(run.env.load.artifactId)
    ensures var w' := Conclude(t, o, run, g, found).world;
            && Settled(w, w', run, g) && TargetOf(run) in w'.catalogue
            && w'.acquisitions[run.context.acquisitionId].artifact == Some(run.env.load.artifactId)
  {
    PublishSucceeds(t, w, o.(staging := o.staging + {StagingOf(run)}), run, g, found.package, TargetOf(run));
  }

  /**
   * A run that reports success has recorded its artifact in exactly one acquisition, used up its
   * decision, and left the package in the catalogue.
   */
  lemma SuccessMeans(t: Tools, w: World, run: Run)
    requires Stage(t, w, run).ok && run.context.acquisitionId !in w.acquisitions
    ensures Tagged(run.env.load.artifactId)
    ensures var w' := Stage(t, w, run).world;
            && Settled(w, w', run, GroundOf(w, run))
            && w'.acquisitions[run.context.acquisitionId].artifact == Some(run.env.load.artifactId)
            && TargetOf(run) in w'.catalogue
  {
    var g := GroundOf(w, run);
    ConcludeSucceeds(t, w, Opened(w, run), run, g, Examine(t, run, g));
  }

  // ---- the staging area ----------------------------------------------------

  /** The run's own directory has been added, and nothing else. */
  predicate JustStaged(w: World, o: World, run: Run) {
    StagingOf(run) !in w.staging && o.staging == w.staging + {StagingOf(run)}
  }

  /** Store writes and removals all work. */
  predicate Tidy(e: Env) { StoreWorks(e) && e.cleanupWorks && e.stagingRemoved }

  lemma TerminalStaging(o: World, run: Run, g: Ground, a: Acquisition)
    ensures Terminal(o, run, g, a).world.staging == o.staging
  {
  }

  lemma CleanedStaging(w: World, o: World, run: Run, g: Ground, a: Acquisition)
    requires JustOpened(w, o, run, g) && JustStaged(w, o, run) && Tidy(run.env)
    ensures Cleaned(Terminal(o, run, g, a), run).world.staging == w.staging
  {
    TerminalSettles(w, o, run, g, a);
    TerminalStaging(o, run, g, a);
  }

  lemma ProjectStaging(t: Tools, o: World, run: Run, g: Ground, path: PackagePath, preexisting: bool)
    requires run.env.component.Some?
    ensures Project(t, o, run, g, path, preexisting).world.staging == o.staging
  {
    var artifact := run.env.load.artifactId;
    var recorded := RecordVerified(o, run, artifact, path, Observed(t, run, g, Verified, Some(artifact)));
    TerminalStaging(TakenBack(recorded.world, run, path, preexisting), run, g, Observed(t, run, g, Verified, None));
  }

  lemma PublishStaging(t: Tools, w: World, o: World, run: Run, g: Ground, package: Package, path: PackagePath)
    requires JustOpened(w, o, run, g) && JustStaged(w, o, run) && Tidy(run.env) && run.env.component.Some?
    ensures Publish(t, o, run, g, package, path).world.staging == w.staging
  {
    var emptied := o.(staging := o.staging - {StagingOf(run)});
    CleanedStaging(w, o, run, g, Observed(t, run, g, Verified, None));
    ProjectStaging(t, emptied, run, g, path, true);
    ProjectStaging(t, emptied.(catalogue := o.catalogue[path := package]), run, g, path, false);
  }

  lemma StagedStaging(t: Tools, w: World, o: World, run: Run, g: Ground, package: Package)
    requires JustOpened(w, o, run, g) && JustStaged(w, o, run) && Tidy(run.env) && run.env.component.Some?
    ensures Staged(t, o, run, g, package).world.staging == w.staging
  {
    CleanedStaging(w, o, run, g, Observed(t, run, g, Rejected, None));
    CleanedStaging(w, o, run, g, Observed(t, run, g, Verified, None));
    if Tagged(run.env.load.artifactId) {
      PublishStaging(t, w, o, run, g, package, TargetOf(run));
    }
  }

  lemma ConcludeStaging(t: Tools, w: World, o: World, run: Run, g: Ground, found: Finding)
    requires JustOpened(w, o, run, g) && o.staging == w.staging && Tidy(run.env)
    requires found.Unfit? || found.Fit? ==> run.env.component.Some?
    ensures Conclude(t, o, run, g, found).world.staging == w.staging
  {
    TerminalStaging(o, run, g, Record(run, g));
    if found.Unfit? || found.Fit? {
      TerminalStaging(o, run, g, Observed(t, run, g, Rejected, None));
    }
    if found.Fit? && StagingOf(run) !in w.staging {
      StagedStaging(t, w, o.(staging := o.staging + {StagingOf(run)}), run, g, found.package);
    }
  }

  /** With working store writes and removals, no run leaves a staging directory behind or takes another's. */
  lemma StagingIsEmptied(t: Tools, w: World, run: Run)
    requires Tidy(run.env) && run.context.acquisitionId !in w.acquisitions
    ensures Stage(t, w, run).world.staging == w.staging
  {
    if ReachesEvaluation(w, run) {
      ConcludeStaging(t, w, Opened(w, run), run, GroundOf(w, run), Examine(t, run, GroundOf(w, run)));
    }
  }
}
