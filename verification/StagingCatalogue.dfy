/** The catalogue over any sequence of staging runs. */
module StagingCatalogue {
  import opened Wrappers
  import opened Text
  import opened AcquisitionAuthority
  import opened Staging
  import opened StagingTheorems

  // ---- nothing is replaced -------------------------------------------------

  /** Every package and every record of `w` is still there, unchanged. */
  predicate Keeps(w: World, w': World) {
    && (forall p :: p in w.catalogue ==> p in w'.catalogue && w'.catalogue[p] == w.catalogue[p])
    && (forall id :: id in w.acquisitions ==> id in w'.acquisitions && w'.acquisitions[id] == w.acquisitions[id])
  }

  lemma TerminalKeeps(w: World, o: World, run: Run, g: Ground, a: Acquisition)
    requires Keeps(w, o)
    ensures Keeps(w, Terminal(o, run, g, a).world) && Keeps(w, Cleaned(Terminal(o, run, g, a), run).world)
  {
  }

  lemma ProjectKeeps(t: Tools, w: World, o: World, run: Run, g: Ground, path: PackagePath, preexisting: bool)
    requires Keeps(w, o) && run.env.component.Some? && (!preexisting ==> path !in w.catalogue)
    ensures Keeps(w, Project(t, o, run, g, path, preexisting).world)
  {
    var artifact := run.env.load.artifactId;
    var recorded := RecordVerified(o, run, artifact, path, Observed(t, run, g, Verified, Some(artifact)));
    assert Keeps(w, recorded.world);
    TerminalKeeps(w, TakenBack(recorded.world, run, path, preexisting), run, g, Observed(t, run, g, Verified, None));
  }

  lemma PublishKeeps(t: Tools, w: World, o: World, run: Run, g: Ground, package: Package, path: PackagePath)
    requires Keeps(w, o) && run.env.component.Some? && o.catalogue == w.catalogue
    ensures Keeps(w, Publish(t, o, run, g, package, path).world)
  {
    var emptied := o.(staging := o.staging - {StagingOf(run)});
    TerminalKeeps(w, o, run, g, Observed(t, run, g, Verified, None));
    ProjectKeeps(t, w, emptied, run, g, path, true);
    if path !in w.catalogue {
      ProjectKeeps(t, w, emptied.(catalogue := o.catalogue[path := package]), run, g, path, false);
    }
  }

  lemma StagedKeeps(t: Tools, w: World, o: World, run: Run, g: Ground, package: Package)
    requires Keeps(w, o) && run.env.component.Some? && o.catalogue == w.catalogue
    ensures Keeps(w, Staged(t, o, run, g, package).world)
  {
    TerminalKeeps(w, o, run, g, Observed(t, run, g, Rejected, None));
    TerminalKeeps(w, o, run, g, Observed(t, run, g, Verified, None));
    if Tagged(run.env.load.artifactId) {
      PublishKeeps(t, w, o, run, g, package, TargetOf(run));
    }
  }

  lemma ConcludeKeeps(t: Tools, w: World, o: World, run: Run, g: Ground, found: Finding)
    requires Keeps(w, o) && o.catalogue == w.catalogue && (found.Unfit? || found.Fit? ==> run.env.component.Some?)
    ensures Keeps(w, Conclude(t, o, run, g, found).world)
  {
    TerminalKeeps(w, o, run, g, Record(run, g));
    if found.Unfit? || found.Fit? {
      TerminalKeeps(w, o, run, g, Observed(t, run, g, Rejected, None));
    }
    if found.Fit? {
      StagedKeeps(t, w, o.(staging := o.staging + {StagingOf(run)}), run, g, found.package);
    }
  }

  /** Whatever fails, a run leaves every package and every record of before as it was. */
  lemma RunKeeps(t: Tools, w: World, run: Run)
    ensures Keeps(w, Stage(t, w, run).world)
  {
    ConcludeKeeps(t, w, Opened(w, run), run, GroundOf(w, run), Examine(t, run, GroundOf(w, run)));
  }

  /** The catalogue and the records are append-only over every sequence of runs. */
  lemma {:induction false} NeverReplaced(t: Tools, w: World, runs: seq<Run>)
    ensures Keeps(w, After(t, w, runs))
    decreases |runs|
  {
    if runs != [] {
      RunKeeps(t, w, runs[0]);
      NeverReplaced(t, Stage(t, w, runs[0]).world, runs[1..]);
    }
  }

  // ---- a package stays exactly when its artifact was recorded --------------

  /** The run has recorded an acquisition that names an artifact. */
  predicate NamesArtifact(w: World, w': World, id: string) {
    id !in w.acquisitions && id in w'.acquisitions && w'.acquisitions[id].artifact.Some?
  }

  predicate Commits(w: World, run: Run, path: PackagePath) {
    run.env.reopens && !CommitRefused(w, run, run.env.load.artifactId, path)
  }

  /** A new package is left where it is: the store was not reopened, or the artifact was committed and read back. */
  predicate Stays(w: World, run: Run, path: PackagePath) {
    || !run.env.reopens
    || (!CommitRefused(w, run, run.env.load.artifactId, path) && !ReadBackRefused(w, run, run.env.load.artifactId, path))
  }

  lemma TerminalNamesNone(w: World, o: World, run: Run, g: Ground, a: Acquisition)
    requires a.artifact.None? && o.acquisitions == w.acquisitions
    ensures var r := Terminal(o, run, g, a);
            r.world.catalogue == o.catalogue && !NamesArtifact(w, r.world, run.context.acquisitionId)
    ensures var r := Cleaned(Terminal(o, run, g, a), run);
            r.world.catalogue == o.catalogue && !NamesArtifact(w, r.world, run.context.acquisitionId)
  {
  }

  /** A committed acquisition stays as it was written, whatever comes after. */
  lemma CommittedStays(t: Tools, o: World, run: Run, g: Ground, path: PackagePath, preexisting: bool)
    requires run.env.component.Some? && Commits(o, run, path)
    ensures Project(t, o, run, g, path, preexisting).world.acquisitions ==
            o.acquisitions[run.context.acquisitionId := Observed(t, run, g, Verified, Some(run.env.load.artifactId))]
  {
  }

  /** What the last phase records, for every pattern of failures. */
  lemma ProjectNames(t: Tools, w: World, o: World, run: Run, g: Ground, path: PackagePath, preexisting: bool)
    requires o.acquisitions == w.acquisitions && o.artifacts == w.artifacts && o.packages == w.packages
    requires run.env.component.Some?
    ensures var w' := Project(t, o, run, g, path, preexisting).world;
            NamesArtifact(w, w', run.context.acquisitionId) <==> Commits(w, run, path)
  {
    SameStore(w, o, run, path);
    if Commits(w, run, path) {
      CommittedStays(t, o, run, g, path, preexisting);
    } else if run.env.reopens {
      TerminalNamesNone(w, TakenBack(o, run, path, preexisting), run, g, Observed(t, run, g, Verified, None));
    }
  }

  lemma TerminalCatalogue(w: World, run: Run, g: Ground, a: Acquisition)
    ensures Terminal(w, run, g, a).world.catalogue == w.catalogue
  {
  }

  lemma ProjectLeaves(t: Tools, w: World, o: World, run: Run, g: Ground, path: PackagePath, preexisting: bool)
    requires o.acquisitions == w.acquisitions && o.artifacts == w.artifacts && o.packages == w.packages
    requires run.env.component.Some? && run.env.cleanupWorks
    ensures Project(t, o, run, g, path, preexisting).world.catalogue ==
            if !preexisting && !Stays(w, run, path) then o.catalogue - {path} else o.catalogue
  {
    SameStore(w, o, run, path);
    var artifact := run.env.load.artifactId;
    var recorded := RecordVerified(o, run, artifact, path, Observed(t, run, g, Verified, Some(artifact)));
    TerminalCatalogue(TakenBack(recorded.world, run, path, preexisting), run, g, Observed(t, run, g, Verified, None));
  }

  // The phases before it: who names an artifact, and what the catalogue is then.

  lemma PublishNames(t: Tools, w: World, o: World, run: Run, g: Ground, package: Package, path: PackagePath)
    requires o.acquisitions == w.acquisitions && o.artifacts == w.artifacts && o.packages == w.packages
    requires run.env.component.Some?
    ensures var w' := Publish(t, o, run, g, package, path).world;
            var projected := if path in o.catalogue then run.env.existingLoadsAgain && run.env.stagingRemoved
                             else run.env.publishes;
            NamesArtifact(w, w', run.context.acquisitionId) <==> projected && Commits(w, run, path)
  {
    var emptied := o.(staging := o.staging - {StagingOf(run)});
    TerminalNamesNone(w, o, run, g, Observed(t, run, g, Verified, None));
    ProjectNames(t, w, emptied, run, g, path, true);
    ProjectNames(t, w, emptied.(catalogue := o.catalogue[path := package]), run, g, path, false);
  }

  lemma PublishLeaves(t: Tools, w: World, o: World, run: Run, g: Ground, package: Package, path: PackagePath)
    requires o.acquisitions == w.acquisitions && o.artifacts == w.artifacts && o.packages == w.packages
    requires run.env.component.Some? && run.env.cleanupWorks
    ensures Publish(t, o, run, g, package, path).world.catalogue ==
            if path !in o.catalogue && run.env.publishes && Stays(w, run, path)
            then o.catalogue[path := package] else o.catalogue
  {
    var emptied := o.(staging := o.staging - {StagingOf(run)});
    TerminalCatalogue(o, run, g, Observed(t, run, g, Verified, None));
    ProjectLeaves(t, w, emptied, run, g, path, true);
    ProjectLeaves(t, w, emptied.(catalogue := o.catalogue[path := package]), run, g, path, false);
    assert path !in o.catalogue ==> o.catalogue[path := package] - {path} == o.catalogue;
  }

  lemma PresentNames(t: Tools, w: World, o: World, run: Run, g: Ground, package: Package)
    requires o.acquisitions == w.acquisitions && o.artifacts == w.artifacts && o.packages == w.packages
    requires o.catalogue == w.catalogue && run.env.component.Some? && Tagged(run.env.load.artifactId)
    ensures NamesArtifact(w, Present(t, o, run, g, package).world, run.context.acquisitionId) <==>
            Accepted(w, run) && Commits(w, run, TargetOf(run))
  {
    TerminalNamesNone(w, o, run, g, Observed(t, run, g, Verified, None));
    PublishNames(t, w, o, run, g, package, TargetOf(run));
  }

  lemma PresentLeaves(t: Tools, w: World, o: World, run: Run, g: Ground, package: Package)
    requires o.acquisitions == w.acquisitions && o.artifacts == w.artifacts && o.packages == w.packages
    requires o.catalogue == w.catalogue && run.env.component.Some? && Tagged(run.env.load.artifactId)
    requires run.env.cleanupWorks
    ensures Present(t, o, run, g, package).world.catalogue ==
            if && Accepted(w, run) && TargetOf(run) !in w.catalogue
               && Stays(w, run, TargetOf(run))
            then w.catalogue[TargetOf(run) := package] else w.catalogue
  {
    TerminalCatalogue(o, run, g, Observed(t, run, g, Verified, None));
    PublishLeaves(t, w, o, run, g, package, TargetOf(run));
  }

  lemma StagedNames(t: Tools, w: World, o: World, run: Run, g: Ground, package: Package)
    requires o.acquisitions == w.acquisitions && o.artifacts == w.artifacts && o.packages == w.packages
    requires o.catalogue == w.catalogue && run.env.component.Some?
    ensures NamesArtifact(w, Staged(t, o, run, g, package).world, run.context.acquisitionId) <==>
            Shown(w, run) && Accepted(w, run) && Commits(w, run, TargetOf(run))
  {
    TerminalNamesNone(w, o, run, g, Observed(t, run, g, Rejected, None));
    TerminalNamesNone(w, o, run, g, Observed(t, run, g, Verified, None));
    if Tagged(run.env.load.artifactId) {
      PresentNames(t, w, o, run, g, package);
    }
  }

  lemma StagedLeaves(t: Tools, w: World, o: World, run: Run, g: Ground, package: Package)
    requires o.acquisitions == w.acquisitions && o.artifacts == w.artifacts && o.packages == w.packages
    requires o.catalogue == w.catalogue && run.env.component.Some? && run.env.cleanupWorks
    ensures Staged(t, o, run, g, package).world.catalogue ==
            if && Shown(w, run) && Accepted(w, run) && TargetOf(run) !in w.catalogue
               && Stays(w, run, TargetOf(run))
            then w.catalogue[TargetOf(run) := package] else w.catalogue
  {
    TerminalCatalogue(o, run, g, Observed(t, run, g, Rejected, None));
    TerminalCatalogue(o, run, g, Observed(t, run, g, Verified, None));
    if Tagged(run.env.load.artifactId) {
      PresentLeaves(t, w, o, run, g, package);
    }
  }

  /** An artifact is recorded exactly by the runs that got through to an unrefused transaction. */
  lemma NamedIff(t: Tools, w: World, run: Run)
    ensures NamesArtifact(w, Stage(t, w, run).world, run.context.acquisitionId) <==>
            AtProjection(t, w, run) && Commits(w, run, TargetOf(run))
  {
    if ReachesEvaluation(w, run) {
      ConcludeNames(t, w, Opened(w, run), run, GroundOf(w, run), Examine(t, run, GroundOf(w, run)));
    }
  }

  lemma ConcludeNames(t: Tools, w: World, o: World, run: Run, g: Ground, found: Finding)
    requires o.acquisitions == w.acquisitions && o.artifacts == w.artifacts && o.packages == w.packages
    requires o.catalogue == w.catalogue && o.staging == w.staging
    requires found.Unfit? || found.Fit? ==> run.env.component.Some?
    ensures NamesArtifact(w, Conclude(t, o, run, g, found).world, run.context.acquisitionId) <==>
            && found.Fit? && StagingOf(run) !in w.staging
            && Shown(w, run) && Accepted(w, run) && Commits(w, run, TargetOf(run))
  {
    TerminalNamesNone(w, o, run, g, Record(run, g));
    if found.Unfit? || found.Fit? {
      TerminalNamesNone(w, o, run, g, Observed(t, run, g, Rejected, None));
    }
    if found.Fit? {
      StagedNames(t, w, o.(staging := o.staging + {StagingOf(run)}), run, g, found.package);
    }
  }

  lemma ConcludeLeaves(t: Tools, w: World, o: World, run: Run, g: Ground, found: Finding)
    requires o.acquisitions == w.acquisitions && o.artifacts == w.artifacts && o.packages == w.packages
    requires o.catalogue == w.catalogue && o.staging == w.staging && run.env.cleanupWorks
    requires found.Unfit? || found.Fit? ==> run.env.component.Some?
    ensures Conclude(t, o, run, g, found).world.catalogue ==
            if && found.Fit? && StagingOf(run) !in w.staging
               && Shown(w, run) && Accepted(w, run) && TargetOf(run) !in w.catalogue
               && Stays(w, run, TargetOf(run))
            then w.catalogue[TargetOf(run) := found.package] else w.catalogue
  {
    TerminalCatalogue(o, run, g, Record(run, g));
    if found.Unfit? || found.Fit? {
      TerminalCatalogue(o, run, g, Observed(t, run, g, Rejected, None));
    }
    if found.Fit? {
      StagedLeaves(t, w, o.(staging := o.staging + {StagingOf(run)}), run, g, found.package);
    }
  }

  /** The package of a run is new in the catalogue afterwards. */
  predicate NewPackage(w: World, w': World, run: Run) {
    Tagged(run.env.load.artifactId) && TargetOf(run) !in w.catalogue && TargetOf(run) in w'.catalogue
  }

  lemma CatalogueAfter(t: Tools, w: World, run: Run)
    requires run.env.cleanupWorks
    ensures Stage(t, w, run).world.catalogue ==
            if && AtProjection(t, w, run) && TargetOf(run) !in w.catalogue
               && Stays(w, run, TargetOf(run))
            then w.catalogue[TargetOf(run) := Examine(t, run, GroundOf(w, run)).package] else w.catalogue
  {
    if ReachesEvaluation(w, run) {
      ConcludeLeaves(t, w, Opened(w, run), run, GroundOf(w, run), Examine(t, run, GroundOf(w, run)));
    }
  }

  /**
   * The run places a package that was not there, and then the store cannot be reopened, so that the
   * package stays unrecorded; or its record is read back under another path, so that it is removed.
   */
  predicate Strays(t: Tools, w: World, run: Run) {
    && AtProjection(t, w, run) && TargetOf(run) !in w.catalogue
    && (!run.env.reopens || LateConflict(w, run, TargetOf(run)))
  }

  /**
   * With working removals, a package that was not there before is in the catalogue after the run
   * exactly when the run recorded its artifact, exactly unless the run strays.
   */
  lemma NewPackageIff(t: Tools, w: World, run: Run)
    requires run.env.cleanupWorks
    ensures var w' := Stage(t, w, run).world;
            var unseen := Tagged(run.env.load.artifactId) && TargetOf(run) !in w.catalogue;
            (unseen ==> (NewPackage(w, w', run) <==> NamesArtifact(w, w', run.context.acquisitionId))) <==>
            !Strays(t, w, run)
    ensures forall p :: p in Stage(t, w, run).world.catalogue && p !in w.catalogue ==>
              Tagged(run.env.load.artifactId) && p == TargetOf(run)
  {
    CatalogueAfter(t, w, run);
    NamedIff(t, w, run);
  }
}
