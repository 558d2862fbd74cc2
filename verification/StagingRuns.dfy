/** Sequences of staging runs: what is published, what it took, and where one directory is needed. */
module StagingRuns {
  import opened Wrappers
  import opened Text
  import opened AcquisitionAuthority
  import opened Staging
  import opened StagingTheorems
  import opened StagingCatalogue
  import opened StagingMeaning
  import HttpText

  // ---- published exactly when recorded, over every sequence ----------------

  /** The run records an artifact whose package goes to `p`. */
  predicate RecordsAt(t: Tools, w: World, run: Run, p: PackagePath) {
    && NamesArtifact(w, Stage(t, w, run).world, run.context.acquisitionId)
    && Tagged(run.env.load.artifactId) && TargetOf(run) == p
  }

  /** Some run of the sequence does. */
  predicate SomeRecordsAt(t: Tools, w: World, runs: seq<Run>, p: PackagePath)
    decreases |runs|
  {
    runs != [] && (RecordsAt(t, w, runs[0], p) || SomeRecordsAt(t, Stage(t, w, runs[0]).world, runs[1..], p))
  }

  /** The law: a package that was not there at first is there now exactly when some run recorded its artifact. */
  ghost predicate Published(t: Tools, w: World, runs: seq<Run>) {
    forall p :: p !in w.catalogue ==> (p in After(t, w, runs).catalogue <==> SomeRecordsAt(t, w, runs, p))
  }

  lemma {:induction false} AfterLast(t: Tools, w: World, runs: seq<Run>, run: Run)
    ensures After(t, w, runs + [run]) == Stage(t, After(t, w, runs), run).world
    decreases |runs|
  {
    var all := runs + [run];
    if runs == [] {
      assert all[1..] == [];
    } else {
      assert all[0] == runs[0] && all[1..] == runs[1..] + [run];
      AfterLast(t, Stage(t, w, runs[0]).world, runs[1..], run);
    }
  }

  lemma {:induction false} RecordsLast(t: Tools, w: World, runs: seq<Run>, run: Run, p: PackagePath)
    ensures SomeRecordsAt(t, w, runs + [run], p) <==> SomeRecordsAt(t, w, runs, p) || RecordsAt(t, After(t, w, runs), run, p)
    decreases |runs|
  {
    var all := runs + [run];
    if runs == [] {
      assert all[1..] == [];
    } else {
      assert all[0] == runs[0] && all[1..] == runs[1..] + [run];
      RecordsLast(t, Stage(t, w, runs[0]).world, runs[1..], run, p);
    }
  }

  /** One more run keeps the law exactly unless it strays. */
  lemma OneMore(t: Tools, w: World, runs: seq<Run>, run: Run)
    requires run.env.cleanupWorks && Published(t, w, runs)
    ensures Published(t, w, runs + [run]) <==> !Strays(t, After(t, w, runs), run)
  {
    var before := After(t, w, runs);
    var after := Stage(t, before, run).world;
    AfterLast(t, w, runs, run);
    NeverReplaced(t, w, runs);
    RunKeeps(t, before, run);
    NewPackageIff(t, before, run);
    NamedIff(t, before, run);
    if Strays(t, before, run) {
      StrayBreaks(t, w, runs, run);
    } else {
      forall p | p !in w.catalogue ensures p in after.catalogue <==> SomeRecordsAt(t, w, runs + [run], p) {
        RecordsLast(t, w, runs, run, p);
        if p !in before.catalogue { NewAtTarget(t, before, run, p); }
      }
    }
  }

  lemma NewAtTarget(t: Tools, w: World, run: Run, p: PackagePath)
    requires run.env.cleanupWorks && !Strays(t, w, run) && p !in w.catalogue
    ensures p in Stage(t, w, run).world.catalogue <==> RecordsAt(t, w, run, p)
  {
    NewPackageIff(t, w, run);
    NamedIff(t, w, run);
  }

  lemma StrayBreaks(t: Tools, w: World, runs: seq<Run>, run: Run)
    requires run.env.cleanupWorks && Published(t, w, runs) && Strays(t, After(t, w, runs), run)
    ensures !Published(t, w, runs + [run])
  {
    var before, p := After(t, w, runs), TargetOf(run);
    AfterLast(t, w, runs, run);
    NeverReplaced(t, w, runs);
    assert p !in w.catalogue;
    RecordsLast(t, w, runs, run, p);
    CatalogueAfter(t, before, run);
    NamedIff(t, before, run);
    assert p in After(t, w, runs + [run]).catalogue <==> !run.env.reopens;
    assert RecordsAt(t, before, run, p) <==> run.env.reopens;
  }

  /** No run strays from where the ones before it left the world. */
  ghost predicate NoneStrays(t: Tools, w: World, runs: seq<Run>)
    decreases |runs|
  {
    runs == [] ||
    (!Strays(t, After(t, w, runs[..|runs| - 1]), runs[|runs| - 1]) && NoneStrays(t, w, runs[..|runs| - 1]))
  }

  /** The law holds after the last run, and after every run before it. */
  ghost predicate PublishedThroughout(t: Tools, w: World, runs: seq<Run>)
    decreases |runs|
  {
    Published(t, w, runs) && (runs == [] || PublishedThroughout(t, w, runs[..|runs| - 1]))
  }

  /**
   * Over every sequence of runs whose removals succeed: at every point the new packages are those
   * whose artifact was recorded, exactly when no run strays.
   */
  lemma {:induction false} PublishedExactly(t: Tools, w: World, runs: seq<Run>)
    requires forall r <- runs :: r.env.cleanupWorks
    ensures PublishedThroughout(t, w, runs) <==> NoneStrays(t, w, runs)
    decreases |runs|
  {
    if runs != [] {
      var init, last := runs[..|runs| - 1], runs[|runs| - 1];
      assert runs == init + [last] && last in runs;
      PublishedExactly(t, w, init);
      if PublishedThroughout(t, w, init) {
        OneMore(t, w, init, last);
      }
    }
  }

  // ---- one children directory is enough ------------------------------------

  /** Every package on record is where this directory keeps its artifact. */
  predicate AllUnder(w: World, childrenDir: string) {
    forall a :: a in w.packages ==> Tagged(a) && w.packages[a] == PathOf(childrenDir, a)
  }

  predicate PackagesGrow(w: World, w': World, run: Run) {
    || w'.packages == w.packages
    || (Tagged(run.env.load.artifactId) && w'.packages == w.packages[run.env.load.artifactId := TargetOf(run)])
  }

  lemma TerminalPackages(w: World, run: Run, g: Ground, a: Acquisition)
    ensures Terminal(w, run, g, a).world.packages == w.packages
    ensures Cleaned(Terminal(w, run, g, a), run).world.packages == w.packages
  {
  }

  lemma ProjectPackages(t: Tools, w: World, run: Run, g: Ground, preexisting: bool)
    requires run.env.component.Some? && Tagged(run.env.load.artifactId)
    ensures PackagesGrow(w, Project(t, w, run, g, TargetOf(run), preexisting).world, run)
  {
    var artifact, path := run.env.load.artifactId, TargetOf(run);
    var recorded := RecordVerified(w, run, artifact, path, Observed(t, run, g, Verified, Some(artifact)));
    assert PackagesGrow(w, recorded.world, run);
    TerminalPackages(TakenBack(recorded.world, run, path, preexisting), run, g, Observed(t, run, g, Verified, None));
  }

  lemma PublishPackages(t: Tools, w: World, run: Run, g: Ground, package: Package)
    requires run.env.component.Some? && Tagged(run.env.load.artifactId)
    ensures PackagesGrow(w, Publish(t, w, run, g, package, TargetOf(run)).world, run)
  {
    var emptied := w.(staging := w.staging - {StagingOf(run)});
    TerminalPackages(w, run, g, Observed(t, run, g, Verified, None));
    ProjectPackages(t, emptied, run, g, true);
    ProjectPackages(t, emptied.(catalogue := w.catalogue[TargetOf(run) := package]), run, g, false);
  }

  lemma PresentPackages(t: Tools, w: World, run: Run, g: Ground, package: Package)
    requires run.env.component.Some?
    ensures PackagesGrow(w, Present(t, w, run, g, package).world, run)
  {
    TerminalPackages(w, run, g, Observed(t, run, g, Verified, None));
    if Tagged(run.env.load.artifactId) {
      PublishPackages(t, w, run, g, package);
    }
  }

  lemma ConcludePackages(t: Tools, w: World, run: Run, g: Ground, found: Finding)
    requires found.Unfit? || found.Fit? ==> run.env.component.Some?
    ensures PackagesGrow(w, Conclude(t, w, run, g, found).world, run)
  {
    TerminalPackages(w, run, g, Record(run, g));
    if found.Unfit? || found.Fit? {
      var staged := w.(staging := w.staging + {StagingOf(run)});
      TerminalPackages(w, run, g, Observed(t, run, g, Rejected, None));
      TerminalPackages(staged, run, g, Observed(t, run, g, Rejected, None));
      if found.Fit? {
        PresentPackages(t, staged, run, g, found.package);
      }
    }
  }

  lemma StagePackages(t: Tools, w: World, run: Run)
    ensures PackagesGrow(w, Stage(t, w, run).world, run)
  {
    ConcludePackages(t, Opened(w, run), run, GroundOf(w, run), Examine(t, run, GroundOf(w, run)));
  }

  /** With one children directory to a store, every package stays on record where that directory keeps it. */
  lemma {:induction false} OneDirectoryAgrees(t: Tools, w: World, runs: seq<Run>, childrenDir: string)
    requires AllUnder(w, childrenDir) && forall r <- runs :: r.request.childrenDir == childrenDir
    ensures AllUnder(After(t, w, runs), childrenDir)
    decreases |runs|
  {
    if runs != [] {
      assert runs[0] in runs;
      StagePackages(t, w, runs[0]);
      OneDirectoryAgrees(t, Stage(t, w, runs[0]).world, runs[1..], childrenDir);
    }
  }

  /** The store fails after a new package was placed: on reopening, or on reading back what it committed. */
  predicate StoreFails(t: Tools, w: World, run: Run) {
    && AtProjection(t, w, run) && TargetOf(run) !in w.catalogue
    && (!run.env.reopens || (run.env.projection == FaultAfterCommit && Commits(w, run, TargetOf(run))))
  }

  lemma StraysUnder(t: Tools, w: World, run: Run)
    requires AllUnder(w, run.request.childrenDir)
    ensures Strays(t, w, run) <==> StoreFails(t, w, run)
  {
  }

  ghost predicate StoreNeverFails(t: Tools, w: World, runs: seq<Run>)
    decreases |runs|
  {
    runs == [] ||
    (!StoreFails(t, After(t, w, runs[..|runs| - 1]), runs[|runs| - 1]) && StoreNeverFails(t, w, runs[..|runs| - 1]))
  }

  lemma {:induction false} StraysAllUnder(t: Tools, w: World, runs: seq<Run>, childrenDir: string)
    requires AllUnder(w, childrenDir) && forall r <- runs :: r.request.childrenDir == childrenDir
    ensures NoneStrays(t, w, runs) <==> StoreNeverFails(t, w, runs)
    decreases |runs|
  {
    if runs != [] {
      var init, last := runs[..|runs| - 1], runs[|runs| - 1];
      assert last in runs;
      StraysAllUnder(t, w, init, childrenDir);
      OneDirectoryAgrees(t, w, init, childrenDir);
      StraysUnder(t, After(t, w, init), last);
    }
  }

  /**
   * So there the law holds at every point exactly when the store never fails between a publication
   * and its record.
   */
  lemma OneDirectoryPublishes(t: Tools, w: World, runs: seq<Run>, childrenDir: string)
    requires AllUnder(w, childrenDir)
    requires forall r <- runs :: r.request.childrenDir == childrenDir && r.env.cleanupWorks
    ensures PublishedThroughout(t, w, runs) <==> StoreNeverFails(t, w, runs)
  {
    PublishedExactly(t, w, runs);
    StraysAllUnder(t, w, runs, childrenDir);
  }

  /** The store is lost on reopening, or an operator's is after it committed. */
  predicate StoreLost(t: Tools, w: World, run: Run) {
    && AtProjection(t, w, run)
    && (|| !run.env.reopens
        || (&& GroundOf(w, run).Operator? && Commits(w, run, TargetOf(run))
            && (run.env.projection == FaultAfterCommit || !run.env.reopensAgain)))
  }

  /**
   * There, and with file sources, every run that reaches the evaluation records exactly one
   * acquisition and uses up its decision, exactly unless the observer refuses, when none is
   * recorded and the decision is used up, or the store is lost.
   */
  lemma OneDirectorySettles(t: Tools, w: World, run: Run)
    requires ReachesEvaluation(w, run) && StoreWorks(run.env) && run.context.acquisitionId !in w.acquisitions
    requires AllUnder(w, run.request.childrenDir)
    requires GroundOf(w, run).Standing? ==> StartsWith(GroundOf(w, run).source.sourceRef, FILE)
    ensures var w', g := Stage(t, w, run).world, GroundOf(w, run);
            && (Settled(w, w', run, g) <==> !ObserverRefuses(t, w, run) && !StoreLost(t, w, run))
            && (ObserverRefuses(t, w, run) ==> RefusedUnrecorded(w, w', run, g))
  {
    SettledIff(t, w, run);
    if ObserverRefuses(t, w, run) {
      RefusalUsesDecision(t, w, run);
    }
  }

  // ---- what a recorded artifact has been through ---------------------------

  /** The k-th run earned the artifact whose package goes to `p`, from where the ones before it left the world. */
  ghost predicate EarnedBy(t: Tools, w: World, runs: seq<Run>, k: nat, p: PackagePath) {
    && k < |runs| && Earned(t, After(t, w, runs[..k]), runs[k])
    && Tagged(runs[k].env.load.artifactId) && TargetOf(runs[k]) == p
  }

  lemma EarnedLater(t: Tools, w: World, runs: seq<Run>, k: nat, p: PackagePath)
    requires runs != [] && EarnedBy(t, Stage(t, w, runs[0]).world, runs[1..], k, p)
    ensures EarnedBy(t, w, runs, k + 1, p)
  {
    var front := runs[..k + 1];
    assert front[0] == runs[0] && front[1..] == runs[1..][..k];
    assert runs[k + 1] == runs[1..][k];
  }

  /** Over a sequence of runs, whatever was recorded at a path was earned by one of them. */
  lemma {:induction false} PublishedIsEarned(t: Tools, w: World, runs: seq<Run>, p: PackagePath) returns (k: nat)
    requires SomeRecordsAt(t, w, runs, p)
    ensures EarnedBy(t, w, runs, k, p)
    decreases |runs|
  {
    if RecordsAt(t, w, runs[0], p) {
      RecordedIffEarned(t, w, runs[0]);
      k := 0;
    } else {
      var later := PublishedIsEarned(t, Stage(t, w, runs[0]).world, runs[1..], p);
      EarnedLater(t, w, runs, later, p);
      k := later + 1;
    }
  }

  // ---- the conditions are needed -------------------------------------------

  const ARTIFACT := "sha256:0"
  const MANIFEST := Manifest("c", "1", None, ["n:x/y"])

  function AnyTools(): Tools { Tools(_ => "", _ => "", _ => Some(MANIFEST)) }

  /** An operator's run into a directory, in which nothing fails but perhaps reopening the store. */
  function SimpleRun(childrenDir: string, id: string, reopens: bool): Run {
    Run(Request("c", "1", None, None, None, "/s", "m", Some("w"), childrenDir, false, None),
        Context(id, id, "", "", ""), None,
        Env(true, Some("/s"), true, Some(Setup(0, 0, 0, 1)), true, true, true, Some([]), true, Some([]), true, Some([]),
            true, Load(1, 0, ARTIFACT, "f"), true, true, true, true, true, reopens, NoFault, true, true, true, true))
  }

  function EmptyWorld(): World { World(map[], map[], map[], map[], map[], map[], {}) }

  lemma SimpleRunFits(childrenDir: string, id: string, reopens: bool)
    ensures Examine(AnyTools(), SimpleRun(childrenDir, id, reopens), Operator).Fit?
  {
    var t, run := AnyTools(), SimpleRun(childrenDir, id, reopens);
    assert HttpText.Utf8([]);
    assert ParsedManifest(t, run) == Some(MANIFEST);
    OneOperation();
  }

  lemma OneOperation()
    ensures Namespaces(MANIFEST.operations).Some?
  {
    var o := "n:x/y";
    assert o[3] == '/';
    assert FirstOf(o, '/') == 3;
    assert o[..3][1] == ':' && o[..3][0] == 'n';
    assert NamesOperation(o);
  }

  lemma SimpleRunReaches(w: World, childrenDir: string, id: string, reopens: bool)
    requires id !in w.decisions
    ensures var run := SimpleRun(childrenDir, id, reopens); ReachesEvaluation(w, run) && GroundOf(w, run) == Operator
  {
    assert !Blank("c") by { assert !IsWhitespace("c"[0]); }
    assert !Blank("1") by { assert !IsWhitespace("1"[0]); }
    assert Split("m", '/') == ["m"] && Split("w", '/') == ["w"];
  }

  lemma ArtifactTagged()
    ensures Tagged(ARTIFACT) && forall d :: PathOf(d, ARTIFACT) == PackagePath(d, "0")
  {
    assert ARTIFACT[..|SHA256|] == SHA256 && ARTIFACT[|SHA256|..] == "0";
  }

  lemma SimpleRunProjects(w: World, childrenDir: string, id: string, reopens: bool)
    requires id !in w.decisions && w.staging == {}
    ensures Tagged(ARTIFACT) && TargetOf(SimpleRun(childrenDir, id, reopens)) == PackagePath(childrenDir, "0")
    ensures AtProjection(AnyTools(), w, SimpleRun(childrenDir, id, reopens))
  {
    SimpleRunReaches(w, childrenDir, id, reopens);
    SimpleRunFits(childrenDir, id, reopens);
    ArtifactTagged();
  }

  /**
   * Removals and terminal writes all work, and yet a package stays in the catalogue that nothing
   * records, and the decision stays open: the store could not be reopened.
   */
  lemma OrphanPackage()
    ensures var t, w, run := AnyTools(), EmptyWorld(), SimpleRun("one", "a", false);
            var w' := Stage(t, w, run).world;
            && StoreWorks(run.env) && run.env.cleanupWorks && Strays(t, w, run)
            && NewPackage(w, w', run) && w'.acquisitions == w.acquisitions
            && !Settled(w, w', run, GroundOf(w, run)) && !Published(t, w, [run])
  {
    var t, w, run := AnyTools(), EmptyWorld(), SimpleRun("one", "a", false);
    SimpleRunProjects(w, "one", "a", false);
    SettledIff(t, w, run);
    CatalogueAfter(t, w, run);
    NothingRecorded(t, w, run);
    assert Published(t, w, []);
    StrayBreaks(t, w, [], run);
    assert [] + [run] == [run];
  }

  lemma NothingRecorded(t: Tools, w: World, run: Run)
    requires AtProjection(t, w, run) && !run.env.reopens
    ensures Stage(t, w, run).world.acquisitions == w.acquisitions
  {
  }

  /** Afterwards the artifact is on record in `one`. */
  lemma FirstRunLeaves()
    ensures var w := Stage(AnyTools(), EmptyWorld(), SimpleRun("one", "a", true)).world;
            OneHolds(w)
  {
    var t, run := AnyTools(), SimpleRun("one", "a", true);
    SimpleRunReaches(EmptyWorld(), "one", "a", true);
    SimpleRunFits("one", "a", true);
    ArtifactTagged();
    FitRunLeaves(t, Opened(EmptyWorld(), run), run, Examine(t, run, Operator).package);
  }

  lemma FitRunLeaves(t: Tools, o: World, run: Run, package: Package)
    requires run == SimpleRun("one", "a", true) && o == EmptyWorld().(decisions := map["a" := Open])
    requires Tagged(ARTIFACT) && PathOf("one", ARTIFACT) == PackagePath("one", "0")
    ensures var w := Conclude(t, o, run, Operator, Fit(package)).world;
            OneHolds(w)
  {
  }

  /**
   * One store, two children directories, one artifact staged into each: every step of both runs
   * succeeds, the second is recorded too, and yet its package is taken away again and its decision
   * stays open.
   */
  lemma TwoDirectoriesDisagree()
    ensures var t, first, second := AnyTools(), SimpleRun("one", "a", true), SimpleRun("two", "b", true);
            var w := After(t, EmptyWorld(), [first]);
            var w' := After(t, EmptyWorld(), [first, second]);
            && StoreWorks(second.env) && second.env.cleanupWorks && second.env.projection == NoFault
            && NamesArtifact(w, w', "b") && !NewPackage(w, w', second)
            && !Settled(w, w', second, GroundOf(w, second)) && !Published(t, EmptyWorld(), [first, second])
  {
    var t, first, second := AnyTools(), SimpleRun("one", "a", true), SimpleRun("two", "b", true);
    TwoRuns(t, EmptyWorld(), first, second);
    FirstRunLeaves();
    var w := After(t, EmptyWorld(), [first]);
    SecondRunStrays(w);
    SimpleRunReaches(w, "two", "b", true);
    RecordedAndRemoved(t, w, second);
    FirstIsPublished();
    BreaksSecond(t, EmptyWorld(), first, second);
  }

  lemma TwoRuns(t: Tools, w: World, first: Run, second: Run)
    ensures After(t, w, [first]) == Stage(t, w, first).world
    ensures After(t, w, [first, second]) == Stage(t, After(t, w, [first]), second).world
  {
    assert [first] == [] + [first] && [first, second] == [first] + [second];
    AfterLast(t, w, [], first);
    AfterLast(t, w, [first], second);
  }

  lemma BreaksSecond(t: Tools, w: World, first: Run, second: Run)
    requires second.env.cleanupWorks && Published(t, w, [first]) && Strays(t, After(t, w, [first]), second)
    ensures !Published(t, w, [first, second])
  {
    StrayBreaks(t, w, [first], second);
    assert [first] + [second] == [first, second];
  }

  /** What the first run leaves. */
  predicate OneHolds(w: World) {
    && w.packages == map[ARTIFACT := PackagePath("one", "0")] && w.artifacts == map[ARTIFACT := Facts("f", true)]
    && w.acquisitions.Keys == {"a"} && w.decisions.Keys == {"a"} && w.staging == {}
    && w.catalogue.Keys == {PackagePath("one", "0")}
  }

  lemma SecondRunStrays(w: World)
    requires OneHolds(w)
    ensures Strays(AnyTools(), w, SimpleRun("two", "b", true))
  {
    SimpleRunProjects(w, "two", "b", true);
    assert "b" !in w.acquisitions;
  }

  /** For every stray run whose store answered: the artifact is recorded, the package gone, the decision open. */
  lemma RecordedAndRemoved(t: Tools, w: World, run: Run)
    requires Strays(t, w, run) && run.env.reopens && run.env.cleanupWorks && StoreWorks(run.env)
    requires run.context.acquisitionId !in w.acquisitions && GroundOf(w, run).Operator?
    ensures var w' := Stage(t, w, run).world;
            && NamesArtifact(w, w', run.context.acquisitionId) && !NewPackage(w, w', run)
            && !Settled(w, w', run, GroundOf(w, run))
  {
    SettledIff(t, w, run);
    NamedIff(t, w, run);
    CatalogueAfter(t, w, run);
  }

  lemma FirstIsPublished()
    ensures Published(AnyTools(), EmptyWorld(), [SimpleRun("one", "a", true)])
  {
    var t, w, run := AnyTools(), EmptyWorld(), SimpleRun("one", "a", true);
    SimpleRunProjects(w, "one", "a", true);
    assert Published(t, w, []);
    OneMore(t, w, [], run);
    assert [] + [run] == [run];
  }
}
