/**
 * What a staging run is admitted for, finds, publishes and records, in terms of the request, the
 * bytes read and the outcome of each step alone.
 */
module StagingMeaning {
  import opened Wrappers
  import opened Text
  import opened AcquisitionAuthority
  import opened Staging
  import opened StagingTheorems
  import opened StagingCatalogue
  import HttpText

  // ---- requests ------------------------------------------------------------

  /** A pin is its tag followed by 64 lower-case hexadecimal digits. */
  lemma TaggedDigestIff(tag: string, value: string)
    ensures TaggedDigest(tag, value) <==>
            exists hex :: |hex| == 64 && value == tag + hex && forall c <- hex :: c in "0123456789abcdef"
  {
    if TaggedDigest(tag, value) {
      var hex := value[|tag|..];
      assert value == tag + hex;
      forall c | c in hex ensures c in "0123456789abcdef" { HexDigits(c); }
    }
    if hex :| |hex| == 64 && value == tag + hex && forall c <- hex :: c in "0123456789abcdef" {
      assert value[|tag|..] == hex && value[..|tag|] == tag;
      forall k | 0 <= k < |hex| ensures IsLowerHex(hex[k]) {
        assert hex[k] in hex;
        HexDigits(hex[k]);
      }
    }
  }

  lemma HexDigits(c: char)
    ensures IsLowerHex(c) <==> c in "0123456789abcdef"
  {
    var all := "0123456789abcdef";
    if IsLowerHex(c) {
      var k := if c <= '9' then c as int - '0' as int else c as int - 'a' as int + 10;
      assert all[k] == c;
    }
  }

  /** How deep below its start a path has come after these components. */
  function Depth(parts: seq<string>): int {
    if parts == [] then 0
    else
      var last := parts[|parts| - 1];
      Depth(parts[..|parts| - 1]) + (if last == ".." then -1 else if last == "" || last == "." then 0 else 1)
  }

  predicate NeverClimbs(parts: seq<string>) {
    forall i, j :: 0 <= i <= j <= |parts| ==> Depth(parts[..i]) <= Depth(parts[..j])
  }

  lemma DepthStep(parts: seq<string>, i: nat)
    requires i < |parts|
    ensures Depth(parts[..i + 1]) ==
            Depth(parts[..i]) + (if parts[i] == ".." then -1 else if parts[i] == "" || parts[i] == "." then 0 else 1)
  {
    assert parts[..i + 1][..i] == parts[..i];
  }

  lemma {:induction false} NoStepUp(parts: seq<string>, i: nat, j: nat)
    requires i <= j <= |parts| && ".." !in parts
    ensures Depth(parts[..i]) <= Depth(parts[..j])
    decreases j
  {
    if i < j {
      NoStepUp(parts, i, j - 1);
      DepthStep(parts, j - 1);
      assert parts[j - 1] in parts;
    }
  }

  /** A path is taken as relative exactly when it is not empty, does not start at the root and never climbs. */
  lemma RelativePathIff(path: string)
    ensures RelativePath(path) <==> path != [] && path[0] != '/' && NeverClimbs(Split(path, '/'))
  {
    var parts := Split(path, '/');
    if ".." in parts {
      var k :| 0 <= k < |parts| && parts[k] == "..";
      DepthStep(parts, k);
      assert Depth(parts[..k + 1]) < Depth(parts[..k]);
    } else {
      forall i, j | 0 <= i <= j <= |parts| ensures Depth(parts[..i]) <= Depth(parts[..j]) { NoStepUp(parts, i, j); }
    }
  }

  /** One more part at the end. */
  lemma {:induction false} SplitLast(s: string, c: char, last: string)
    requires c !in last
    ensures Split(s + [c] + last, c) == Split(s, c) + [last]
    decreases |s|
  {
    var k := FirstOf(s, c);
    SplitWhole(last, c);
    if k == |s| {
      SplitWhole(s, c);
      SplitFront(s, c, last);
    } else {
      assert s == s[..k] + [c] + s[k + 1..];
      SplitLast(s[k + 1..], c, last);
      LastBehind(s[..k], c, s[k + 1..], last);
    }
  }

  lemma Regrouped(p: string, c: char, rest: string, last: string)
    ensures (p + [c] + rest) + [c] + last == p + [c] + (rest + [c] + last)
  {
  }

  lemma LastBehind(p: string, c: char, rest: string, last: string)
    requires c !in p && Split(rest + [c] + last, c) == Split(rest, c) + [last]
    ensures Split(p + [c] + rest + [c] + last, c) == Split(p + [c] + rest, c) + [last]
  {
    Regrouped(p, c, rest, last);
    SplitFront(p, c, rest);
    SplitFront(p, c, rest + [c] + last);
  }

  lemma {:induction false} NamedLast(parts: seq<string>, name: string)
    ensures Named(parts + [name]) == Named(parts) + (if name == "" || name == "." then [] else [name])
    decreases |parts|
  {
    if parts == [] {
      assert [name][1..] == [];
    } else {
      assert (parts + [name])[1..] == parts[1..] + [name];
      NamedLast(parts[1..], name);
    }
  }

  /** The equations that determine the components by which paths are compared: empty ones and dots do not
      count, but a dot at the front does. */
  lemma ComponentsAre(path: string, name: string)
    requires '/' !in name
    ensures Components(path + ['/'] + name) == Components(path) + (if name == "" || name == "." then [] else [name])
    ensures Components(name) == if name == "" then [] else [name]
  {
    SplitLast(path, '/', name);
    NamedLast(Split(path, '/'), name);
    SplitWhole(name, '/');
    NamedLast([], name);
    assert [] + [name] == [name];
  }

  /** The staging name has no colon, and differs from the id in nothing else. */
  lemma StagingNameMeans(run: Run)
    ensures var id, name := run.context.acquisitionId, StagingOf(run).name;
            && ':' !in name && |name| == |id| && StagingOf(run).childrenDir == run.request.childrenDir
            && forall k :: 0 <= k < |id| && name[k] != id[k] ==> id[k] == ':' && name[k] == '-'
  {
  }

  predicate HasText(s: string) { exists k :: 0 <= k < |s| && !IsWhitespace(s[k]) }

  predicate SoundRequest(r: Request) {
    && HasText(r.childName) && HasText(r.version)
    && (r.expectedDigest.Some? <==> r.expectedManifestDigest.Some?)
    && (r.expectedDigest.Some? ==> TaggedDigest("blake3:", r.expectedDigest.value))
    && (r.expectedManifestDigest.Some? ==> TaggedDigest("sha256:", r.expectedManifestDigest.value))
    && RelativePath(r.manifestPath) && (r.componentPath.Some? ==> RelativePath(r.componentPath.value))
  }

  /** An operator's request comes without proof and with an unused decision. */
  predicate ByOperator(w: World, run: Run) {
    && run.request.standingId.None? && run.proof.None?
    && run.env.decisionSaved && run.context.decisionId !in w.decisions
  }

  /** A standing request names a source, proved by exactly what the store projects for it. */
  predicate BySource(w: World, run: Run, source: SourceAuthority) {
    && run.proof.Some? && run.proof.value.source == source
    && run.request.standingId == Some(source.id)
    && source.id in w.sources && w.sources[source.id] == run.proof.value
  }

  /** When a run is admitted, on whose authority, and that it otherwise changes nothing. */
  lemma AdmittedIff(t: Tools, w: World, run: Run)
    ensures Admitted(w, run) <==>
            && SoundRequest(run.request) && run.env.opens
            && (ByOperator(w, run) || (run.proof.Some? && BySource(w, run, run.proof.value.source)))
    ensures Admitted(w, run) ==>
              GroundOf(w, run) == if ByOperator(w, run) then Operator else Standing(run.proof.value.source)
    ensures !Admitted(w, run) ==> Stage(t, w, run) == Outcome(w, false)
  {
  }

  /** When an admitted run cannot learn its user or the time, the operator's decision stays open and nothing
      else happens. */
  lemma SetupLost(t: Tools, w: World, run: Run)
    requires Admitted(w, run) && run.env.setup.None?
    ensures var (w', id) := (Stage(t, w, run).world, run.context.decisionId);
            && !Stage(t, w, run).ok
            && w'.decisions.Keys == w.decisions.Keys + (if run.proof.None? then {id} else {})
            && (run.proof.None? ==> id !in w.decisions && w'.decisions[id] == Open)
            && (forall d <- w.decisions :: w'.decisions[d] == w.decisions[d])
            && w' == w.(decisions := w'.decisions)
  {
  }

  // ---- authority -----------------------------------------------------------

  predicate Listed(mode: ScopeMode, values: seq<string>, value: string) {
    value in values || (mode == ExplicitBroad && "*" in values)
  }

  /** The decision is for this very claim: the same source, identity, pins and policy. */
  predicate Binds(d: Decision, c: Claims) {
    && d.childName + "@" + d.version == c.artifact
    && d == Decision(d.id, c.sourceRef, d.childName, d.version, c.expectedDigest, c.expectedManifestDigest, c.policyRevision)
  }

  /** The standing source is current, of this reference and policy, and lists everything claimed. */
  predicate Sanctions(source: SourceAuthority, c: Claims) {
    var scope := source.scope;
    && source.state == Active && source.issuedAt <= c.now < source.expiresAt
    && source.sourceRef == c.sourceRef && source.policyRevision == c.policyRevision
    && source.integrityPolicy == "sha256-sidecars-v1"
    && Listed(scope.mode, scope.artifacts, c.artifact)
    && c.publisher.Some? && Listed(scope.mode, scope.publishers, c.publisher.value)
    && c.namespaces != [] && (forall n <- c.namespaces :: Listed(scope.mode, scope.namespaces, n))
    && c.action in scope.actions
  }

  /** A claim is granted exactly on one authority that covers it, with both pins or none, and with an effect
      that is in time and differs from what the claim asks for in nothing; the grant is for its source. */
  lemma GrantedIff(c: Claims, standing: Option<SourceAuthority>, operator: Option<Decision>, effect: Effect)
    ensures Evaluate(c, standing, operator, effect) == Ok(c.sourceRef) <==>
            && (c.expectedDigest.Some? <==> c.expectedManifestDigest.Some?)
            && (if standing.Some? then operator.None? && Sanctions(standing.value, c)
                else operator.Some? && Binds(operator.value, c))
            && effect == Effect("mct:artifact-acquisition/filesystem@1", c.uid, c.sourceRef, "read_and_stage",
                                c.policyRevision, c.attempt, effect.expiresAt)
            && c.now < effect.expiresAt
    ensures Evaluate(c, standing, operator, effect).Ok? ==> Evaluate(c, standing, operator, effect).value == c.sourceRef
  {
    if standing.Some? {
      var scope := standing.value.scope;
      assert forall n <- c.namespaces :: Permits(scope.mode, scope.namespaces, n) == Listed(scope.mode, scope.namespaces, n);
      if Sanctions(standing.value, c) { assert c.namespaces[0] in c.namespaces; }
    }
  }

  /** The source is current, keeps sidecars, and lists the artifact, its publisher and the action. */
  predicate Entitles(source: SourceAuthority, r: Request, now: int) {
    var scope := source.scope;
    && source.state == Active && source.issuedAt <= now < source.expiresAt
    && source.policyRevision == 1 && source.integrityPolicy == "sha256-sidecars-v1"
    && Listed(scope.mode, scope.artifacts, r.childName + "@" + r.version)
    && r.publisher.Some? && Listed(scope.mode, scope.publishers, r.publisher.value)
    && "acquire" in scope.actions && scope.namespaces != []
  }

  /** The user is the same at both readings, the minute is not over, and a standing source entitles. */
  predicate Entitled(run: Run) {
    && run.env.setup.Some?
    && var s := run.env.setup.value;
    && s.effectUid == s.claimUid && s.now < s.expiresAt
    && (run.proof.Some? ==> Entitles(run.proof.value.source, run.request, s.now))
  }

  lemma AllowedIff(w: World, run: Run)
    requires ReachesEvaluation(w, run)
    ensures Allowed(run, GroundOf(w, run)) <==> Entitled(run)
  {
    if GroundOf(w, run).Standing? { StandingAllowedIff(w, run); } else { OperatorAllowedIff(w, run); }
  }

  lemma StillAllowedIff(w: World, run: Run, namespaces: seq<string>)
    requires ReachesEvaluation(w, run) && Entitled(run) && GroundOf(w, run).Standing?
    ensures var scope := run.proof.value.source.scope;
            StillAllowed(run, GroundOf(w, run), namespaces) <==>
            namespaces != [] && forall n <- namespaces :: Listed(scope.mode, scope.namespaces, n)
  {
    var scope := run.proof.value.source.scope;
    assert forall n <- namespaces :: Permits(scope.mode, scope.namespaces, n) == Listed(scope.mode, scope.namespaces, n);
  }

  // ---- reading and judging -------------------------------------------------

  predicate RootFound(run: Run) { run.env.root.Some? && run.env.rootIsDirectory }

  predicate FileSource(run: Run) { run.proof.Some? ==> StartsWith(run.proof.value.source.sourceRef, "file://") }

  /** The manifest that was read, if it is UTF-8 and parses. */
  predicate Parses(t: Tools, run: Run, m: Manifest) {
    run.env.manifest.Some? && HttpText.Utf8(run.env.manifest.value) && t.parse(run.env.manifest.value) == Some(m)
  }

  /** The request's component or, failing that, the relative one the manifest declares. */
  ghost predicate Chosen(t: Tools, run: Run, path: string) {
    if run.request.componentPath.Some? then run.request.componentPath.value == path
    else exists m :: Parses(t, run, m) && m.wasm == Some(path) && RelativePath(path)
  }

  ghost predicate WasRead(t: Tools, run: Run) {
    && RootFound(run) && FileSource(run) && (run.proof.Some? ==> run.env.standingRootHolds)
    && run.env.manifestResolves && run.env.manifest.Some?
    && run.env.componentResolves && run.env.component.Some?
    && exists path :: Chosen(t, run, path)
  }

  predicate Pinned(t: Tools, run: Run)
    requires run.env.manifest.Some? && run.env.component.Some?
  {
    && (run.request.requireSidecars ==> run.env.sidecarsMatch)
    && (run.request.expectedDigest.Some? ==> t.blake3(run.env.component.value) == run.request.expectedDigest.value)
    && (run.request.expectedManifestDigest.Some? ==>
          t.sha256(run.env.manifest.value) == run.request.expectedManifestDigest.value)
  }

  /** The claimed identity, namespaces within a standing scope, and the component the manifest declares. */
  ghost predicate Describes(t: Tools, run: Run, m: Manifest) {
    && m.name == run.request.childName && m.version == run.request.version
    && m.operations != []
    && (forall o <- m.operations :: NamesOperation(o))
    && (run.proof.Some? ==>
          var scope := run.proof.value.source.scope;
          forall o <- m.operations :: Listed(scope.mode, scope.namespaces, Namespace(o)))
    && (m.wasm.Some? ==>
          && RelativePath(m.wasm.value)
          && exists path :: Chosen(t, run, path) && Components(path) == Components(m.wasm.value))
  }

  ghost predicate WasFit(t: Tools, run: Run) {
    && run.env.manifest.Some? && run.env.component.Some? && Pinned(t, run)
    && run.env.canonical.Some?
    && exists m :: Parses(t, run, m) && Describes(t, run, m)
  }

  lemma ChosenIs(t: Tools, run: Run, path: string)
    ensures Chosen(t, run, path) <==> Selected(t, run) == Some(path)
  {
    if Selected(t, run) == Some(path) && run.request.componentPath.None? {
      var m := ParsedManifest(t, run).value;
      assert Parses(t, run, m) && m.wasm == Some(path);
    }
  }

  lemma ReadableIff(t: Tools, w: World, run: Run)
    requires ReachesEvaluation(w, run)
    ensures WasRead(t, run) <==> RootHolds(run) && FileSource(run) && Readable(t, run, GroundOf(w, run))
  {
    if Selected(t, run).Some? { ChosenIs(t, run, Selected(t, run).value); }
    if path :| Chosen(t, run, path) { ChosenIs(t, run, path); }
  }

  lemma ScopedIff(w: World, run: Run, operations: seq<string>)
    requires ReachesEvaluation(w, run) && Entitled(run)
    ensures Namespaces(operations).Some? && StillAllowed(run, GroundOf(w, run), Namespaces(operations).value) <==>
            && operations != [] && (forall o <- operations :: NamesOperation(o))
            && (run.proof.Some? ==>
                  var scope := run.proof.value.source.scope;
                  forall o <- operations :: Listed(scope.mode, scope.namespaces, Namespace(o)))
  {
    NamespacesMean(operations);
    if Namespaces(operations).Some? && run.proof.Some? {
      var names, scope := Namespaces(operations).value, run.proof.value.source.scope;
      StillAllowedIff(w, run, names);
      if forall o <- operations :: Listed(scope.mode, scope.namespaces, Namespace(o)) {
        forall n | n in names ensures Listed(scope.mode, scope.namespaces, n) {
          var o :| o in operations && Namespace(o) == n;
        }
      }
      if forall n <- names :: Listed(scope.mode, scope.namespaces, n) {
        forall o | o in operations ensures Listed(scope.mode, scope.namespaces, Namespace(o)) {
          assert Namespace(o) in names;
        }
      }
    }
  }

  lemma DescribesIff(t: Tools, w: World, run: Run, m: Manifest)
    requires ReachesEvaluation(w, run) && Entitled(run)
    ensures ManifestFits(t, run, GroundOf(w, run), m) <==> Describes(t, run, m) && run.env.canonical.Some?
  {
    ScopedIff(w, run, m.operations);
    if Selected(t, run).Some? { ChosenIs(t, run, Selected(t, run).value); }
    if path :| Chosen(t, run, path) && m.wasm.Some? && Components(path) == Components(m.wasm.value) {
      ChosenIs(t, run, path);
    }
  }

  lemma FitsIff(t: Tools, w: World, run: Run)
    requires ReachesEvaluation(w, run) && Entitled(run) && run.env.manifest.Some? && run.env.component.Some?
    ensures Fits(t, run, GroundOf(w, run)) <==> WasFit(t, run)
  {
    if ParsedManifest(t, run).Some? {
      var m := ParsedManifest(t, run).value;
      assert Parses(t, run, m);
      DescribesIff(t, w, run, m);
    }
  }

  /** What a run that reaches the evaluation finds, and the package it makes of it. */
  lemma FindingMeans(t: Tools, w: World, run: Run)
    requires ReachesEvaluation(w, run)
    ensures var found := Examine(t, run, GroundOf(w, run));
            && (found.Foreign? <==> Entitled(run) && RootFound(run) && !FileSource(run))
            && (found.Fit? <==> Entitled(run) && WasRead(t, run) && WasFit(t, run))
            && (found.Unfit? <==> Entitled(run) && WasRead(t, run) && !WasFit(t, run))
            && (found.Fit? ==> run.env.canonical.Some? && run.env.component.Some?
                               && found.package.manifest == run.env.canonical.value
                               && found.package.component == run.env.component.value)
  {
    AllowedIff(w, run);
    ReadableIff(t, w, run);
    if Entitled(run) && WasRead(t, run) {
      FitsIff(t, w, run);
    }
  }

  // ---- what is published ---------------------------------------------------

  /** Anything new in the catalogue is this package at the run's own path. */
  predicate Places(w: World, w': World, run: Run, package: Package) {
    forall p :: p in w'.catalogue && p !in w.catalogue ==>
      Tagged(run.env.load.artifactId) && p == TargetOf(run) && w'.catalogue[p] == package
  }

  lemma ProjectPlaces(t: Tools, w: World, o: World, run: Run, g: Ground, path: PackagePath, preexisting: bool, package: Package)
    requires Places(w, o, run, package) && run.env.component.Some?
    ensures Places(w, Project(t, o, run, g, path, preexisting).world, run, package)
  {
    var artifact := run.env.load.artifactId;
    var recorded := RecordVerified(o, run, artifact, path, Observed(t, run, g, Verified, Some(artifact)));
    TerminalCatalogue(TakenBack(recorded.world, run, path, preexisting), run, g, Observed(t, run, g, Verified, None));
  }

  lemma PublishPlaces(t: Tools, w: World, o: World, run: Run, g: Ground, package: Package)
    requires o.catalogue == w.catalogue && run.env.component.Some? && Tagged(run.env.load.artifactId)
    ensures Places(w, Publish(t, o, run, g, package, TargetOf(run)).world, run, package)
  {
    var path := TargetOf(run);
    var emptied := o.(staging := o.staging - {StagingOf(run)});
    TerminalCatalogue(o, run, g, Observed(t, run, g, Verified, None));
    ProjectPlaces(t, w, emptied, run, g, path, true, package);
    ProjectPlaces(t, w, emptied.(catalogue := o.catalogue[path := package]), run, g, path, false, package);
  }

  lemma PresentPlaces(t: Tools, w: World, o: World, run: Run, g: Ground, package: Package)
    requires o.catalogue == w.catalogue && run.env.component.Some?
    ensures Places(w, Present(t, o, run, g, package).world, run, package)
  {
    TerminalCatalogue(o, run, g, Observed(t, run, g, Verified, None));
    if Tagged(run.env.load.artifactId) {
      PublishPlaces(t, w, o, run, g, package);
    }
  }

  lemma ConcludePlaces(t: Tools, w: World, o: World, run: Run, g: Ground, found: Finding)
    requires o.catalogue == w.catalogue && (found.Unfit? || found.Fit? ==> run.env.component.Some?)
    ensures var w' := Conclude(t, o, run, g, found).world;
            if found.Fit? then Places(w, w', run, found.package) else w'.catalogue == w.catalogue
  {
    TerminalCatalogue(o, run, g, Record(run, g));
    if found.Unfit? || found.Fit? {
      var staged := o.(staging := o.staging + {StagingOf(run)});
      TerminalCatalogue(o, run, g, Observed(t, run, g, Rejected, None));
      TerminalCatalogue(staged, run, g, Observed(t, run, g, Rejected, None));
      if found.Fit? {
        PresentPlaces(t, w, staged, run, g, found.package);
      }
    }
  }

  /**
   * Whatever fails, what is new in the catalogue after a run lies at the run's own path, holds the
   * rewritten manifest as its manifest and the acquired bytes as its component, and was entitled,
   * read and fit.
   */
  lemma PublishedContent(t: Tools, w: World, run: Run, p: PackagePath)
    requires p in Stage(t, w, run).world.catalogue && p !in w.catalogue
    ensures Tagged(run.env.load.artifactId) && p == TargetOf(run)
    ensures run.env.canonical.Some? && run.env.component.Some?
    ensures var package := Stage(t, w, run).world.catalogue[p];
            package.manifest == run.env.canonical.value && package.component == run.env.component.value
    ensures Entitled(run) && WasRead(t, run) && WasFit(t, run)
  {
    ConcludePlaces(t, w, Opened(w, run), run, GroundOf(w, run), Examine(t, run, GroundOf(w, run)));
    FindingMeans(t, w, run);
  }

  // ---- what is recorded ----------------------------------------------------

  /** The digest an artifact id is tagged with. */
  predicate HasDigest(run: Run, digest: string) { run.env.load.artifactId == "sha256:" + digest }

  /** A package at the path is the same artifact, before and after the observer; otherwise the new one gets there. */
  predicate Lands(w: World, run: Run, path: PackagePath) {
    if path in w.catalogue then run.env.existingLoads && run.env.existingLoadsAgain && run.env.stagingRemoved
    else run.env.publishes
  }

  /** The store takes the transaction: a new id, the facts on record if there are any, and a free path. */
  predicate Takes(w: World, run: Run, path: PackagePath) {
    var a := run.env.load.artifactId;
    && run.env.reopens && run.env.projection != FaultBeforeCommit
    && run.context.acquisitionId !in w.acquisitions
    && (a in w.artifacts ==> w.artifacts[a].text == run.env.load.facts && w.artifacts[a].acquisitionBacked)
    && (a in w.packages || forall other <- w.packages :: w.packages[other] != path)
  }

  /** Everything from the request to the store's transaction, in the order it is met. */
  ghost predicate Earned(t: Tools, w: World, run: Run) {
    && SoundRequest(run.request) && run.env.opens
    && (ByOperator(w, run) || (run.proof.Some? && BySource(w, run, run.proof.value.source)))
    && Entitled(run) && WasRead(t, run) && WasFit(t, run)
    && StagingOf(run) !in w.staging && run.env.staged && run.env.load.loaded == 1 && run.env.load.failed == 0
    && exists digest ::
         && HasDigest(run, digest)
         && run.env.observerAccepts
         && Lands(w, run, PackagePath(run.request.childrenDir, digest))
         && Takes(w, run, PackagePath(run.request.childrenDir, digest))
  }

  lemma DigestOf(run: Run, digest: string)
    ensures HasDigest(run, digest) <==>
            Tagged(run.env.load.artifactId) && TargetOf(run) == PackagePath(run.request.childrenDir, digest)
  {
    var id := run.env.load.artifactId;
    if Tagged(id) { assert id == id[..|SHA256|] + id[|SHA256|..]; }
    if HasDigest(run, digest) { assert id[..|SHA256|] == SHA256 && id[|SHA256|..] == digest; }
  }

  /**
   * For every pattern of failures: an artifact is recorded exactly when both pins, the claimed
   * identity, the namespace scope, the strict load, the observer's acceptance and every step
   * around them held.
   */
  lemma RecordedIffEarned(t: Tools, w: World, run: Run)
    ensures NamesArtifact(w, Stage(t, w, run).world, run.context.acquisitionId) <==> Earned(t, w, run)
  {
    NamedIff(t, w, run);
    AdmittedIff(t, w, run);
    if ReachesEvaluation(w, run) { FindingMeans(t, w, run); }
    if Tagged(run.env.load.artifactId) { DigestOf(run, TargetOf(run).digest); }
    if digest :| HasDigest(run, digest) { DigestOf(run, digest); }
    EarnedStore(t, w, run);
  }

  lemma EarnedStore(t: Tools, w: World, run: Run)
    ensures Tagged(run.env.load.artifactId) ==>
              (Takes(w, run, TargetOf(run)) <==> Commits(w, run, TargetOf(run)))
  {
  }

  predicate SameArtifacts(w: World, w': World) { w'.artifacts == w.artifacts && w'.packages == w.packages }

  lemma TerminalArtifacts(w: World, o: World, run: Run, g: Ground, a: Acquisition)
    requires SameArtifacts(w, o)
    ensures SameArtifacts(w, Terminal(o, run, g, a).world) && SameArtifacts(w, Cleaned(Terminal(o, run, g, a), run).world)
  {
  }

  /** The artifact with its facts, and its path if it had none. */
  predicate Adds(w: World, w': World, run: Run, path: PackagePath) {
    var a := run.env.load.artifactId;
    && w'.artifacts == w.artifacts[a := Facts(run.env.load.facts, true)]
    && w'.packages == if a in w.packages then w.packages else w.packages[a := path]
  }

  lemma CommittedArtifacts(t: Tools, w: World, o: World, run: Run, g: Ground, path: PackagePath, preexisting: bool)
    requires SameArtifacts(w, o) && o.acquisitions == w.acquisitions && run.env.component.Some? && Commits(w, run, path)
    ensures Adds(w, Project(t, o, run, g, path, preexisting).world, run, path)
  {
    SameStore(w, o, run, path);
  }

  lemma ProjectArtifacts(t: Tools, w: World, o: World, run: Run, g: Ground, path: PackagePath, preexisting: bool)
    requires SameArtifacts(w, o) && o.acquisitions == w.acquisitions && run.env.component.Some?
    ensures var w' := Project(t, o, run, g, path, preexisting).world;
            if Commits(w, run, path) then Adds(w, w', run, path) else SameArtifacts(w, w')
  {
    SameStore(w, o, run, path);
    if Commits(w, run, path) {
      CommittedArtifacts(t, w, o, run, g, path, preexisting);
    } else {
      TerminalArtifacts(w, TakenBack(o, run, path, preexisting), run, g, Observed(t, run, g, Verified, None));
    }
  }

  lemma PublishArtifacts(t: Tools, w: World, o: World, run: Run, g: Ground, package: Package)
    requires SameArtifacts(w, o) && o.acquisitions == w.acquisitions && o.catalogue == w.catalogue
    requires run.env.component.Some? && Tagged(run.env.load.artifactId)
    ensures var w' := Publish(t, o, run, g, package, TargetOf(run)).world;
            var projected := if TargetOf(run) in w.catalogue then run.env.existingLoadsAgain && run.env.stagingRemoved
                             else run.env.publishes;
            if projected && Commits(w, run, TargetOf(run)) then Adds(w, w', run, TargetOf(run)) else SameArtifacts(w, w')
  {
    var path := TargetOf(run);
    var emptied := o.(staging := o.staging - {StagingOf(run)});
    TerminalArtifacts(w, o, run, g, Observed(t, run, g, Verified, None));
    ProjectArtifacts(t, w, emptied, run, g, path, true);
    ProjectArtifacts(t, w, emptied.(catalogue := o.catalogue[path := package]), run, g, path, false);
  }

  lemma PresentArtifacts(t: Tools, w: World, o: World, run: Run, g: Ground, package: Package)
    requires SameArtifacts(w, o) && o.acquisitions == w.acquisitions && o.catalogue == w.catalogue
    requires run.env.component.Some? && Tagged(run.env.load.artifactId)
    ensures var w' := Present(t, o, run, g, package).world;
            if Accepted(w, run) && Commits(w, run, TargetOf(run)) then Adds(w, w', run, TargetOf(run)) else SameArtifacts(w, w')
  {
    TerminalArtifacts(w, o, run, g, Observed(t, run, g, Verified, None));
    PublishArtifacts(t, w, o, run, g, package);
  }

  lemma StagedArtifacts(t: Tools, w: World, o: World, run: Run, g: Ground, package: Package)
    requires SameArtifacts(w, o) && o.acquisitions == w.acquisitions && o.catalogue == w.catalogue
    requires run.env.component.Some?
    ensures var w' := Staged(t, o, run, g, package).world;
            if Shown(w, run) && Accepted(w, run) && Commits(w, run, TargetOf(run))
            then Adds(w, w', run, TargetOf(run)) else SameArtifacts(w, w')
  {
    TerminalArtifacts(w, o, run, g, Observed(t, run, g, Rejected, None));
    if Tagged(run.env.load.artifactId) {
      PresentArtifacts(t, w, o, run, g, package);
    } else {
      TerminalArtifacts(w, o, run, g, Observed(t, run, g, Verified, None));
    }
  }

  lemma ConcludeArtifacts(t: Tools, w: World, o: World, run: Run, g: Ground, found: Finding)
    requires SameArtifacts(w, o) && o.acquisitions == w.acquisitions && o.catalogue == w.catalogue && o.staging == w.staging
    requires found.Unfit? || found.Fit? ==> run.env.component.Some?
    ensures var w' := Conclude(t, o, run, g, found).world;
            if && found.Fit? && StagingOf(run) !in w.staging && Shown(w, run) && Accepted(w, run)
               && Commits(w, run, TargetOf(run))
            then Adds(w, w', run, TargetOf(run)) else SameArtifacts(w, w')
  {
    TerminalArtifacts(w, o, run, g, Record(run, g));
    if found.Unfit? || found.Fit? {
      TerminalArtifacts(w, o, run, g, Observed(t, run, g, Rejected, None));
    }
    if found.Fit? {
      StagedArtifacts(t, w, o.(staging := o.staging + {StagingOf(run)}), run, g, found.package);
    }
  }

  /** Earned is found fit, staged, shown, accepted and committed. */
  lemma EarnedSteps(t: Tools, w: World, run: Run)
    ensures Earned(t, w, run) <==>
            && ReachesEvaluation(w, run) && Examine(t, run, GroundOf(w, run)).Fit? && StagingOf(run) !in w.staging
            && Shown(w, run) && Accepted(w, run) && Commits(w, run, TargetOf(run))
  {
    RecordedIffEarned(t, w, run);
    NamedIff(t, w, run);
  }

  /** An earned artifact is on record with the loader's facts, at its path unless it had one; otherwise nothing
      changes there. */
  lemma ArtifactsAfter(t: Tools, w: World, run: Run)
    ensures var w' := Stage(t, w, run).world;
            if Earned(t, w, run) then Tagged(run.env.load.artifactId) && Adds(w, w', run, TargetOf(run))
            else SameArtifacts(w, w')
  {
    EarnedSteps(t, w, run);
    if ReachesEvaluation(w, run) {
      ConcludeArtifacts(t, w, Opened(w, run), run, GroundOf(w, run), Examine(t, run, GroundOf(w, run)));
    }
  }
}
