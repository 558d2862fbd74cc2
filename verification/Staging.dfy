/**
 * Staging an artifact: `stage_artifact_with_context_and_observer` of
 * crates/mct-daemon/src/acquisition.rs with the store operations it uses
 * (crates/mct-daemon/src/state.rs), as one function of the world before the run, the
 * request and the outcome of every step that can fail.
 */
module Staging {
  import opened Wrappers
  import opened Text
  import opened AcquisitionAuthority
  import HttpText

  type bytes = HttpText.bytes

  // ---- what a run is given -------------------------------------------------

  datatype Request = Request(
    childName: string, version: string, publisher: Option<string>,
    expectedDigest: Option<string>, expectedManifestDigest: Option<string>,
    sourceRoot: string, manifestPath: string, componentPath: Option<string>,
    childrenDir: string, requireSidecars: bool, standingId: Option<string>)

  datatype Context = Context(
    acquisitionId: string, decisionId: string,
    adapterStart: string, acquisitionObservation: string, verificationObservation: string)

  datatype Proof = Proof(source: SourceAuthority, digest: string)

  datatype Manifest = Manifest(name: string, version: string, wasm: Option<string>, operations: seq<string>)

  /** The immutable facts of an artifact, apart from its id. */
  datatype Facts = Facts(text: string, acquisitionBacked: bool)

  /** What the strict loader says of the staged directory. */
  datatype Load = Load(loaded: nat, failed: nat, artifactId: string, facts: string)

  datatype Setup = Setup(effectUid: nat, claimUid: nat, now: int, expiresAt: int)

  datatype Projection = NoFault | FaultBeforeCommit | FaultAfterCommit

  /** The outcome of everything outside the program's control, in the order it is met. */
  datatype Env = Env(
    opens: bool,                      // absolute source root and first opening of the store
    root: Option<string>,             // the canonical source root
    decisionSaved: bool,
    setup: Option<Setup>,             // user ids and clock
    rootIsDirectory: bool,
    standingRootHolds: bool,          // the authority's root resolves and contains the source root
    manifestResolves: bool,
    manifest: Option<bytes>,
    componentResolves: bool,
    component: Option<bytes>,
    sidecarsMatch: bool,
    canonical: Option<bytes>,         // the manifest written again for the package
    staged: bool,                     // all four files written
    load: Load,
    existingLoads: bool,              // an existing package loads as this artifact: before the observer
    observerAccepts: bool,
    existingLoadsAgain: bool,         // and after it
    stagingRemoved: bool,
    publishes: bool,                  // the rename into the catalogue
    reopens: bool,
    projection: Projection,
    reopensAgain: bool,
    recordWorks: bool,                // terminal store writes
    consumeWorks: bool,
    cleanupWorks: bool)               // removals whose failure is ignored

  datatype Run = Run(request: Request, context: Context, proof: Option<Proof>, env: Env)

  /** Hashing and parsing. */
  datatype Tools = Tools(blake3: bytes -> string, sha256: bytes -> string, parse: bytes -> Option<Manifest>)

  // ---- what a run changes --------------------------------------------------

  datatype Verification = Verified | Rejected | NotReached

  datatype Acquisition = Acquisition(
    standingId: Option<string>, decisionId: Option<string>, adapterStart: string, sourceRef: string,
    childName: string, version: string, size: Option<nat>, digest: Option<string>,
    acquired: bool, verification: Verification, verificationObservation: Option<string>,
    acquisitionObservation: string, artifact: Option<string>)

  /** Open is the source's active; withdrawn stands for revoked and expired. */
  datatype DecisionState = Open | Consumed | Withdrawn

  datatype PackagePath = PackagePath(childrenDir: string, digest: string)
  datatype StagingPath = StagingPath(childrenDir: string, name: string)
  datatype Package = Package(manifest: bytes, component: bytes)

  datatype World = World(
    sources: map<string, Proof>,
    acquisitions: map<string, Acquisition>,
    decisions: map<string, DecisionState>,
    artifacts: map<string, Facts>,
    packages: map<string, PackagePath>,
    catalogue: map<PackagePath, Package>,
    staging: set<StagingPath>)

  /** A new world and whether the step went through. */
  datatype Outcome = Outcome(world: World, ok: bool)

  // ---- before the authority is evaluated -----------------------------------

  predicate TaggedDigest(tag: string, value: string) {
    StartsWith(value, tag) && |value| == |tag| + 64 && LowerHex(value[|tag|..])
  }

  predicate RelativePath(path: string) { path != [] && path[0] != '/' && ".." !in Split(path, '/') }

  /** What path comparison looks at: empty and `.` components do not count, except a leading `.`. */
  function Components(path: string): seq<string> {
    var parts := Split(path, '/');
    (if parts[0] == "." then ["."] else []) + Named(parts)
  }

  function Named(parts: seq<string>): seq<string> {
    if parts == [] then []
    else (if parts[0] == "" || parts[0] == "." then [] else [parts[0]]) + Named(parts[1..])
  }

  predicate WellFormed(r: Request) {
    && !Blank(r.childName) && !Blank(r.version)
    && (r.expectedDigest.Some? ==> TaggedDigest("blake3:", r.expectedDigest.value))
    && (r.expectedDigest.Some? == r.expectedManifestDigest.Some?)
    && (r.expectedManifestDigest.Some? ==> TaggedDigest("sha256:", r.expectedManifestDigest.value))
    && RelativePath(r.manifestPath)
    && (r.componentPath.Some? ==> RelativePath(r.componentPath.value))
  }

  /** On whose authority the run acts. */
  datatype Ground = Refused | Operator | Standing(source: SourceAuthority)

  function GroundOf(w: World, run: Run): Ground {
    match run.request.standingId
    case Some(id) =>
      if run.proof.Some? && run.proof.value.source.id == id && id in w.sources && w.sources[id] == run.proof.value
      then Standing(run.proof.value.source)
      else Refused
    case None => if run.proof.Some? then Refused else Operator
  }

  const FILE := "file://"

  function SourceRef(run: Run, g: Ground): string {
    if g.Standing? then g.source.sourceRef
    else FILE + (if run.env.root.Some? then run.env.root.value else run.request.sourceRoot)
  }

  predicate Admitted(w: World, run: Run) {
    var g := GroundOf(w, run);
    && WellFormed(run.request) && run.env.opens && g != Refused
    && (g == Operator ==> run.env.decisionSaved && run.context.decisionId !in w.decisions)
  }

  /** The world once the operator's decision is recorded. */
  function Opened(w: World, run: Run): World {
    if GroundOf(w, run) == Operator then w.(decisions := w.decisions[run.context.decisionId := Open]) else w
  }

  predicate ReachesEvaluation(w: World, run: Run) { Admitted(w, run) && run.env.setup.Some? }

  function DecisionOf(run: Run, g: Ground): Option<Decision> {
    var r := run.request;
    if g.Standing? then None
    else Some(Decision(run.context.decisionId, SourceRef(run, g), r.childName, r.version,
                       r.expectedDigest, r.expectedManifestDigest, 1))
  }

  function StandingOf(g: Ground): Option<SourceAuthority> { if g.Standing? then Some(g.source) else None }

  function EffectOf(run: Run, g: Ground, s: Setup): Effect {
    Effect(ADAPTER, s.effectUid, SourceRef(run, g), READ_AND_STAGE, 1, run.context.acquisitionId, s.expiresAt)
  }

  function ClaimsOf(run: Run, g: Ground, s: Setup, namespaces: seq<string>): Claims {
    var r := run.request;
    Claims(SourceRef(run, g), Identity(r.childName, r.version), r.publisher, r.expectedDigest, r.expectedManifestDigest,
           s.claimUid, namespaces, "acquire", 1, s.now, run.context.acquisitionId)
  }

  function FirstNamespaces(g: Ground): seq<string> {
    if g.Standing? then g.source.scope.namespaces else ["operator-pointed"]
  }

  predicate Allowed(run: Run, g: Ground) {
    && run.env.setup.Some?
    && var s := run.env.setup.value;
       Evaluate(ClaimsOf(run, g, s, FirstNamespaces(g)), StandingOf(g), DecisionOf(run, g), EffectOf(run, g, s)).Ok?
  }

  /** The second evaluation, for a standing source only, with the namespaces of the manifest. */
  predicate StillAllowed(run: Run, g: Ground, namespaces: seq<string>) {
    g.Standing? ==>
      && run.env.setup.Some?
      && var s := run.env.setup.value;
         Evaluate(ClaimsOf(run, g, s, namespaces), StandingOf(g), None, EffectOf(run, g, s)).Ok?
  }

  // ---- reading and judging -------------------------------------------------

  datatype Finding =
    | Unread                           // recorded as failed
    | Foreign                          // a standing source that is no file URL: left unrecorded
    | Unfit                            // recorded as rejected
    | Fit(package: Package)

  function ParsedManifest(t: Tools, run: Run): Option<Manifest> {
    if run.env.manifest.Some? && HttpText.Utf8(run.env.manifest.value) then t.parse(run.env.manifest.value) else None
  }

  /** The component the request names, or else the one the manifest declares. */
  function Selected(t: Tools, run: Run): Option<string> {
    if run.request.componentPath.Some? then run.request.componentPath
    else
      var m := ParsedManifest(t, run);
      if m.Some? && m.value.wasm.Some? && RelativePath(m.value.wasm.value) then m.value.wasm else None
  }

  predicate RootHolds(run: Run) { run.env.root.Some? && run.env.rootIsDirectory }

  predicate Readable(t: Tools, run: Run, g: Ground) {
    && (g.Standing? ==> run.env.standingRootHolds)
    && run.env.manifestResolves && Selected(t, run).Some? && run.env.componentResolves
    && run.env.manifest.Some? && run.env.component.Some?
  }

  predicate PinsHold(t: Tools, run: Run)
    requires run.env.manifest.Some? && run.env.component.Some?
  {
    var r := run.request;
    && (r.expectedDigest.Some? ==> r.expectedDigest.value == t.blake3(run.env.component.value))
    && (r.expectedManifestDigest.Some? ==> r.expectedManifestDigest.value == t.sha256(run.env.manifest.value))
  }

  predicate ManifestFits(t: Tools, run: Run, g: Ground, m: Manifest) {
    && m.name == run.request.childName && m.version == run.request.version
    && Namespaces(m.operations).Some?
    && StillAllowed(run, g, Namespaces(m.operations).value)
    && (m.wasm.Some? ==>
          && RelativePath(m.wasm.value) && Selected(t, run).Some?
          && Components(m.wasm.value) == Components(Selected(t, run).value))
    && run.env.canonical.Some?
  }

  predicate Fits(t: Tools, run: Run, g: Ground)
    requires run.env.manifest.Some? && run.env.component.Some?
  {
    && (run.request.requireSidecars ==> run.env.sidecarsMatch)
    && PinsHold(t, run)
    && ParsedManifest(t, run).Some?
    && ManifestFits(t, run, g, ParsedManifest(t, run).value)
  }

  function Examine(t: Tools, run: Run, g: Ground): Finding {
    if !Allowed(run, g) || !RootHolds(run) then Unread
    else if g.Standing? && !StartsWith(g.source.sourceRef, FILE) then Foreign
    else if !Readable(t, run, g) then Unread
    else if !Fits(t, run, g) then Unfit
    else Fit(Package(run.env.canonical.value, run.env.component.value))
  }

  // ---- the records ---------------------------------------------------------

  function Record(run: Run, g: Ground): Acquisition {
    var c := run.context;
    Acquisition(if g.Standing? then Some(g.source.id) else None, if g.Standing? then None else Some(c.decisionId),
                c.adapterStart, SourceRef(run, g), run.request.childName, run.request.version,
                None, None, false, NotReached, None, c.acquisitionObservation, None)
  }

  function Observed(t: Tools, run: Run, g: Ground, v: Verification, artifact: Option<string>): Acquisition
    requires run.env.component.Some?
  {
    var component := run.env.component.value;
    Record(run, g).(size := Some(|component|), digest := Some(t.blake3(component)), acquired := true,
                    verification := v, verificationObservation := Some(run.context.verificationObservation),
                    artifact := artifact)
  }

  // ---- store operations ----------------------------------------------------

  /** `consume_operator_acquisition_decision` */
  function Consume(w: World, run: Run): Outcome {
    var id := run.context.decisionId;
    if run.env.consumeWorks && id in w.decisions && w.decisions[id] == Open
    then Outcome(w.(decisions := w.decisions[id := Consumed]), true)
    else Outcome(w, false)
  }

  /** `record_terminal`: one record, then the decision is used up. */
  function Terminal(w: World, run: Run, g: Ground, a: Acquisition): Outcome {
    var id := run.context.acquisitionId;
    if !run.env.recordWorks || id in w.acquisitions then Outcome(w, false)
    else
      var recorded := w.(acquisitions := w.acquisitions[id := a]);
      if g.Standing? then Outcome(recorded, true) else Consume(recorded, run)
  }

  /** The transaction of `record_verified_acquisition_and_artifact` is refused. */
  predicate CommitRefused(w: World, run: Run, artifact: string, path: PackagePath) {
    || (artifact in w.artifacts && w.artifacts[artifact] != Facts(run.env.load.facts, true))
    || run.env.projection == FaultBeforeCommit
    || run.context.acquisitionId in w.acquisitions
    || (artifact !in w.packages && exists other <- w.packages :: w.packages[other] == path)
  }

  /** It is committed, but what is read back is not what was written. */
  predicate ReadBackRefused(w: World, run: Run, artifact: string, path: PackagePath) {
    run.env.projection == FaultAfterCommit || (artifact in w.packages && w.packages[artifact] != path)
  }

  function Commit(w: World, run: Run, artifact: string, path: PackagePath, a: Acquisition): World {
    w.(acquisitions := w.acquisitions[run.context.acquisitionId := a],
       artifacts := w.artifacts[artifact := Facts(run.env.load.facts, true)],
       packages := if artifact in w.packages then w.packages else w.packages[artifact := path])
  }

  function RecordVerified(w: World, run: Run, artifact: string, path: PackagePath, a: Acquisition): Outcome {
    if CommitRefused(w, run, artifact, path) then Outcome(w, false)
    else Outcome(Commit(w, run, artifact, path, a), !ReadBackRefused(w, run, artifact, path))
  }

  // ---- staging and publishing ----------------------------------------------

  function Dashed(id: string): string {
    seq(|id|, k requires 0 <= k < |id| => if id[k] == ':' then '-' else id[k])
  }

  function StagingOf(run: Run): StagingPath { StagingPath(run.request.childrenDir, Dashed(run.context.acquisitionId)) }

  const SHA256 := "sha256:"

  predicate Tagged(artifact: string) { StartsWith(artifact, SHA256) }

  function PathOf(childrenDir: string, artifact: string): PackagePath
    requires Tagged(artifact)
  {
    PackagePath(childrenDir, artifact[|SHA256|..])
  }

  /** The staging directory goes after a terminal record that was written. */
  function Cleaned(o: Outcome, run: Run): Outcome {
    if o.ok && run.env.cleanupWorks
    then Outcome(o.world.(staging := o.world.staging - {StagingOf(run)}), false)
    else Outcome(o.world, false)
  }

  function Failing(o: Outcome): Outcome { Outcome(o.world, false) }

  predicate StrictlyLoaded(run: Run) { run.env.load.loaded == 1 && run.env.load.failed == 0 }

  /** A package that was not there before is removed again. */
  function TakenBack(w: World, run: Run, path: PackagePath, preexisting: bool): World {
    if !preexisting && run.env.cleanupWorks then w.(catalogue := w.catalogue - {path}) else w
  }

  /** After publication: the artifact is recorded, or the new package is taken back. */
  function Project(t: Tools, w: World, run: Run, g: Ground, path: PackagePath, preexisting: bool): Outcome
    requires run.env.component.Some?
  {
    if !run.env.reopens then Outcome(w, false)
    else
      var artifact := run.env.load.artifactId;
      var recorded := RecordVerified(w, run, artifact, path, Observed(t, run, g, Verified, Some(artifact)));
      if !recorded.ok then
        Failing(Terminal(TakenBack(recorded.world, run, path, preexisting), run, g, Observed(t, run, g, Verified, None)))
      else if g.Standing? then recorded
      else if !run.env.reopensAgain then Failing(recorded)
      else Consume(recorded.world, run)
  }

  /** The observer has accepted. */
  function Publish(t: Tools, w: World, run: Run, g: Ground, package: Package, path: PackagePath): Outcome
    requires run.env.component.Some?
  {
    var without := Observed(t, run, g, Verified, None);
    var emptied := w.(staging := w.staging - {StagingOf(run)});
    if path in w.catalogue then
      if !run.env.existingLoadsAgain then Cleaned(Terminal(w, run, g, without), run)
      else if !run.env.stagingRemoved then Failing(Terminal(w, run, g, without))
      else Project(t, emptied, run, g, path, true)
    else if !run.env.publishes then Cleaned(Terminal(w, run, g, without), run)
    else Project(t, emptied.(catalogue := w.catalogue[path := package]), run, g, path, false)
  }

  /** The staged package has passed the strict loader. */
  function Present(t: Tools, w: World, run: Run, g: Ground, package: Package): Outcome
    requires run.env.component.Some?
  {
    var without := Observed(t, run, g, Verified, None);
    var artifact := run.env.load.artifactId;
    if !Tagged(artifact) then Cleaned(Terminal(w, run, g, without), run)
    else
      var path := PathOf(run.request.childrenDir, artifact);
      if path in w.catalogue && !run.env.existingLoads then Cleaned(Terminal(w, run, g, without), run)
      else if !run.env.observerAccepts then
        var emptied := if run.env.cleanupWorks then w.(staging := w.staging - {StagingOf(run)}) else w;
        if g.Standing? then Outcome(emptied, false) else Failing(Consume(emptied, run))
      else Publish(t, w, run, g, package, path)
  }

  /** The staging directory has been written to. */
  function Staged(t: Tools, w: World, run: Run, g: Ground, package: Package): Outcome
    requires run.env.component.Some?
  {
    if !run.env.staged || !StrictlyLoaded(run)
    then Cleaned(Terminal(w, run, g, Observed(t, run, g, Rejected, None)), run)
    else Present(t, w, run, g, package)
  }

  /** What is done about a finding. */
  function Conclude(t: Tools, w: World, run: Run, g: Ground, found: Finding): Outcome
    requires found.Unfit? || found.Fit? ==> run.env.component.Some?
  {
    match found
    case Unread => Failing(Terminal(w, run, g, Record(run, g)))
    case Foreign => Outcome(w, false)
    case Unfit => Failing(Terminal(w, run, g, Observed(t, run, g, Rejected, None)))
    case Fit(package) =>
      if StagingOf(run) in w.staging then Failing(Terminal(w, run, g, Observed(t, run, g, Rejected, None)))
      else Staged(t, w.(staging := w.staging + {StagingOf(run)}), run, g, package)
  }

  /** One whole run. */
  function Stage(t: Tools, w: World, run: Run): Outcome {
    if !Admitted(w, run) then Outcome(w, false)
    else if run.env.setup.None? then Outcome(Opened(w, run), false)
    else Conclude(t, Opened(w, run), run, GroundOf(w, run), Examine(t, run, GroundOf(w, run)))
  }

  function After(t: Tools, w: World, runs: seq<Run>): World
    decreases |runs|
  {
    if runs == [] then w else After(t, Stage(t, w, runs[0]).world, runs[1..])
  }
}
