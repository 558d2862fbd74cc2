/**
 * Who may acquire an artifact, and for which WIT namespaces:
 * `evaluate_artifact_acquisition_authority` of crates/mct-kernel/src/artifact.rs and
 * `manifest_namespaces` of crates/mct-daemon/src/acquisition.rs.
 */
module AcquisitionAuthority {
  import opened Wrappers
  import opened Text
  import opened OrderedStrings

  datatype ScopeMode = Constrained | ExplicitBroad

  datatype Scope = Scope(
    mode: ScopeMode, artifacts: seq<string>, publishers: seq<string>, namespaces: seq<string>, actions: seq<string>)

  datatype SourceState = Pending | Active | Revoked | Expired | Superseded

  datatype SourceAuthority = SourceAuthority(
    id: string, sourceRef: string, scope: Scope, integrityPolicy: string, policyRevision: nat,
    state: SourceState, issuedAt: int, expiresAt: int)

  /** The operator's decision, as recorded just before the evaluation: active. */
  datatype Decision = Decision(
    id: string, sourceRef: string, childName: string, version: string,
    expectedDigest: Option<string>, expectedManifestDigest: Option<string>, policyRevision: nat)

  datatype Effect = Effect(
    adapter: string, uid: nat, sourceRef: string, action: string, policyRevision: nat, attempt: string, expiresAt: int)

  datatype Claims = Claims(
    sourceRef: string, artifact: string, publisher: Option<string>,
    expectedDigest: Option<string>, expectedManifestDigest: Option<string>,
    uid: nat, namespaces: seq<string>, action: string, policyRevision: nat, now: int, attempt: string)

  datatype Denial =
    | IncompleteDigestBinding
    | MissingSourceAuthority
    | AmbiguousSourceAuthority
    | SourceNotCurrentOrInScope
    | DecisionNotMatching
    | EffectNotMatching

  const ADAPTER := "mct:artifact-acquisition/filesystem@1"
  const READ_AND_STAGE := "read_and_stage"
  const SIDECARS := "sha256-sidecars-v1"

  function Identity(childName: string, version: string): string { childName + "@" + version }

  predicate Permits(mode: ScopeMode, values: seq<string>, value: string) {
    value in values || (mode == ExplicitBroad && "*" in values)
  }

  predicate InScope(scope: Scope, claims: Claims, publisher: string) {
    && scope.artifacts != [] && scope.publishers != [] && scope.namespaces != [] && scope.actions != []
    && Permits(scope.mode, scope.artifacts, claims.artifact)
    && Permits(scope.mode, scope.publishers, publisher)
    && claims.namespaces != []
    && (forall n <- claims.namespaces :: Permits(scope.mode, scope.namespaces, n))
    && claims.action in scope.actions
  }

  predicate SourceAllows(source: SourceAuthority, claims: Claims) {
    && claims.publisher.Some?
    && source.state == Active
    && source.sourceRef == claims.sourceRef
    && source.policyRevision == claims.policyRevision
    && source.issuedAt <= claims.now < source.expiresAt
    && source.integrityPolicy == SIDECARS
    && InScope(source.scope, claims, claims.publisher.value)
  }

  predicate DecisionAllows(decision: Decision, claims: Claims) {
    && decision.sourceRef == claims.sourceRef
    && Identity(decision.childName, decision.version) == claims.artifact
    && decision.expectedDigest == claims.expectedDigest
    && decision.expectedManifestDigest == claims.expectedManifestDigest
    && decision.policyRevision == claims.policyRevision
  }

  predicate EffectAllows(effect: Effect, claims: Claims) {
    && effect.adapter == ADAPTER
    && effect.uid == claims.uid
    && effect.sourceRef == claims.sourceRef
    && effect.action == READ_AND_STAGE
    && effect.policyRevision == claims.policyRevision
    && effect.attempt == claims.attempt
    && effect.expiresAt > claims.now
  }

  /** The source reference the granted capability is bound to, or why none was granted. */
  function Evaluate(claims: Claims, standing: Option<SourceAuthority>, operator: Option<Decision>, effect: Effect)
    : (r: Result<string, Denial>)
    ensures r.Ok? ==> r.value == claims.sourceRef
  {
    if claims.expectedDigest.Some? != claims.expectedManifestDigest.Some? then Err(IncompleteDigestBinding)
    else if standing.None? && operator.None? then Err(MissingSourceAuthority)
    else if standing.Some? && operator.Some? then Err(AmbiguousSourceAuthority)
    else if standing.Some? && !SourceAllows(standing.value, claims) then Err(SourceNotCurrentOrInScope)
    else if operator.Some? && !DecisionAllows(operator.value, claims) then Err(DecisionNotMatching)
    else if !EffectAllows(effect, claims) then Err(EffectNotMatching)
    else Ok(claims.sourceRef)
  }

  // ---- namespaces a manifest claims ----------------------------------------

  /** `split_once('/')` found a namespace part with a colon in it that is not blank. */
  predicate NamesOperation(operation: string) {
    var k := FirstOf(operation, '/');
    k < |operation| && ':' in operation[..k] && !Blank(operation[..k])
  }

  function Namespace(operation: string): string { operation[..FirstOf(operation, '/')] }

  /** A namespace with a colon and some text, up to the first slash. */
  lemma OperationIff(operation: string, namespace: string)
    ensures NamesOperation(operation) && Namespace(operation) == namespace <==>
            && ':' in namespace && '/' !in namespace && !Blank(namespace)
            && exists rest :: operation == namespace + ['/'] + rest
  {
    var k := FirstOf(operation, '/');
    if NamesOperation(operation) && Namespace(operation) == namespace {
      assert operation == namespace + ['/'] + operation[k + 1..];
    }
    if rest :| '/' !in namespace && operation == namespace + ['/'] + rest {
      FirstAfter(namespace, '/', rest);
      assert operation[..|namespace|] == namespace;
    }
  }

  predicate AllName(operations: seq<string>) { forall o <- operations :: NamesOperation(o) }

  /** The set that the loop fills, as the sequence it is collected into. */
  function Collected(operations: seq<string>): seq<string> {
    if operations == [] then []
    else Insert(Collected(operations[..|operations| - 1]), Namespace(operations[|operations| - 1]))
  }

  /** The namespaces of a manifest, or none when it is refused. */
  function Namespaces(operations: seq<string>): Option<seq<string>> {
    if AllName(operations) && operations != [] then Some(Collected(operations)) else None
  }

  lemma {:induction false} CollectedMeans(operations: seq<string>)
    ensures Ordered(Collected(operations))
    ensures forall n :: n in Collected(operations) <==> exists o :: o in operations && Namespace(o) == n
  {
    if operations != [] {
      var init, last := operations[..|operations| - 1], operations[|operations| - 1];
      CollectedMeans(init);
      InsertKeepsOrder(Collected(init), Namespace(last));
      InsertMembers(Collected(init), Namespace(last));
      assert operations == init + [last];
      forall n ensures n in Collected(operations) <==> exists o :: o in operations && Namespace(o) == n {
        if o :| o in operations && Namespace(o) == n { assert o == last || o in init; }
        if n == Namespace(last) { assert last in operations; }
        if n in Collected(init) {
          var o :| o in init && Namespace(o) == n;
          assert o in operations;
        }
      }
    }
  }

  /** Sorted, without repeats, exactly the namespaces of the operations; refused on the first malformed one. */
  lemma NamespacesMean(operations: seq<string>)
    ensures Namespaces(operations).Some? <==> operations != [] && forall o <- operations :: NamesOperation(o)
    ensures var r := Namespaces(operations);
            r.Some? ==>
              && r.value != [] && Ordered(r.value)
              && forall n :: n in r.value <==> exists o :: o in operations && Namespace(o) == n
  {
    CollectedMeans(operations);
    if Namespaces(operations).Some? {
      assert operations[0] in operations;
      assert Namespace(operations[0]) in Collected(operations);
    }
  }

  method ManifestNamespaces(operations: seq<string>) returns (r: Option<seq<string>>)
    ensures r == Namespaces(operations)
  {
    var namespaces: seq<string> := [];
    for i := 0 to |operations|
      invariant AllName(operations[..i])
      invariant namespaces == Collected(operations[..i])
    {
      var operation := operations[i];
      assert operation in operations;
      if !NamesOperation(operation) {
        return None;
      }
      namespaces := Insert(namespaces, Namespace(operation));
      assert operations[..i + 1][..i] == operations[..i];
      assert operations[..i + 1] == operations[..i] + [operation];
    }
    assert operations[..|operations|] == operations;
    NamespacesMean(operations);
    CollectedMeans(operations);
    if namespaces == [] {
      return None;
    }
    return Some(namespaces);
  }
}
