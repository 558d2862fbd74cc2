/**
 * Provenance markers in an observation's detail, and the reduced detail that keeps them:
 * `provenance` and `reduced_detail` of crates/mct-daemon/examples/federation_host.rs.
 */
module Provenance {
  import opened Wrappers
  import opened Text

  const KEYS: seq<string> := ["executed_on", "forwarded_from", "forwarded_to", "operation"]
  const EXECUTED_ON := 0

  type Markers = map<string, string>

  datatype MarkerError = Empty | Duplicate | Elsewhere | Malformed

  predicate Marks(part: string, key: string) { StartsWith(part, key + ":") }

  function MarkerValue(part: string, key: string): string
    requires Marks(part, key)
  {
    part[|key| + 1..]
  }

  predicate Contains(text: string, word: string) { exists i :: 0 <= i <= |text| && StartsWith(text[i..], word) }

  // ---- reading -------------------------------------------------------------

  function ReadKey(m: Markers, part: string, node: string, k: nat): Result<Markers, MarkerError>
    requires k < |KEYS|
  {
    var key := KEYS[k];
    if Marks(part, key) then
      var value := MarkerValue(part, key);
      if value == "" then Err(Empty)
      else if key in m then Err(Duplicate)
      else if k == EXECUTED_ON && value != node then Err(Elsewhere)
      else Ok(m[key := value])
    else if k == EXECUTED_ON && Contains(part, key + ":") then Err(Malformed)
    else Ok(m)
  }

  /** The first `n` keys looked for in one part. */
  function ReadKeys(m: Markers, part: string, node: string, n: nat): Result<Markers, MarkerError>
    requires n <= |KEYS|
  {
    if n == 0 then Ok(m)
    else
      match ReadKeys(m, part, node, n - 1)
      case Err(e) => Err(e)
      case Ok(m1) => ReadKey(m1, part, node, n - 1)
  }

  function ReadParts(parts: seq<string>, node: string): Result<Markers, MarkerError> {
    if parts == [] then Ok(map[])
    else
      match ReadParts(parts[..|parts| - 1], node)
      case Err(e) => Err(e)
      case Ok(m) => ReadKeys(m, parts[|parts| - 1], node, |KEYS|)
  }

  function MarkersOf(detail: string, node: string): Result<Markers, MarkerError> {
    ReadParts(Split(detail, ';'), node)
  }

  lemma {:induction false} FirstErrorStays(parts: seq<string>, node: string, n: nat)
    requires n <= |parts| && ReadParts(parts[..n], node).Err?
    ensures ReadParts(parts, node) == ReadParts(parts[..n], node)
    decreases |parts| - n
  {
    if n == |parts| {
      assert parts[..n] == parts;
    } else {
      assert parts[..n + 1][..n] == parts[..n];
      FirstErrorStays(parts, node, n + 1);
    }
  }

  lemma {:induction false} FirstKeyErrorStays(m: Markers, part: string, node: string, n: nat)
    requires n <= |KEYS| && ReadKeys(m, part, node, n).Err?
    ensures ReadKeys(m, part, node, |KEYS|) == ReadKeys(m, part, node, n)
    decreases |KEYS| - n
  {
    if n < |KEYS| { FirstKeyErrorStays(m, part, node, n + 1); }
  }

  /** The two nested loops. */
  method ReadProvenance(detail: string, node: string) returns (r: Result<Markers, MarkerError>)
    ensures r == MarkersOf(detail, node)
  {
    var parts := Split(detail, ';');
    var markers: Markers := map[];
    for i := 0 to |parts|
      invariant ReadParts(parts[..i], node) == Ok(markers)
    {
      var part := parts[i];
      assert parts[..i + 1][..i] == parts[..i];
      var before := markers;
      for k := 0 to |KEYS|
        invariant ReadKeys(before, part, node, k) == Ok(markers)
      {
        var step := ReadKey(markers, part, node, k);
        assert ReadKeys(before, part, node, k + 1) == step;
        if step.Err? {
          FirstKeyErrorStays(before, part, node, k + 1);
          FirstErrorStays(parts, node, i + 1);
          return step;
        }
        markers := step.value;
      }
    }
    assert parts[..|parts|] == parts;
    return Ok(markers);
  }

  // ---- what is accepted ----------------------------------------------------

  lemma KeysAreWords()
    ensures forall k :: 0 <= k < |KEYS| ==> ':' !in KEYS[k]
    ensures forall i, j :: 0 <= i < j < |KEYS| ==> KEYS[i] != KEYS[j]
  {
    assert |KEYS[0]| == 11 && |KEYS[1]| == 14 && |KEYS[2]| == 12 && |KEYS[3]| == 9;
  }

  /** The part before the colon says which key a part marks. */
  lemma MarksMeans(part: string, key: string)
    requires ':' !in key
    ensures Marks(part, key) <==> FirstOf(part, ':') < |part| && part[..FirstOf(part, ':')] == key
  {
    if Marks(part, key) {
      var rest := part[|key| + 1..];
      assert part == key + ":" + rest by {
        assert part == part[..|key| + 1] + rest;
      }
      FirstAfter(key, ':', rest);
      assert part[..|key|] == (key + ":")[..|key|] == key;
    }
    var k := FirstOf(part, ':');
    if k < |part| && part[..k] == key {
      assert part[..k + 1] == key + ":";
    }
  }

  /** A value that may stand for key number `k`, given what was read before. */
  predicate GoodPart(m: Markers, part: string, node: string, k: nat)
    requires k < |KEYS|
  {
    if Marks(part, KEYS[k]) then
      MarkerValue(part, KEYS[k]) != "" && KEYS[k] !in m && (k == EXECUTED_ON ==> MarkerValue(part, KEYS[k]) == node)
    else k == EXECUTED_ON ==> !Contains(part, KEYS[k] + ":")
  }

  /** The part marks key number `k`. */
  predicate MarksKey(part: string, k: nat) { k < |KEYS| && Marks(part, KEYS[k]) }

  /** What one part adds: nothing, or the marker it is. */
  predicate Added(m: Markers, m': Markers, part: string, n: nat)
    requires n <= |KEYS|
  {
    && (forall k :: 0 <= k < n && MarksKey(part, k) ==> m' == m[KEYS[k] := MarkerValue(part, KEYS[k])])
    && ((forall k :: 0 <= k < n ==> !MarksKey(part, k)) ==> m' == m)
  }

  lemma OneKey(part: string, i: nat, j: nat)
    requires MarksKey(part, i) && MarksKey(part, j)
    ensures i == j
  {
    KeysAreWords();
    MarksMeans(part, KEYS[i]);
    MarksMeans(part, KEYS[j]);
  }

  lemma {:induction false} KeysRead(m: Markers, part: string, node: string, n: nat)
    requires n <= |KEYS|
    ensures ReadKeys(m, part, node, n).Ok? <==> forall k :: 0 <= k < n ==> GoodPart(m, part, node, k)
    ensures ReadKeys(m, part, node, n).Ok? ==> Added(m, ReadKeys(m, part, node, n).value, part, n)
  {
    if n > 0 {
      KeysRead(m, part, node, n - 1);
      var r := ReadKeys(m, part, node, n - 1);
      if r.Ok? {
        LastKey(m, r.value, part, node, n - 1);
      }
    }
  }

  lemma LastKey(m: Markers, m1: Markers, part: string, node: string, k: nat)
    requires k < |KEYS| && Added(m, m1, part, k)
    ensures ReadKey(m1, part, node, k).Ok? <==> GoodPart(m, part, node, k)
    ensures ReadKey(m1, part, node, k).Ok? ==> Added(m, ReadKey(m1, part, node, k).value, part, k + 1)
  {
    if MarksKey(part, k) {
      forall j | 0 <= j < k ensures !MarksKey(part, j) {
        if MarksKey(part, j) { OneKey(part, j, k); }
      }
      assert m1 == m;
      forall j | 0 <= j < k + 1 && MarksKey(part, j) ensures j == k { OneKey(part, j, k); }
    }
  }

  // ---- the same by the word before the colon -------------------------------

  const EXECUTED: string := KEYS[EXECUTED_ON]

  predicate HasColon(part: string) { FirstOf(part, ':') < |part| }

  function Word(part: string): string { part[..FirstOf(part, ':')] }

  predicate IsMarker(part: string) { HasColon(part) && Word(part) in KEYS }

  function ValueOf(part: string): string
    requires HasColon(part)
  {
    part[FirstOf(part, ':') + 1..]
  }

  /** A marker has a value; the executor is this node and is named nowhere but at the front of a part. */
  predicate Fine(part: string, node: string) {
    && (IsMarker(part) ==> ValueOf(part) != "")
    && (if HasColon(part) && Word(part) == EXECUTED then ValueOf(part) == node else !Contains(part, EXECUTED + ":"))
  }

  lemma MarksWord(part: string, k: nat)
    requires k < |KEYS|
    ensures MarksKey(part, k) <==> HasColon(part) && Word(part) == KEYS[k]
    ensures MarksKey(part, k) ==> MarkerValue(part, KEYS[k]) == ValueOf(part)
  {
    KeysAreWords();
    MarksMeans(part, KEYS[k]);
  }

  predicate AllGood(m: Markers, part: string, node: string) { forall k :: 0 <= k < |KEYS| ==> GoodPart(m, part, node, k) }

  lemma OtherKeysGood(m: Markers, part: string, node: string, k: nat)
    requires MarksKey(part, k)
    ensures forall j :: 0 < j < |KEYS| && j != k ==> GoodPart(m, part, node, j)
    ensures k != EXECUTED_ON ==> !Marks(part, KEYS[EXECUTED_ON])
  {
    forall j | 0 <= j < |KEYS| && j != k ensures !Marks(part, KEYS[j]) {
      if MarksKey(part, j) { OneKey(part, j, k); }
    }
  }

  lemma MarkerGood(m: Markers, part: string, node: string, k: nat)
    requires MarksKey(part, k)
    ensures IsMarker(part) && Word(part) == KEYS[k] && MarkerValue(part, KEYS[k]) == ValueOf(part)
    ensures AllGood(m, part, node) <==> Fine(part, node) && Word(part) !in m
  {
    MarksWord(part, k);
    MarksWord(part, EXECUTED_ON);
    OtherKeysGood(m, part, node, k);
    assert AllGood(m, part, node) <==> GoodPart(m, part, node, k) && GoodPart(m, part, node, EXECUTED_ON);
  }

  lemma PlainGood(m: Markers, part: string, node: string)
    requires !IsMarker(part)
    ensures forall k :: 0 <= k < |KEYS| ==> !MarksKey(part, k)
    ensures AllGood(m, part, node) <==> Fine(part, node)
  {
    forall j | 0 <= j < |KEYS| ensures !MarksKey(part, j) {
      MarksWord(part, j);
      assert KEYS[j] in KEYS;
    }
    forall j | 0 < j < |KEYS| ensures GoodPart(m, part, node, j) { assert !MarksKey(part, j); }
    assert !MarksKey(part, EXECUTED_ON);
    MarksWord(part, EXECUTED_ON);
    assert AllGood(m, part, node) <==> GoodPart(m, part, node, EXECUTED_ON);
  }

  /** One part is taken when it is fine and marks nothing a second time; it adds its marker. */
  lemma PartRead(m: Markers, part: string, node: string)
    ensures ReadKeys(m, part, node, |KEYS|).Ok? <==> Fine(part, node) && (IsMarker(part) ==> Word(part) !in m)
    ensures ReadKeys(m, part, node, |KEYS|).Ok? ==>
              ReadKeys(m, part, node, |KEYS|).value == if IsMarker(part) then m[Word(part) := ValueOf(part)] else m
  {
    KeysRead(m, part, node, |KEYS|);
    assert ReadKeys(m, part, node, |KEYS|).Ok? <==> AllGood(m, part, node);
    if IsMarker(part) {
      var k :| 0 <= k < |KEYS| && KEYS[k] == Word(part);
      MarksWord(part, k);
      MarkerGood(m, part, node, k);
    } else {
      PlainGood(m, part, node);
    }
  }

  /** Every part is fine and no marker comes twice. */
  predicate Acceptable(parts: seq<string>, node: string) {
    && (forall p <- parts :: Fine(p, node))
    && (forall i, j :: 0 <= i < j < |parts| && IsMarker(parts[i]) && IsMarker(parts[j]) ==> Word(parts[i]) != Word(parts[j]))
  }

  /** The markers are those of the parts, each with its value. */
  predicate Reads(m: Markers, parts: seq<string>) {
    && (forall key :: key in m ==> exists p :: p in parts && IsMarker(p) && Word(p) == key)
    && (forall p :: p in parts && IsMarker(p) ==> Word(p) in m && m[Word(p)] == ValueOf(p))
  }

  lemma LastAcceptable(init: seq<string>, last: string, node: string, m: Markers)
    requires Acceptable(init, node) && Reads(m, init)
    ensures Acceptable(init + [last], node) <==> Fine(last, node) && (IsMarker(last) ==> Word(last) !in m)
  {
    var parts := init + [last];
    assert last in parts;
    assert parts[|init|] == last;
    if Acceptable(parts, node) && IsMarker(last) {
      forall p | p in init && IsMarker(p) ensures Word(p) != Word(last) {
        var i :| 0 <= i < |init| && init[i] == p;
        assert parts[i] == p;
      }
    }
    if Fine(last, node) && (IsMarker(last) ==> Word(last) !in m) {
      forall i, j | 0 <= i < j < |parts| && IsMarker(parts[i]) && IsMarker(parts[j]) ensures Word(parts[i]) != Word(parts[j]) {
        assert parts[i] == init[i];
        assert init[i] in init;
        if j < |init| { assert parts[j] == init[j]; }
      }
    }
  }

  /** Accepted exactly when acceptable, and then with the markers of the parts. */
  lemma {:induction false} ReadPartsIff(parts: seq<string>, node: string)
    ensures ReadParts(parts, node).Ok? <==> Acceptable(parts, node)
    ensures ReadParts(parts, node).Ok? ==> Reads(ReadParts(parts, node).value, parts)
  {
    if parts != [] {
      var init, last := parts[..|parts| - 1], parts[|parts| - 1];
      assert parts == init + [last];
      ReadPartsIff(init, node);
      if ReadParts(init, node).Ok? {
        var m := ReadParts(init, node).value;
        PartRead(m, last, node);
        LastAcceptable(init, last, node, m);
        if Acceptable(parts, node) {
          LastReads(init, last, m, ReadParts(parts, node).value);
        }
      } else if Acceptable(parts, node) {
        PrefixAcceptable(init, last, node);
      }
    }
  }

  lemma PrefixAcceptable(init: seq<string>, last: string, node: string)
    requires Acceptable(init + [last], node)
    ensures Acceptable(init, node)
  {
    var parts := init + [last];
    forall p | p in init ensures Fine(p, node) { assert p in parts; }
    assert forall i :: 0 <= i < |init| ==> init[i] == parts[i];
  }

  lemma LastReads(init: seq<string>, last: string, m: Markers, m': Markers)
    requires Reads(m, init) && (IsMarker(last) ==> Word(last) !in m)
    requires m' == if IsMarker(last) then m[Word(last) := ValueOf(last)] else m
    ensures Reads(m', init + [last])
  {
    var parts := init + [last];
    assert last in parts;
    forall key | key in m' ensures exists p :: p in parts && IsMarker(p) && Word(p) == key {
      if key in m {
        var p :| p in init && IsMarker(p) && Word(p) == key;
        assert p in parts;
      }
    }
    forall p | p in parts && IsMarker(p) ensures Word(p) in m' && m'[Word(p)] == ValueOf(p) {
      if p in init { assert Word(p) in m; }
    }
  }

  /** For every detail: what it takes to be accepted and what the accepted markers are. */
  lemma ProvenanceIff(detail: string, node: string)
    ensures MarkersOf(detail, node).Ok? <==> Acceptable(Split(detail, ';'), node)
    ensures MarkersOf(detail, node).Ok? ==> Reads(MarkersOf(detail, node).value, Split(detail, ';'))
  {
    ReadPartsIff(Split(detail, ';'), node);
  }

  // ---- reducing ------------------------------------------------------------

  /** The observation kinds that keep a reason of their own; the others keep none. */
  datatype Kind = PeerAdmitted | PeerRejected | PeerCallReplied | OtherKind

  const MESH_JOB := "local_mesh_job_"

  predicate KeepsWord(kind: Kind, word: string, m: Markers) {
    || word in m
    || (word == "hello_reason" && (kind == PeerAdmitted || kind == PeerRejected))
    || ((word == "remote_reply" || word == "remote_reason") && kind == PeerCallReplied)
    || word == "toy_grant_reason"
  }

  predicate Kept(kind: Kind, part: string, m: Markers) { HasColon(part) && KeepsWord(kind, Word(part), m) }

  function Filter(parts: seq<string>, keep: string -> bool): (kept: seq<string>)
    ensures forall p <- kept :: p in parts && keep(p)
  {
    if parts == [] then []
    else
      Filter(parts[..|parts| - 1], keep) + (if keep(parts[|parts| - 1]) then [parts[|parts| - 1]] else [])
  }

  function Keeping(kind: Kind, m: Markers): string -> bool { part => Kept(kind, part, m) }

  function Reduced(kind: Kind, detail: string, m: Markers): string {
    if StartsWith(detail, MESH_JOB) then detail else Join(Filter(Split(detail, ';'), Keeping(kind, m)), ';')
  }

  /** Dropping parts that mark nothing changes no marker. */
  lemma {:induction false} KeptRead(parts: seq<string>, keep: string -> bool, m: Markers, node: string)
    requires ReadParts(parts, node) == Ok(m) && forall p <- parts :: IsMarker(p) ==> keep(p)
    ensures ReadParts(Filter(parts, keep), node) == Ok(m)
  {
    if parts != [] {
      var init, last := parts[..|parts| - 1], parts[|parts| - 1];
      var before := ReadParts(init, node).value;
      PartRead(before, last, node);
      KeptRead(init, keep, before, node);
      var kept := Filter(init, keep);
      if keep(last) {
        assert (kept + [last])[..|kept|] == kept;
      } else {
        assert last in parts;
        assert kept + [] == kept;
      }
    }
  }

  lemma {:induction false} KeptTwice(parts: seq<string>, keep: string -> bool)
    requires forall p <- parts :: keep(p)
    ensures Filter(parts, keep) == parts
  {
    if parts != [] {
      var init, last := parts[..|parts| - 1], parts[|parts| - 1];
      KeptTwice(init, keep);
      assert last in parts;
      assert parts == init + [last];
    }
  }

  /** The kept parts, joined, split into themselves, or into one empty part. */
  lemma SplitKept(detail: string, keep: string -> bool)
    ensures var kept := Filter(Split(detail, ';'), keep);
            Split(Join(kept, ';'), ';') == if kept == [] then [""] else kept
  {
    var kept := Filter(Split(detail, ';'), keep);
    if kept != [] { SplitJoin(kept, ';'); }
  }

  lemma FilterTwice(detail: string, keep: string -> bool)
    requires !keep("")
    ensures var once := Join(Filter(Split(detail, ';'), keep), ';');
            Join(Filter(Split(once, ';'), keep), ';') == once
  {
    var kept := Filter(Split(detail, ';'), keep);
    SplitKept(detail, keep);
    KeptTwice(kept, keep);
    assert [""][..0] == [];
  }

  lemma {:induction false} FilterMembers(parts: seq<string>, keep: string -> bool, p: string)
    ensures p in Filter(parts, keep) <==> p in parts && keep(p)
  {
    if parts != [] {
      var init, last := parts[..|parts| - 1], parts[|parts| - 1];
      FilterMembers(init, keep, p);
      assert parts == init + [last];
    }
  }

  /** The parts that are kept: markers that were read, and the reasons of the kind. */
  predicate IsKept(kind: Kind, part: string, m: Markers) {
    || (exists key :: key in m && ':' !in key && StartsWith(part, key + ":"))
    || (StartsWith(part, "hello_reason:") && (kind == PeerAdmitted || kind == PeerRejected))
    || ((StartsWith(part, "remote_reply:") || StartsWith(part, "remote_reason:")) && kind == PeerCallReplied)
    || StartsWith(part, "toy_grant_reason:")
  }

  lemma WordHasNoColon(part: string)
    ensures ':' !in Word(part)
  {
  }

  lemma ReasonWords()
    ensures ':' !in "hello_reason" && ':' !in "remote_reply" && ':' !in "remote_reason" && ':' !in "toy_grant_reason"
    ensures "hello_reason" + ":" == "hello_reason:" && "remote_reply" + ":" == "remote_reply:"
    ensures "remote_reason" + ":" == "remote_reason:" && "toy_grant_reason" + ":" == "toy_grant_reason:"
  {
  }

  lemma KeptIff(kind: Kind, part: string, m: Markers)
    ensures Kept(kind, part, m) <==> IsKept(kind, part, m)
  {
    ReasonWords();
    WordHasNoColon(part);
    MarksMeans(part, Word(part));
    MarksMeans(part, "hello_reason");
    MarksMeans(part, "remote_reply");
    MarksMeans(part, "remote_reason");
    MarksMeans(part, "toy_grant_reason");
    forall key | key in m && ':' !in key && StartsWith(part, key + ":") ensures HasColon(part) && Word(part) == key {
      MarksMeans(part, key);
    }
  }

  /** Nothing else is kept, and nothing that should be is lost: the reasons of a kind survive with the markers. */
  lemma ReducedPartsIff(kind: Kind, detail: string, m: Markers, p: string)
    requires !StartsWith(detail, "local_mesh_job_") && p != ""
    ensures p in Split(Reduced(kind, detail, m), ';') <==> p in Split(detail, ';') && IsKept(kind, p, m)
  {
    SplitKept(detail, Keeping(kind, m));
    FilterMembers(Split(detail, ';'), Keeping(kind, m), p);
    KeptIff(kind, p, m);
  }

  /** The detail of a mesh job is left as it is. */
  lemma MeshJobStays(kind: Kind, detail: string, m: Markers)
    requires StartsWith(detail, "local_mesh_job_")
    ensures Reduced(kind, detail, m) == detail
  {
  }

  /** One marker, for each of the four keys, is read as itself. */
  lemma MarkerRoundTrip(key: string, value: string, node: string)
    requires key in ["executed_on", "forwarded_from", "forwarded_to", "operation"]
    requires value != "" && ';' !in value && (key == "executed_on" ==> value == node)
    requires key != "executed_on" ==> !Contains(key + ":" + value, "executed_on:")
    ensures MarkersOf(key + ":" + value, node) == Ok(map[key := value])
  {
    var part := key + ":" + value;
    KeyWords(key);
    FirstAfter(key, ':', value);
    assert part == key + [':'] + value;
    assert part[..|key|] == key && part[|key| + 1..] == value;
    assert HasColon(part) && Word(part) == key && ValueOf(part) == value;
    PartRead(map[], part, node);
    OnePart(part, node);
  }

  lemma OnePart(part: string, node: string)
    requires ';' !in part
    ensures MarkersOf(part, node) == ReadKeys(map[], part, node, |KEYS|)
  {
    var parts := [part];
    assert Join(parts, ';') == part;
    SplitJoin(parts, ';');
    assert parts[..|parts| - 1] == [];
    assert ReadParts(parts[..|parts| - 1], node) == Ok(map[]);
  }

  lemma KeyWords(key: string)
    requires key in KEYS
    ensures ':' !in key && ';' !in key
    ensures EXECUTED == "executed_on" && EXECUTED + ":" == "executed_on:"
  {
    KeysAreWords();
    assert ';' !in KEYS[0] && ';' !in KEYS[1] && ';' !in KEYS[2] && ';' !in KEYS[3];
  }

  lemma EmptyPart(node: string)
    ensures ReadParts([""], node) == Ok(map[])
  {
    var parts := [""];
    assert parts[..0] == [];
    assert !Contains("", EXECUTED + ":") by {
      assert |EXECUTED + ":"| > 0;
    }
    PartRead(map[], "", node);
  }

  lemma FilterReads(detail: string, keep: string -> bool, node: string)
    requires MarkersOf(detail, node).Ok? && forall p <- Split(detail, ';') :: IsMarker(p) ==> keep(p)
    ensures MarkersOf(Join(Filter(Split(detail, ';'), keep), ';'), node) == MarkersOf(detail, node)
  {
    KeptRead(Split(detail, ';'), keep, MarkersOf(detail, node).value, node);
    SplitKept(detail, keep);
    EmptyPart(node);
  }

  lemma MarkersKept(kind: Kind, m: Markers, parts: seq<string>)
    requires Reads(m, parts)
    ensures forall p <- parts :: IsMarker(p) ==> Keeping(kind, m)(p)
  {
  }

  /** Reducing keeps the meaning: the same node accepts the reduced detail with the same markers. */
  lemma ReducedReads(kind: Kind, detail: string, node: string)
    requires MarkersOf(detail, node).Ok?
    ensures MarkersOf(Reduced(kind, detail, MarkersOf(detail, node).value), node) == MarkersOf(detail, node)
  {
    var m := MarkersOf(detail, node).value;
    ProvenanceIff(detail, node);
    MarkersKept(kind, m, Split(detail, ';'));
    FilterReads(detail, Keeping(kind, m), node);
  }

  /** Reducing a reduced detail changes nothing. */
  lemma ReducedTwice(kind: Kind, detail: string, m: Markers)
    ensures Reduced(kind, Reduced(kind, detail, m), m) == Reduced(kind, detail, m)
  {
    assert !Keeping(kind, m)("");
    FilterTwice(detail, Keeping(kind, m));
  }
}
