/**
 What the byte-level functions of the control transport mean: UTF-8 as encoded Unicode scalar
 values, trimming and splitting as operations on them, and which request goes where.
 */
module HttpMeaning {
  import opened Wrappers
  import opened Text
  import opened HttpText
  import opened HttpFraming
  import opened HttpExchange

  // ---- UTF-8 ---------------------------------------------------------------

  /** A Unicode scalar value. */
  predicate Scalar(c: int) { 0 <= c < 0xD800 || 0xE000 <= c <= 0x10FFFF }

  /** Table 3-6 of the Unicode Standard. */
  function EncodeScalar(c: int): (b: bytes)
    requires Scalar(c)
    ensures 1 <= |b| <= 4
  {
    if c < 0x80 then [c]
    else if c < 0x800 then [0xC0 + c / 64, 0x80 + c % 64]
    else if c < 0x10000 then [0xE0 + c / 4096, 0x80 + c / 64 % 64, 0x80 + c % 64]
    else [0xF0 + c / 262144, 0x80 + c / 4096 % 64, 0x80 + c / 64 % 64, 0x80 + c % 64]
  }

  predicate Scalars(cs: seq<int>) { forall c <- cs :: Scalar(c) }

  function EncodeAll(cs: seq<int>): bytes
    requires Scalars(cs)
  {
    if cs == [] then [] else EncodeScalar(cs[0]) + EncodeAll(cs[1..])
  }

  lemma EncodedLength(c: int)
    requires Scalar(c)
    ensures CharLength(EncodeScalar(c)) == |EncodeScalar(c)|
  {
  }

  lemma CharLengthOf(c: int, rest: bytes)
    requires Scalar(c)
    ensures CharLength(EncodeScalar(c) + rest) == |EncodeScalar(c)|
  {
    EncodedLength(c);
    FirstCharStays(EncodeScalar(c), rest);
  }

  lemma OneDigit(c: int, q: int, d: int)
    requires 0 <= d < 64 && c == q * 64 + d
    ensures c / 64 == q && c % 64 == d
  {
  }

  lemma ThreeDigits64(x: int, y: int, z: int)
    requires 0 <= x && 0 <= y < 64 && 0 <= z < 64
    ensures var c := x * 4096 + y * 64 + z; c / 4096 == x && c / 64 % 64 == y && c % 64 == z
  {
    var c := x * 4096 + y * 64 + z;
    OneDigit(c, x * 64 + y, z);
    OneDigit(x * 64 + y, x, y);
    assert c / 4096 == x;
  }

  lemma TwoBytes(x: int, y: int)
    requires 2 <= x < 32 && 0 <= y < 64
    ensures var c := x * 64 + y; Scalar(c) && EncodeScalar(c) == [0xC0 + x, 0x80 + y]
  {
    OneDigit(x * 64 + y, x, y);
  }

  lemma ThreeBytes(x: int, y: int, z: int)
    requires 0 <= x < 16 && 0 <= y < 64 && 0 <= z < 64 && (x == 0 ==> y >= 32) && (x == 13 ==> y < 32)
    ensures var c := x * 4096 + y * 64 + z; Scalar(c) && EncodeScalar(c) == [0xE0 + x, 0x80 + y, 0x80 + z]
  {
    ThreeDigits64(x, y, z);
  }

  lemma FourBytes(x: int, y: int, z: int, u: int)
    requires 0 <= x < 5 && 0 <= y < 64 && 0 <= z < 64 && 0 <= u < 64 && (x == 0 ==> y >= 16) && (x == 4 ==> y < 16)
    ensures var c := x * 262144 + y * 4096 + z * 64 + u;
            Scalar(c) && EncodeScalar(c) == [0xF0 + x, 0x80 + y, 0x80 + z, 0x80 + u]
  {
    var c := x * 262144 + y * 4096 + z * 64 + u;
    ThreeDigits64(x * 64 + y, z, u);
    OneDigit(x * 64 + y, x, y);
    assert c / 262144 == x;
  }

  /** The value of the character at the front. */
  lemma CharOf(b: bytes) returns (c: int)
    requires CharLength(b) > 0
    ensures Scalar(c) && EncodeScalar(c) == b[..CharLength(b)]
  {
    var n := CharLength(b);
    var x: int := b[0];
    if n == 1 {
      c := x;
      assert b[..1] == [x];
    } else if n == 2 {
      var y: int := b[1];
      TwoBytes(x - 0xC0, y - 0x80);
      c := (x - 0xC0) * 64 + (y - 0x80);
      assert b[..2] == [x, y];
    } else if n == 3 {
      var y: int, z: int := b[1], b[2];
      ThreeBytes(x - 0xE0, y - 0x80, z - 0x80);
      c := (x - 0xE0) * 4096 + (y - 0x80) * 64 + (z - 0x80);
      assert b[..3] == [x, y, z];
    } else {
      var y: int, z: int, u: int := b[1], b[2], b[3];
      FourBytes(x - 0xF0, y - 0x80, z - 0x80, u - 0x80);
      c := (x - 0xF0) * 262144 + (y - 0x80) * 4096 + (z - 0x80) * 64 + (u - 0x80);
      assert b[..4] == [x, y, z, u];
    }
  }

  lemma {:induction false} EncodedIsUtf8(cs: seq<int>)
    requires Scalars(cs)
    ensures Utf8(EncodeAll(cs))
  {
    if cs != [] {
      var first, rest := EncodeScalar(cs[0]), EncodeAll(cs[1..]);
      EncodedIsUtf8(cs[1..]);
      CharLengthOf(cs[0], rest);
      assert (first + rest)[|first|..] == rest;
    }
  }

  lemma {:induction false} Utf8IsEncoded(b: bytes) returns (cs: seq<int>)
    requires Utf8(b)
    ensures Scalars(cs) && EncodeAll(cs) == b
    decreases |b|
  {
    if b == [] {
      cs := [];
    } else {
      var n := CharLength(b);
      var c := CharOf(b);
      var more := Utf8IsEncoded(b[n..]);
      cs := [c] + more;
      assert cs[1..] == more;
      assert b == b[..n] + b[n..];
    }
  }

  /** Bytes are taken as UTF-8 exactly when they encode some scalar values. */
  lemma Utf8Iff(b: bytes)
    ensures Utf8(b) <==> exists cs :: Scalars(cs) && EncodeAll(cs) == b
  {
    if Utf8(b) { var cs := Utf8IsEncoded(b); }
    if cs :| Scalars(cs) && EncodeAll(cs) == b { EncodedIsUtf8(cs); }
  }

  // ---- white space ---------------------------------------------------------

  /** The Unicode property White_Space. */
  predicate WhiteSpace(c: int) {
    || 9 <= c <= 13 || c == 0x20 || c == 0x85 || c == 0xA0 || c == 0x1680 || 0x2000 <= c <= 0x200A
    || c == 0x2028 || c == 0x2029 || c == 0x202F || c == 0x205F || c == 0x3000
  }

  lemma SpaceIs(c: int)
    requires Scalar(c)
    ensures SpaceAtFront(EncodeScalar(c)) == (if WhiteSpace(c) then |EncodeScalar(c)| else 0)
  {
  }

  lemma FrontSpace(c: int, rest: bytes)
    requires Scalar(c)
    ensures SpaceAtFront(EncodeScalar(c) + rest) == (if WhiteSpace(c) then |EncodeScalar(c)| else 0)
  {
    SpaceIs(c);
    var first := EncodeScalar(c);
    var b := first + rest;
    assert forall k :: 0 <= k < |first| ==> b[k] == first[k];
  }

  lemma BackSpace(front: bytes, c: int)
    requires Scalar(c)
    ensures SpaceAtBack(front + EncodeScalar(c)) == (if WhiteSpace(c) then |EncodeScalar(c)| else 0)
  {
    SpaceIs(c);
    var last := EncodeScalar(c);
    var b := front + last;
    assert forall k :: 0 <= k < |last| ==> b[|front| + k] == last[k];
  }

  function TrimmedStart(cs: seq<int>): seq<int> {
    if cs != [] && WhiteSpace(cs[0]) then TrimmedStart(cs[1..]) else cs
  }

  function TrimmedEnd(cs: seq<int>): seq<int> {
    if cs != [] && WhiteSpace(cs[|cs| - 1]) then TrimmedEnd(cs[..|cs| - 1]) else cs
  }

  lemma {:induction false} TrimStartIs(cs: seq<int>)
    requires Scalars(cs)
    ensures Scalars(TrimmedStart(cs)) && TrimStart(EncodeAll(cs)) == EncodeAll(TrimmedStart(cs))
  {
    if cs != [] {
      var first, rest := EncodeScalar(cs[0]), EncodeAll(cs[1..]);
      FrontSpace(cs[0], rest);
      assert (first + rest)[|first|..] == rest;
      TrimStartIs(cs[1..]);
    }
  }

  lemma {:induction false} EncodeLast(cs: seq<int>, c: int)
    requires Scalars(cs) && Scalar(c)
    ensures Scalars(cs + [c]) && EncodeAll(cs + [c]) == EncodeAll(cs) + EncodeScalar(c)
  {
    var all := cs + [c];
    if cs == [] {
      assert all[1..] == [];
    } else {
      EncodeLast(cs[1..], c);
      assert all[0] == cs[0] && all[1..] == cs[1..] + [c];
    }
  }

  lemma {:induction false} TrimEndIs(cs: seq<int>)
    requires Scalars(cs)
    ensures Scalars(TrimmedEnd(cs)) && TrimEnd(EncodeAll(cs)) == EncodeAll(TrimmedEnd(cs))
    decreases |cs|
  {
    if cs != [] {
      var init, last := cs[..|cs| - 1], cs[|cs| - 1];
      assert cs == init + [last];
      EncodeLast(init, last);
      var front, back := EncodeAll(init), EncodeScalar(last);
      BackSpace(front, last);
      assert (front + back)[..|front|] == front;
      TrimEndIs(init);
    }
  }

  /** Trimming takes off the white space at both ends, and nothing else. */
  lemma TrimIs(cs: seq<int>)
    requires Scalars(cs)
    ensures Scalars(TrimmedStart(cs)) && Scalars(TrimmedEnd(TrimmedStart(cs)))
    ensures Trim(EncodeAll(cs)) == EncodeAll(TrimmedEnd(TrimmedStart(cs)))
  {
    TrimStartIs(cs);
    TrimEndIs(TrimmedStart(cs));
  }

  /** Space, tab, line feed, form feed and carriage return. */
  predicate AsciiSpace(c: byte) { c in {9, 10, 12, 13, 32} }

  predicate OneWord(w: bytes) { w != [] && forall c <- w :: !AsciiSpace(c) }

  /** The equations that determine splitting at ASCII white space. */
  lemma WordsAre(w: bytes, blank: byte, rest: bytes)
    ensures Words([]) == []
    ensures AsciiSpace(blank) ==> Words([blank] + rest) == Words(rest)
    ensures OneWord(w) ==> Words(w) == [w]
    ensures OneWord(w) && AsciiSpace(blank) ==> Words(w + [blank] + rest) == [w] + Words(rest)
  {
    assert OneWord(w) ==> IsWord(w) by { assert forall k :: 0 <= k < |w| ==> w[k] in w; }
    assert ([blank] + rest)[1..] == rest;
    if IsWord(w) { WordsLast(w); }
    if IsWord(w) && IsBlank(blank) {
      var b := w + [blank] + rest;
      assert b == w + ([blank] + rest);
      WordLengthOf(w, [blank] + rest);
      assert b[|w|..] == [blank] + rest && b[..|w|] == w;
    }
  }

  // ---- field names ---------------------------------------------------------

  /** The same letter, whatever its case, or the same byte. */
  predicate SameButCase(a: byte, b: byte) {
    a == b || (65 <= a <= 90 && b == a + 32) || (65 <= b <= 90 && a == b + 32)
  }

  /** A line names a lower-case field exactly when what comes before its first colon is that name, but for case. */
  lemma NamesFieldIff(line: bytes, name: bytes)
    requires forall k :: 0 <= k < |name| ==> !(65 <= name[k] <= 90)
    ensures NamesField(line, name) <==>
            |FieldName(line)| == |name| && forall k :: 0 <= k < |name| ==> SameButCase(FieldName(line)[k], name[k])
  {
    var given := FieldName(line);
    if NamesField(line, name) {
      forall k | 0 <= k < |name| ensures SameButCase(given[k], name[k]) { assert Lower(given)[k] == name[k]; }
    }
    if |given| == |name| && forall k :: 0 <= k < |name| ==> SameButCase(given[k], name[k]) {
      forall k | 0 <= k < |name| ensures Lower(given)[k] == name[k] {}
      assert Lower(given) == name;
    }
  }

  // ---- requests ------------------------------------------------------------

  predicate UpperCase(word: bytes) { forall k :: 0 <= k < |word| ==> 65 <= word[k] <= 90 }

  /** The request line: a word of capitals, a path from the root, and a version, between white space. */
  predicate LineReads(line: bytes, method_: bytes, path: bytes) {
    && UpperCase(method_) && path != [] && path[0] == 47
    && (Words(line) == [method_, path, Encode("HTTP/1.0")] || Words(line) == [method_, path, Encode("HTTP/1.1")])
  }

  /** A head whose first line reads so; the length is the declared one, or zero. */
  ghost predicate ReadsAs(b: bytes, r: RequestHead) {
    exists h :: && HeaderFields(b) == Ok(h) && LineReads(h.first, r.method_, r.path)
                && r.authorization == h.fields.authorization
                && r.contentLength == (if h.fields.length.Some? then h.fields.length.value else 0)
  }

  lemma RequestIff(b: bytes, r: RequestHead)
    ensures ParseRequestHead(b) == Some(r) <==> ReadsAs(b, r)
  {
    if ParseRequestHead(b) == Some(r) {
      var h := HeaderFields(b).value;
      var parts := Words(h.first);
      assert parts == [parts[0], parts[1], parts[2]];
      assert LineReads(h.first, r.method_, r.path);
    }
  }

  /** Which requests the owner's socket takes, and for what, by method, path and length alone. */
  predicate Routed(r: RequestHead, mutations: bool, route: Route) {
    match route
    case CallPreflight => r.method_ == Encode("POST") && r.path == Encode("/calls")
    case OwnerMutation => r.method_ == Encode("POST") && r.path != Encode("/calls") && mutations
    case ReadOnly =>
      && (r.method_ != Encode("POST") || (r.path != Encode("/calls") && !mutations))
      && (r.method_ == Encode("GET") ==> r.contentLength == 0) && r.contentLength <= 1048576
  }

  /** Every head is taken, for one purpose, exactly when its request line and fields say so. */
  lemma RoutedIff(b: bytes, mutations: bool, r: RequestHead, route: Route)
    ensures ParseUdsHead(b, mutations) == Some((r, route)) <==>
            ReadsAs(b, r) && Routed(r, mutations, route)
  {
    RequestIff(b, r);
  }

  // ---- responses -----------------------------------------------------------

  /** The phrase of each status the daemon gives. */
  lemma ReasonsAre(status: nat)
    ensures Reason(200) == "OK" && Reason(201) == "Created" && Reason(400) == "Bad Request"
    ensures Reason(401) == "Unauthorized" && Reason(403) == "Forbidden" && Reason(404) == "Not Found"
    ensures Reason(405) == "Method Not Allowed" && Reason(413) == "Payload Too Large"
    ensures Reason(503) == "Service Unavailable"
    ensures status !in {200, 201, 400, 401, 403, 404, 405, 413, 503} ==> Reason(status) == "OK"
  {
  }
}
