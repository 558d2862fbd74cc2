/** Byte strings as the control transport reads them. */
module HttpText {
  import opened Wrappers
  import opened Text

  type byte = x: int | 0 <= x < 256

  type bytes = seq<byte>

  const CR: byte := 13
  const LF: byte := 10
  const TAB: byte := 9
  const SPACE: byte := 32
  const COLON: byte := 58

  const CRLF: bytes := [CR, LF]
  const END: bytes := [CR, LF, CR, LF]

  predicate EndsWith(b: bytes, suffix: bytes) { |suffix| <= |b| && b[|b| - |suffix|..] == suffix }

  /** u8::is_ascii_control */
  predicate IsControl(c: byte) { c < 32 || c == 127 }

  predicate IsDigitByte(c: byte) { 48 <= c <= 57 }

  predicate IsUpper(c: byte) { 65 <= c <= 90 }

  predicate IsAlphanumeric(c: byte) { IsDigitByte(c) || IsUpper(c) || 97 <= c <= 122 }

  function Lower(b: bytes): (l: bytes)
    ensures |l| == |b|
  {
    seq(|b|, k requires 0 <= k < |b| => if IsUpper(b[k]) then b[k] + 32 else b[k])
  }

  function Encode(s: string): (b: bytes)
    requires Ascii(s)
    ensures |b| == |s| && forall k :: 0 <= k < |s| ==> b[k] == s[k] as int
  {
    seq(|s|, k requires 0 <= k < |s| => s[k] as int)
  }

  // ---- UTF-8 ---------------------------------------------------------------

  predicate Continuation(c: byte) { 0x80 <= c < 0xC0 }

  /** The length of the well-formed character at the front, or 0. */
  function CharLength(b: bytes): (n: nat)
    ensures n <= |b| && n <= 4
  {
    if b == [] then 0
    else if b[0] < 0x80 then 1
    else if 0xC2 <= b[0] <= 0xDF && |b| >= 2 && Continuation(b[1]) then 2
    else if 0xE0 <= b[0] <= 0xEF && |b| >= 3 && Continuation(b[1]) && Continuation(b[2])
            && (b[0] == 0xE0 ==> b[1] >= 0xA0) && (b[0] == 0xED ==> b[1] < 0xA0)
    then 3
    else if 0xF0 <= b[0] <= 0xF4 && |b| >= 4 && Continuation(b[1]) && Continuation(b[2]) && Continuation(b[3])
            && (b[0] == 0xF0 ==> b[1] >= 0x90) && (b[0] == 0xF4 ==> b[1] < 0x90)
    then 4
    else 0
  }

  predicate Utf8(b: bytes)
    decreases |b|
  {
    b == [] || (CharLength(b) > 0 && Utf8(b[CharLength(b)..]))
  }

  lemma {:induction false} Utf8Concat(a: bytes, b: bytes)
    requires Utf8(a) && Utf8(b)
    ensures Utf8(a + b)
    decreases |a|
  {
    if a == [] {
      assert a + b == b;
    } else {
      var n := CharLength(a);
      FirstCharStays(a, b);
      Utf8Concat(a[n..], b);
      DropConcat(a, b, n);
    }
  }

  lemma DropConcat(a: bytes, b: bytes, n: nat)
    requires n <= |a|
    ensures (a + b)[n..] == a[n..] + b
  {
  }

  lemma FirstCharStays(a: bytes, b: bytes)
    requires CharLength(a) > 0
    ensures CharLength(a + b) == CharLength(a)
  {
    var s := a + b;
    assert forall k :: 0 <= k < |a| ==> s[k] == a[k];
  }

  lemma {:induction false} Utf8Ascii(b: bytes)
    requires forall k :: 0 <= k < |b| ==> b[k] < 0x80
    ensures Utf8(b)
    decreases |b|
  {
    if b != [] { Utf8Ascii(b[1..]); }
  }

  // ---- white space ---------------------------------------------------------

  /** The length of the white-space character (Unicode White_Space, in UTF-8) at the front, or 0. */
  function SpaceAtFront(b: bytes): (n: nat)
    ensures n <= |b|
  {
    if |b| >= 1 && (9 <= b[0] <= 13 || b[0] == 32) then 1
    else if |b| >= 2 && b[0] == 0xC2 && (b[1] == 0x85 || b[1] == 0xA0) then 2
    else if |b| >= 3 && IsWideSpace(b[0], b[1], b[2]) then 3
    else 0
  }

  function SpaceAtBack(b: bytes): (n: nat)
    ensures n <= |b|
  {
    var m := |b|;
    if m >= 1 && (9 <= b[m - 1] <= 13 || b[m - 1] == 32) then 1
    else if m >= 2 && b[m - 2] == 0xC2 && (b[m - 1] == 0x85 || b[m - 1] == 0xA0) then 2
    else if m >= 3 && IsWideSpace(b[m - 3], b[m - 2], b[m - 1]) then 3
    else 0
  }

  predicate IsWideSpace(x: byte, y: byte, z: byte) {
    || (x == 0xE1 && y == 0x9A && z == 0x80)
    || (x == 0xE2 && y == 0x80 && (0x80 <= z <= 0x8A || z == 0xA8 || z == 0xA9 || z == 0xAF))
    || (x == 0xE2 && y == 0x81 && z == 0x9F)
    || (x == 0xE3 && y == 0x80 && z == 0x80)
  }

  function TrimStart(b: bytes): bytes
    decreases |b|
  {
    if SpaceAtFront(b) == 0 then b else TrimStart(b[SpaceAtFront(b)..])
  }

  function TrimEnd(b: bytes): bytes
    decreases |b|
  {
    if SpaceAtBack(b) == 0 then b else TrimEnd(b[..|b| - SpaceAtBack(b)])
  }

  /** str::trim */
  function Trim(b: bytes): bytes { TrimEnd(TrimStart(b)) }

  /** u8::is_ascii_whitespace */
  predicate IsBlank(c: byte) { c == 32 || c == 9 || c == 10 || c == 12 || c == 13 }

  /** str::split_ascii_whitespace: the maximal runs without ASCII white space. */
  function Words(b: bytes): seq<bytes>
    decreases |b|
  {
    if b == [] then []
    else if IsBlank(b[0]) then Words(b[1..])
    else var n := WordLength(b); [b[..n]] + Words(b[n..])
  }

  function WordLength(b: bytes): (n: nat)
    ensures n <= |b| && (b != [] && !IsBlank(b[0]) ==> n > 0)
    ensures forall k :: 0 <= k < n ==> !IsBlank(b[k])
    ensures n < |b| ==> IsBlank(b[n])
  {
    if b == [] || IsBlank(b[0]) then 0 else 1 + WordLength(b[1..])
  }

  predicate IsWord(w: bytes) { w != [] && forall k :: 0 <= k < |w| ==> !IsBlank(w[k]) }

  lemma {:induction false} WordLengthOf(w: bytes, rest: bytes)
    requires forall k :: 0 <= k < |w| ==> !IsBlank(w[k])
    requires rest == [] || IsBlank(rest[0])
    ensures WordLength(w + rest) == |w|
    decreases |w|
  {
    if w == [] {
      assert w + rest == rest;
    } else {
      assert (w + rest)[1..] == w[1..] + rest;
      WordLengthOf(w[1..], rest);
    }
  }

  /** A word followed by a space is split off. */
  lemma WordsCons(w: bytes, rest: bytes)
    requires IsWord(w)
    ensures Words(w + [SPACE] + rest) == [w] + Words(rest)
  {
    var b := w + [SPACE] + rest;
    assert b == w + ([SPACE] + rest);
    WordLengthOf(w, [SPACE] + rest);
    assert b[|w|..] == [SPACE] + rest && b[..|w|] == w;
    assert ([SPACE] + rest)[1..] == rest;
  }

  lemma WordsLast(w: bytes)
    requires IsWord(w)
    ensures Words(w) == [w]
  {
    assert w + [] == w;
    WordLengthOf(w, []);
    assert w[|w|..] == [] && w[..|w|] == w;
  }

  // ---- numbers -------------------------------------------------------------

  predicate AllDigits(b: bytes) { forall k :: 0 <= k < |b| ==> IsDigitByte(b[k]) }

  /** The number a string of ASCII digits stands for. */
  function Number(b: bytes): nat
    requires AllDigits(b)
  {
    if b == [] then 0 else Number(b[..|b| - 1]) * 10 + (b[|b| - 1] - 48)
  }

  /** A number in decimal, as ASCII bytes. */
  function Digits(n: nat): (b: bytes)
    ensures b != [] && AllDigits(b)
  {
    Encode(Decimal(n))
  }

  lemma {:induction false} NumberOfDecimal(s: string)
    requires Ascii(s) && Numeral(s)
    ensures AllDigits(Encode(s)) && Number(Encode(s)) == DecimalValue(s)
  {
    if s != [] {
      var init := s[..|s| - 1];
      NumberOfDecimal(init);
      assert Encode(s)[..|s| - 1] == Encode(init);
    }
  }

  lemma DigitsRoundTrip(n: nat)
    ensures Number(Digits(n)) == n
  {
    NumberOfDecimal(Decimal(n));
    DecimalRoundTrip(n);
  }

  /** Digits are not white space at either end. */
  lemma TrimSpacedDigits(d: bytes)
    requires d != [] && AllDigits(d)
    ensures Trim([SPACE] + d) == d
  {
    assert ([SPACE] + d)[1..] == d;
    assert SpaceAtFront([SPACE] + d) == 1;
    assert SpaceAtFront(d) == 0;
    assert TrimStart([SPACE] + d) == TrimStart(d) == d;
    assert SpaceAtBack(d) == 0;
  }

  // ---- searching and splitting ---------------------------------------------

  function IndexOf(b: bytes, c: byte): (n: nat)
    ensures n <= |b|
    ensures forall k :: 0 <= k < n ==> b[k] != c
    ensures n < |b| ==> b[n] == c
  {
    if b == [] || b[0] == c then 0 else 1 + IndexOf(b[1..], c)
  }

  /** Index of the first CR LF pair, or |b|. */
  function PairIndex(b: bytes): (n: nat)
    ensures n <= |b|
    ensures n < |b| ==> n + 1 < |b| && b[n] == CR && b[n + 1] == LF
    ensures forall k :: 0 <= k < n && k + 1 < |b| ==> !(b[k] == CR && b[k + 1] == LF)
  {
    if |b| < 2 then |b|
    else if b[0] == CR && b[1] == LF then 0
    else 1 + PairIndex(b[1..])
  }

  /** str::split("\r\n") */
  function SplitLines(b: bytes): (lines: seq<bytes>)
    ensures lines != []
    decreases |b|
  {
    var n := PairIndex(b);
    if n == |b| then [b] else [b[..n]] + SplitLines(b[n + 2..])
  }

  /** The lines joined by CR LF and closed by an empty line. */
  function Rendered(lines: seq<bytes>): (b: bytes)
    requires lines != []
    ensures |b| >= 4 && EndsWith(b, END)
    decreases |lines|
  {
    if |lines| == 1 then lines[0] + END else lines[0] + CRLF + Rendered(lines[1..])
  }

  /** No CR and no LF. */
  predicate Clean(line: bytes) { forall k :: 0 <= k < |line| ==> line[k] != CR && line[k] != LF }

  predicate AllClean(lines: seq<bytes>) { forall k :: 0 <= k < |lines| ==> Clean(lines[k]) }

  lemma RenderedCons(line: bytes, tail: seq<bytes>)
    requires tail != []
    ensures Rendered([line] + tail) == line + CRLF + Rendered(tail)
  {
    assert ([line] + tail)[1..] == tail;
  }

  lemma Regroup(a: bytes, b: bytes, c: bytes, d: bytes)
    ensures a + b + (c + d) == (a + b + c) + d
  {
  }

  lemma AtPair(text: bytes, n: nat)
    requires n + 1 < |text| && text[n] == CR && text[n + 1] == LF
    ensures text == text[..n] + CRLF + text[n + 2..]
  {
    assert text[n..n + 2] == CRLF;
    assert text == text[..n] + text[n..n + 2] + text[n + 2..];
  }

  lemma {:induction false} SplitRenders(text: bytes)
    ensures Rendered(SplitLines(text)) == text + END
    decreases |text|
  {
    var n := PairIndex(text);
    if n < |text| {
      var line, rest := text[..n], text[n + 2..];
      SplitRenders(rest);
      RenderedCons(line, SplitLines(rest));
      AtPair(text, n);
      Regroup(line, CRLF, rest, END);
    }
  }

  /** The lines joined by CR LF. */
  function Joined(lines: seq<bytes>): bytes
    requires lines != []
  {
    if |lines| == 1 then lines[0] else lines[0] + CRLF + Joined(lines[1..])
  }

  lemma {:induction false} RenderedIsJoined(lines: seq<bytes>)
    requires lines != []
    ensures Rendered(lines) == Joined(lines) + END
    decreases |lines|
  {
    if |lines| > 1 {
      RenderedIsJoined(lines[1..]);
      Regroup(lines[0], CRLF, Joined(lines[1..]), END);
    }
  }

  lemma {:induction false} SplitJoined(lines: seq<bytes>)
    requires lines != [] && AllClean(lines)
    ensures SplitLines(Joined(lines)) == lines
    decreases |lines|
  {
    var line, rest := lines[0], lines[1..];
    assert Clean(line);
    if rest == [] {
      SplitOnly(line);
      assert lines == [line];
    } else {
      assert AllClean(rest);
      SplitJoined(rest);
      SplitFirst(line, Joined(rest));
      assert lines == [line] + rest;
    }
  }

  lemma {:induction false} NoPair(line: bytes)
    requires Clean(line)
    ensures PairIndex(line) == |line|
  {
    if |line| >= 2 { NoPair(line[1..]); }
  }

  lemma SplitOnly(line: bytes)
    requires Clean(line)
    ensures SplitLines(line) == [line]
  {
    NoPair(line);
  }

  lemma RenderSplits(lines: seq<bytes>)
    requires lines != [] && AllClean(lines)
    ensures SplitLines(Rendered(lines)[..|Rendered(lines)| - 4]) == lines
  {
    RenderedIsJoined(lines);
    SplitJoined(lines);
    assert (Joined(lines) + END)[..|Joined(lines)|] == Joined(lines);
  }

  lemma SplitFirst(line: bytes, rest: bytes)
    requires Clean(line)
    ensures SplitLines(line + CRLF + rest) == [line] + SplitLines(rest)
  {
    var text := line + CRLF + rest;
    PairAfter(line, rest);
    assert text[..|line|] == line && text[|line| + 2..] == rest;
  }

  lemma {:induction false} PairAfter(line: bytes, rest: bytes)
    requires Clean(line)
    ensures PairIndex(line + CRLF + rest) == |line|
    decreases |line|
  {
    var b := line + CRLF + rest;
    if line != [] {
      assert b[1..] == line[1..] + CRLF + rest;
      PairAfter(line[1..], rest);
    }
  }

  /** CR and LF occur only as line-ending pairs. */
  predicate Paired(b: bytes) {
    && (forall k :: 0 <= k < |b| && b[k] == CR ==> k + 1 < |b| && b[k + 1] == LF)
    && (forall k :: 0 <= k < |b| && b[k] == LF ==> k > 0 && b[k - 1] == CR)
  }

  lemma {:induction false} RenderedPaired(lines: seq<bytes>)
    requires lines != [] && AllClean(lines)
    ensures Paired(Rendered(lines))
    decreases |lines|
  {
    var b, l := Rendered(lines), lines[0];
    if |lines| == 1 {
      assert b == l + END;
    } else {
      var tail := Rendered(lines[1..]);
      RenderedPaired(lines[1..]);
      assert b == l + CRLF + tail;
      assert forall k :: |l| + 2 <= k < |b| ==> b[k] == tail[k - |l| - 2];
    }
  }

  /** Rendered lines end where their first empty line ends: END occurs nowhere earlier. */
  lemma {:induction false} NoEarlierEndAt(lines: seq<bytes>, p: nat)
    requires lines != [] && AllClean(lines)
    requires forall k :: 1 <= k < |lines| ==> lines[k] != []
    requires p + 4 < |Rendered(lines)|
    ensures Rendered(lines)[p..p + 4] != END
    decreases |lines|
  {
    var b, l := Rendered(lines), lines[0];
    assert b[p..p + 4][0] == b[p] && b[p..p + 4][2] == b[p + 2];
    if p < |l| {
      assert b[p] == l[p];
    } else {
      var tail := Rendered(lines[1..]);
      assert b == l + CRLF + tail;
      if p >= |l| + 2 {
        var q := p - |l| - 2;
        NoEarlierEndAt(lines[1..], q);
        assert b[p..p + 4] == tail[q..q + 4];
      } else if p == |l| + 1 {
        assert b[p] == LF;
      } else {
        assert b[p + 2] == tail[0] == lines[1][0];
      }
    }
  }

  lemma NoEarlierEnd(lines: seq<bytes>, n: nat)
    requires lines != [] && AllClean(lines)
    requires forall k :: 1 <= k < |lines| ==> lines[k] != []
    requires n < |Rendered(lines)|
    ensures !EndsWith(Rendered(lines)[..n], END)
  {
    if n >= 4 {
      NoEarlierEndAt(lines, n - 4);
      assert Rendered(lines)[..n][n - 4..] == Rendered(lines)[n - 4..n];
    }
  }
}
