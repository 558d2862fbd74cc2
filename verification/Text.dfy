/** Text helpers shared by the models. */
module Text {

  /** Rust's char::is_whitespace (Unicode White_Space). */
  predicate IsWhitespace(c: char) {
    || '\t' <= c <= '\r'
    || c == ' '
    || c == '\U{85}' || c == '\U{A0}' || c == '\U{1680}'
    || '\U{2000}' <= c <= '\U{200A}'
    || c == '\U{2028}' || c == '\U{2029}' || c == '\U{202F}' || c == '\U{205F}' || c == '\U{3000}'
  }

  /** `text.trim().is_empty()` */
  predicate Blank(s: string) { forall k :: 0 <= k < |s| ==> IsWhitespace(s[k]) }

  predicate StartsWith<T(==)>(s: seq<T>, p: seq<T>) { |p| <= |s| && s[..|p|] == p }

  // ---- lengths -------------------------------------------------------------

  function Width(c: char): nat {
    if c < '\U{80}' then 1 else if c < '\U{800}' then 2 else if c < '\U{10000}' then 3 else 4
  }

  /** The length in UTF-8 bytes. */
  function ByteLength(s: string): nat { if s == [] then 0 else Width(s[0]) + ByteLength(s[1..]) }

  predicate Ascii(s: string) { forall k :: 0 <= k < |s| ==> s[k] < '\U{80}' }

  lemma {:induction false} AsciiLength(s: string)
    requires Ascii(s)
    ensures ByteLength(s) == |s|
  {
    if s != [] { AsciiLength(s[1..]); }
  }

  // ---- splitting and joining -----------------------------------------------

  /** The index of the first `c`, or the length. */
  function FirstOf(s: string, c: char): (k: nat)
    ensures k <= |s| && (k < |s| ==> s[k] == c) && forall j :: 0 <= j < k ==> s[j] != c
  {
    if s == [] || s[0] == c then 0 else 1 + FirstOf(s[1..], c)
  }

  /** `text.split(c)` */
  function Split(s: string, c: char): (parts: seq<string>)
    ensures parts != [] && forall p <- parts :: c !in p
    decreases |s|
  {
    var k := FirstOf(s, c);
    if k == |s| then [s] else [s[..k]] + Split(s[k + 1..], c)
  }

  /** `parts.join(c)` */
  function Join(parts: seq<string>, c: char): string {
    if parts == [] then [] else if |parts| == 1 then parts[0] else parts[0] + [c] + Join(parts[1..], c)
  }

  lemma {:induction false} FirstMissing(s: string, c: char)
    requires c !in s
    ensures FirstOf(s, c) == |s|
  {
    if s != [] { FirstMissing(s[1..], c); }
  }

  lemma {:induction false} FirstAfter(p: string, c: char, rest: string)
    requires c !in p
    ensures FirstOf(p + [c] + rest, c) == |p|
  {
    if p != [] {
      FirstAfter(p[1..], c, rest);
      assert (p + [c] + rest)[1..] == p[1..] + [c] + rest;
    }
  }

  lemma SplitFront(p: string, c: char, rest: string)
    requires c !in p
    ensures Split(p + [c] + rest, c) == [p] + Split(rest, c)
  {
    var s := p + [c] + rest;
    FirstAfter(p, c, rest);
    assert s[..|p|] == p && s[|p| + 1..] == rest;
  }

  lemma SplitWhole(s: string, c: char)
    requires c !in s
    ensures Split(s, c) == [s]
  {
    FirstMissing(s, c);
  }

  lemma {:induction false} SplitJoin(parts: seq<string>, c: char)
    requires parts != [] && forall p <- parts :: c !in p
    ensures Split(Join(parts, c), c) == parts
  {
    assert parts[0] in parts;
    if |parts| == 1 {
      SplitWhole(parts[0], c);
    } else {
      SplitFront(parts[0], c, Join(parts[1..], c));
      SplitJoin(parts[1..], c);
      assert parts == [parts[0]] + parts[1..];
    }
  }

  // ---- hexadecimal ---------------------------------------------------------

  predicate IsLowerHex(c: char) { '0' <= c <= '9' || 'a' <= c <= 'f' }

  predicate LowerHex(s: string) { forall k :: 0 <= k < |s| ==> IsLowerHex(s[k]) }

  // ---- decimal numbers -----------------------------------------------------

  predicate IsDigit(c: char) { '0' <= c <= '9' }

  predicate Numeral(s: string) { forall k :: 0 <= k < |s| ==> IsDigit(s[k]) }

  function Digit(d: nat): (c: char)
    requires d < 10
    ensures IsDigit(c)
  {
    (d + '0' as int) as char
  }

  function Decimal(n: nat): (s: string)
    ensures s != [] && Numeral(s)
  {
    if n < 10 then [Digit(n)] else Decimal(n / 10) + [Digit(n % 10)]
  }

  function DigitValue(c: char): (d: nat)
    requires IsDigit(c)
    ensures d < 10 && Digit(d) == c
  {
    c as int - '0' as int
  }

  /** The number a string of digits stands for. */
  function DecimalValue(s: string): nat
    requires Numeral(s)
  {
    if s == [] then 0 else DecimalValue(s[..|s| - 1]) * 10 + DigitValue(s[|s| - 1])
  }

  lemma ValueOfLast(s: string, d: nat)
    requires Numeral(s) && d < 10
    ensures Numeral(s + [Digit(d)]) && DecimalValue(s + [Digit(d)]) == DecimalValue(s) * 10 + d
  {
    assert (s + [Digit(d)])[..|s|] == s;
  }

  lemma {:induction false} DecimalRoundTrip(n: nat)
    ensures DecimalValue(Decimal(n)) == n
  {
    if n < 10 {
      assert Decimal(n)[..0] == [];
    } else {
      DecimalRoundTrip(n / 10);
      ValueOfLast(Decimal(n / 10), n % 10);
    }
  }

  function PowerOfTen(k: nat): nat { if k == 0 then 1 else 10 * PowerOfTen(k - 1) }

  lemma {:induction false} DecimalLength(n: nat, k: nat)
    requires k > 0 && n < PowerOfTen(k)
    ensures |Decimal(n)| <= k
  {
    if n >= 10 { DecimalLength(n / 10, k - 1); }
  }
}
