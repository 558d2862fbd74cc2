/**
 * Rust's `String` order (by code point) and the sorted, duplicate-free sequences that
 * iterating a `BTreeSet<String>` yields.
 */
module OrderedStrings {

  predicate Less(a: string, b: string) {
    b != [] && (a == [] || a[0] < b[0] || (a[0] == b[0] && Less(a[1..], b[1..])))
  }

  lemma {:induction false} Irreflexive(a: string)
    ensures !Less(a, a)
  {
    if a != [] { Irreflexive(a[1..]); }
  }

  lemma {:induction false} Transitive(a: string, b: string, c: string)
    requires Less(a, b) && Less(b, c)
    ensures Less(a, c)
  {
    if a != [] && a[0] == b[0] && b[0] == c[0] { Transitive(a[1..], b[1..], c[1..]); }
  }

  lemma {:induction false} Total(a: string, b: string)
    ensures a == b || Less(a, b) || Less(b, a)
  {
    if a != [] && b != [] && a[0] == b[0] {
      Total(a[1..], b[1..]);
      assert a == [a[0]] + a[1..] && b == [b[0]] + b[1..];
    }
  }

  predicate Ordered(s: seq<string>) { forall i, j :: 0 <= i < j < |s| ==> Less(s[i], s[j]) }

  /** `BTreeSet::insert` on the sequence of members. */
  function Insert(s: seq<string>, x: string): seq<string> {
    if s == [] || Less(x, s[0]) then [x] + s
    else if x == s[0] then s
    else [s[0]] + Insert(s[1..], x)
  }

  lemma {:induction false} InsertMembers(s: seq<string>, x: string)
    ensures forall y :: y in Insert(s, x) <==> y == x || y in s
  {
    if s != [] && !Less(x, s[0]) && x != s[0] {
      InsertMembers(s[1..], x);
      assert s == [s[0]] + s[1..];
    }
  }

  lemma {:induction false} InsertKeepsOrder(s: seq<string>, x: string)
    requires Ordered(s)
    ensures Ordered(Insert(s, x))
  {
    if s == [] {
    } else if Less(x, s[0]) {
      forall j | 0 < j < |s| ensures Less(x, s[j]) { Transitive(x, s[0], s[j]); }
    } else if x != s[0] {
      Total(x, s[0]);
      InsertKeepsOrder(s[1..], x);
      InsertMembers(s[1..], x);
      var rest := Insert(s[1..], x);
      forall j | 0 <= j < |rest| ensures Less(s[0], rest[j]) { assert rest[j] in rest; }
    }
  }

  /** Members determine the sequence. */
  lemma {:induction false} SameMembers(s: seq<string>, t: seq<string>)
    requires Ordered(s) && Ordered(t)
    requires forall y :: y in s <==> y in t
    ensures s == t
  {
    if t != [] { assert t[0] in s; }
    if s != [] {
      assert s[0] in t;
      FirstIsLeast(s, t[0]);
      FirstIsLeast(t, s[0]);
      if s[0] != t[0] {
        Transitive(s[0], t[0], s[0]);
        Irreflexive(s[0]);
      }
      forall y ensures y in s[1..] <==> y in t[1..] {
        RestMembers(s, y);
        RestMembers(t, y);
      }
      SameMembers(s[1..], t[1..]);
      assert s == [s[0]] + s[1..] && t == [t[0]] + t[1..];
    }
  }

  lemma FirstIsLeast(s: seq<string>, y: string)
    requires Ordered(s) && y in s
    ensures y == s[0] || Less(s[0], y)
  {
    var k :| 0 <= k < |s| && s[k] == y;
    assert k == 0 || Less(s[0], s[k]);
  }

  lemma RestMembers(s: seq<string>, y: string)
    requires Ordered(s) && s != []
    ensures y in s[1..] <==> y in s && y != s[0]
  {
    assert s == [s[0]] + s[1..];
    if y in s[1..] {
      var k :| 0 <= k < |s[1..]| && s[1..][k] == y;
      assert Less(s[0], s[k + 1]);
      Irreflexive(y);
    }
  }
}
