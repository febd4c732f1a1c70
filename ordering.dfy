/** Python's ordering of `str` values (code point by code point) and `sorted()` over it. */
module Ordering {

  /** Python's `a <= b` on strings: lexicographic by code point, a proper prefix first. */
  predicate LessEq(a: string, b: string)
    decreases |a|
  {
    |a| == 0 || (|b| > 0 && (a[0] < b[0] || (a[0] == b[0] && LessEq(a[1..], b[1..]))))
  }

  lemma {:induction false} LessEqReflexive(a: string)
    ensures LessEq(a, a)
    decreases |a|
  {
    if |a| > 0 {
      LessEqReflexive(a[1..]);
    }
  }

  lemma {:induction false} LessEqTotal(a: string, b: string)
    ensures LessEq(a, b) || LessEq(b, a)
    decreases |a|
  {
    if |a| > 0 && |b| > 0 && a[0] == b[0] {
      LessEqTotal(a[1..], b[1..]);
    }
  }

  lemma {:induction false} LessEqTransitive(a: string, b: string, c: string)
    requires LessEq(a, b) && LessEq(b, c)
    ensures LessEq(a, c)
    decreases |a|
  {
    if |a| > 0 && a[0] == b[0] && b[0] == c[0] {
      LessEqTransitive(a[1..], b[1..], c[1..]);
    }
  }

  lemma {:induction false} LessEqAntisymmetric(a: string, b: string)
    requires LessEq(a, b) && LessEq(b, a)
    ensures a == b
    decreases |a|
  {
    if |a| > 0 {
      LessEqAntisymmetric(a[1..], b[1..]);
      assert a == [a[0]] + a[1..] && b == [b[0]] + b[1..];
    }
  }

  predicate Sorted(s: seq<string>) {
    forall i, j :: 0 <= i < j < |s| ==> LessEq(s[i], s[j])
  }

  function Insert(x: string, s: seq<string>): (r: seq<string>)
    requires Sorted(s)
    ensures Sorted(r)
    ensures multiset(r) == multiset(s) + multiset{x}
  {
    if |s| == 0 then [x]
    else if LessEq(x, s[0]) then
      forall j | 0 < j < |s| ensures LessEq(x, s[j]) { LessEqTransitive(x, s[0], s[j]); }
      ConsSorted(x, s);
      [x] + s
    else
      var rest := Insert(x, s[1..]);
      LessEqTotal(x, s[0]);
      BelowAll(s[0], rest, s[1..], x);
      ConsSorted(s[0], rest);
      assert s == [s[0]] + s[1..];
      [s[0]] + rest
  }

  lemma ConsSorted(h: string, t: seq<string>)
    requires Sorted(t) && forall j :: 0 <= j < |t| ==> LessEq(h, t[j])
    ensures Sorted([h] + t)
  {
  }

  /** A lower bound of a list and of `x` bounds every rearrangement of the two. */
  lemma BelowAll(h: string, r: seq<string>, t: seq<string>, x: string)
    requires multiset(r) == multiset(t) + multiset{x}
    requires LessEq(h, x) && forall j :: 0 <= j < |t| ==> LessEq(h, t[j])
    ensures forall j :: 0 <= j < |r| ==> LessEq(h, r[j])
  {
    forall j | 0 <= j < |r| ensures LessEq(h, r[j]) {
      assert r[j] in multiset(r);
      if r[j] != x {
        assert r[j] in multiset(t);
        var k :| 0 <= k < |t| && t[k] == r[j];
      }
    }
  }

  /** Python's `sorted(names)`: the names in ascending order, as a permutation of the input. */
  function Sort(s: seq<string>): (r: seq<string>)
    ensures Sorted(r)
    ensures multiset(r) == multiset(s)
  {
    if |s| == 0 then []
    else
      assert s == [s[0]] + s[1..];
      Insert(s[0], Sort(s[1..]))
  }

  /**
   * Two sorted arrangements of the same names are the same list; so any sort
   * (Python's own included) yields exactly `Sort(s)`.
   */
  lemma {:induction false} SortedUnique(a: seq<string>, b: seq<string>)
    requires Sorted(a) && Sorted(b) && multiset(a) == multiset(b)
    ensures a == b
    decreases |a|
  {
    if |a| > 0 {
      SameHead(a, b);
      assert a == [a[0]] + a[1..] && b == [b[0]] + b[1..];
      assert multiset(a[1..]) == multiset(a) - multiset{a[0]};
      assert multiset(b[1..]) == multiset(b) - multiset{b[0]};
      SortedUnique(a[1..], b[1..]);
    }
  }

  /** Two sorted arrangements of the same non-empty names start with the same name. */
  lemma SameHead(a: seq<string>, b: seq<string>)
    requires Sorted(a) && Sorted(b) && multiset(a) == multiset(b) && |a| > 0
    ensures |b| > 0 && a[0] == b[0]
  {
    assert |b| == |multiset(b)| == |multiset(a)| == |a|;
    assert a[0] in multiset(b) && b[0] in multiset(a);
    var i :| 0 <= i < |b| && b[i] == a[0];
    var j :| 0 <= j < |a| && a[j] == b[0];
    LessEqReflexive(a[0]);
    LessEqReflexive(b[0]);
    assert LessEq(b[0], a[0]) by { if i > 0 { assert LessEq(b[0], b[i]); } }
    assert LessEq(a[0], b[0]) by { if j > 0 { assert LessEq(a[0], a[j]); } }
    LessEqAntisymmetric(a[0], b[0]);
  }
}
