/**
 * The few Python `str` operations the data-preparation scripts rely on:
 * `in` (substring test), `startswith`/`endswith`, `replace`, `split(sep)`,
 * `strip()` and `lower()`.
 */
module Strings {

  predicate StartsWith(s: string, prefix: string) {
    |prefix| <= |s| && s[..|prefix|] == prefix
  }

  predicate EndsWith(s: string, suffix: string) {
    |suffix| <= |s| && s[|s| - |suffix|..] == suffix
  }

  /** `pat` occurs in `s` starting at index `i`. */
  predicate OccursAt(s: string, pat: string, i: int) {
    0 <= i && i + |pat| <= |s| && s[i..i + |pat|] == pat
  }

  /** Python's `pat in s`. */
  predicate Contains(s: string, pat: string)
    decreases |s|
  {
    StartsWith(s, pat) || (|s| > 0 && Contains(s[1..], pat))
  }

  lemma {:induction false} ContainsIffOccurs(s: string, pat: string)
    ensures Contains(s, pat) <==> exists i :: OccursAt(s, pat, i)
    decreases |s|
  {
    if StartsWith(s, pat) {
      assert s[0..|pat|] == s[..|pat|];
      assert OccursAt(s, pat, 0);
      assert Contains(s, pat);
    } else if |s| == 0 {
      assert !Contains(s, pat);
    } else {
      assert Contains(s, pat) == Contains(s[1..], pat);
      assert !OccursAt(s, pat, 0) by {
        if |pat| <= |s| {
          assert s[0..|pat|] == s[..|pat|];
        }
      }
      ContainsIffOccurs(s[1..], pat);
      if Contains(s[1..], pat) {
        var i :| OccursAt(s[1..], pat, i);
        assert s[1..][i..i + |pat|] == s[i + 1..i + 1 + |pat|];
        assert OccursAt(s, pat, i + 1);
      } else {
        forall i | 0 < i && OccursAt(s, pat, i) ensures OccursAt(s[1..], pat, i - 1) {
          assert s[1..][i - 1..i - 1 + |pat|] == s[i..i + |pat|];
        }
      }
    }
  }

  /** Python's `s.replace(pat, rep)`: every non-overlapping occurrence, scanning left to right. */
  function ReplaceAll(s: string, pat: string, rep: string): (r: string)
    requires |pat| > 0
    ensures !Contains(s, pat) ==> r == s
    decreases |s|
  {
    if StartsWith(s, pat) then rep + ReplaceAll(s[|pat|..], pat, rep)
    else if |s| == 0 then s
    else [s[0]] + ReplaceAll(s[1..], pat, rep)
  }

  /**
   * A name made of a stem in which `pat` never starts, followed by `pat`, has exactly
   * that last occurrence replaced.
   */
  lemma {:induction false} ReplaceLast(stem: string, pat: string, rep: string)
    requires |pat| > 0
    requires forall i :: 0 <= i < |stem| ==> !OccursAt(stem + pat, pat, i)
    ensures ReplaceAll(stem + pat, pat, rep) == stem + rep
    decreases |stem|
  {
    var s := stem + pat;
    if |stem| == 0 {
      assert s == pat;
      assert StartsWith(s, pat);
      assert s[|pat|..] == [];
    } else {
      assert !OccursAt(s, pat, 0);
      assert !StartsWith(s, pat);
      assert s[1..] == stem[1..] + pat;
      forall i | 0 <= i < |stem[1..]| ensures !OccursAt(stem[1..] + pat, pat, i) {
        assert !OccursAt(s, pat, i + 1);
        assert (stem[1..] + pat)[i..i + |pat|] == s[i + 1..i + 1 + |pat|];
      }
      ReplaceLast(stem[1..], pat, rep);
      assert [stem[0]] + (stem[1..] + rep) == stem + rep;
    }
  }

  /** Python's `sep.join(fields)`. */
  function Join(fields: seq<string>, sep: char): string {
    if |fields| == 0 then ""
    else if |fields| == 1 then fields[0]
    else fields[0] + [sep] + Join(fields[1..], sep)
  }

  /** Python's `s.split(sep)` for a one-character separator: never empty, and joining undoes it. */
  function Split(s: string, sep: char): (r: seq<string>)
    ensures |r| >= 1
    ensures forall k :: 0 <= k < |r| ==> sep !in r[k]
    ensures Join(r, sep) == s
    decreases |s|
  {
    if |s| == 0 then [""]
    else if s[0] == sep then [""] + Split(s[1..], sep)
    else
      var rest := Split(s[1..], sep);
      [[s[0]] + rest[0]] + rest[1..]
  }

  /** Splitting a join of separator-free fields gives the fields back. */
  lemma {:induction false} SplitJoin(fields: seq<string>, sep: char)
    requires |fields| >= 1
    requires forall k :: 0 <= k < |fields| ==> sep !in fields[k]
    ensures Split(Join(fields, sep), sep) == fields
    decreases |fields|, |fields[0]|
  {
    var f := fields[0];
    if |f| == 0 {
      if |fields| == 1 {
      } else {
        assert Join(fields, sep) == [sep] + Join(fields[1..], sep);
        SplitJoin(fields[1..], sep);
        assert [sep] + Join(fields[1..], sep) == Join(fields, sep);
        assert Join(fields, sep)[1..] == Join(fields[1..], sep);
        assert [""] + fields[1..] == fields;
      }
    } else {
      var shorter := [f[1..]] + fields[1..];
      assert f[0] != sep by { assert f[0] in f; }
      forall k | 0 <= k < |shorter| ensures sep !in shorter[k] {
        if k == 0 {
          assert forall c :: c in f[1..] ==> c in f;
        } else {
          assert shorter[k] == fields[k];
        }
      }
      if |fields| == 1 {
        assert Join(shorter, sep) == f[1..];
      } else {
        assert Join(shorter, sep) == f[1..] + [sep] + Join(fields[1..], sep);
      }
      assert Join(fields, sep) == [f[0]] + Join(shorter, sep);
      SplitJoin(shorter, sep);
      assert Join(fields, sep)[1..] == Join(shorter, sep);
      var joined := Join(fields, sep);
      assert joined[0] == f[0];
      assert Split(joined, sep) == [[f[0]] + Split(joined[1..], sep)[0]] + Split(joined[1..], sep)[1..];
      assert [f[0]] + f[1..] == f;
      assert [f] + fields[1..] == fields;
    }
  }

  /** The characters Python's `str.isspace()` accepts. */
  predicate IsSpace(c: char) {
    var n := c as int;
    (9 <= n <= 13) || (28 <= n <= 32) || n == 0x85 || n == 0xA0 || n == 0x1680
    || (0x2000 <= n <= 0x200A) || n == 0x2028 || n == 0x2029 || n == 0x202F
    || n == 0x205F || n == 0x3000
  }

  function StripLeft(s: string): (r: string)
    ensures |r| <= |s| && r == s[|s| - |r|..]
    ensures forall k :: 0 <= k < |s| - |r| ==> IsSpace(s[k])
    ensures r == [] || !IsSpace(r[0])
    decreases |s|
  {
    if |s| > 0 && IsSpace(s[0]) then
      var r := StripLeft(s[1..]);
      assert s[1..][|s| - 1 - |r|..] == s[|s| - |r|..];
      assert forall k :: 1 <= k < |s| ==> s[k] == s[1..][k - 1];
      r
    else s
  }

  function StripRight(s: string): (r: string)
    ensures |r| <= |s| && r == s[..|r|]
    ensures forall k :: |r| <= k < |s| ==> IsSpace(s[k])
    ensures r == [] || !IsSpace(r[|r| - 1])
    decreases |s|
  {
    if |s| > 0 && IsSpace(s[|s| - 1]) then
      var r := StripRight(s[..|s| - 1]);
      assert s[..|s| - 1][..|r|] == s[..|r|];
      assert forall k :: 0 <= k < |s| - 1 ==> s[k] == s[..|s| - 1][k];
      r
    else s
  }

  /** Python's `s.strip()`: the longest slice of `s` that neither starts nor ends with whitespace. */
  function Strip(s: string): (r: string)
    ensures r == [] || (!IsSpace(r[0]) && !IsSpace(r[|r| - 1]))
    ensures exists i :: StrippedAt(s, r, i)
  {
    var left := StripLeft(s);
    var r := StripRight(left);
    StripBoth(s, left, r);
    r
  }

  lemma StripBoth(s: string, left: string, r: string)
    requires |left| <= |s| && left == s[|s| - |left|..]
    requires forall k :: 0 <= k < |s| - |left| ==> IsSpace(s[k])
    requires |r| <= |left| && r == left[..|r|]
    requires forall k :: |r| <= k < |left| ==> IsSpace(left[k])
    requires left == [] || !IsSpace(left[0])
    requires r == [] || !IsSpace(r[|r| - 1])
    ensures StrippedAt(s, r, |s| - |left|)
    ensures r == [] || (!IsSpace(r[0]) && !IsSpace(r[|r| - 1]))
  {
    if r != [] {
      assert r[0] == left[0];
    }
    var i := |s| - |left|;
    forall k | i + |r| <= k < |s| ensures IsSpace(s[k]) {
      assert s[k] == left[k - i];
    }
    assert r == s[i..i + |r|];
  }

  /** `r` is the slice of `s` starting at `i`, and everything around it is whitespace. */
  predicate StrippedAt(s: string, r: string, i: int) {
    0 <= i <= |s| - |r| && r == s[i..i + |r|]
    && (forall k :: 0 <= k < i ==> IsSpace(s[k]))
    && (forall k :: i + |r| <= k < |s| ==> IsSpace(s[k]))
  }

  /** Python's `s.lower()` on ASCII letters; other characters are kept. */
  function LowerAscii(s: string): (r: string)
    ensures |r| == |s|
    ensures forall k :: 0 <= k < |s| ==> r[k] == LowerChar(s[k])
  {
    seq(|s|, k requires 0 <= k < |s| => LowerChar(s[k]))
  }

  function LowerChar(c: char): char {
    if 'A' <= c <= 'Z' then (c as int + 32) as char else c
  }
}
