/** The handful of Python string operations the scraper relies on:
    `str.strip()`, `str.lower()`, the substring test `p in s` and
    `s.replace(p, "")`. */
module Text {

  /** Python's `str.isspace()`, the set `str.strip()` removes when called
      without an argument. */
  predicate IsSpace(c: char) {
    || c == ' '
    || ('\t' <= c <= '\r')
    || ('\U{1C}' <= c <= '\U{1F}')
    || c == '\U{85}' || c == '\U{A0}' || c == '\U{1680}'
    || ('\U{2000}' <= c <= '\U{200A}')
    || c == '\U{2028}' || c == '\U{2029}' || c == '\U{202F}'
    || c == '\U{205F}' || c == '\U{3000}'
  }

  /** The end of the run of whitespace that starts at index `k`. */
  function SpaceRunFrom(s: string, k: nat): (n: nat)
    requires k <= |s|
    ensures k <= n <= |s|
    ensures forall j :: k <= j < n ==> IsSpace(s[j])
    ensures n == |s| || !IsSpace(s[n])
    decreases |s| - k
  {
    if k < |s| && IsSpace(s[k]) then SpaceRunFrom(s, k + 1) else k
  }

  /** The start of the run of whitespace that ends just before index `k`. */
  function SpaceRunBefore(s: string, k: nat): (n: nat)
    requires k <= |s|
    ensures n <= k
    ensures forall j :: n <= j < k ==> IsSpace(s[j])
    ensures n == 0 || !IsSpace(s[n - 1])
  {
    if k > 0 && IsSpace(s[k - 1]) then SpaceRunBefore(s, k - 1) else k
  }

  /** Leading whitespace removed: the longest suffix of `s` that does not
      start with whitespace, and everything cut off is whitespace. */
  function TrimStart(s: string): (r: string)
    ensures |r| <= |s| && r == s[|s| - |r|..]
    ensures forall i :: 0 <= i < |s| - |r| ==> IsSpace(s[i])
    ensures r == [] || !IsSpace(r[0])
  {
    s[SpaceRunFrom(s, 0)..]
  }

  /** Trailing whitespace removed: the longest prefix of `s` that does not
      end with whitespace, and everything cut off is whitespace. */
  function TrimEnd(s: string): (r: string)
    ensures |r| <= |s| && r == s[..|r|]
    ensures forall i :: |r| <= i < |s| ==> IsSpace(s[i])
    ensures r == [] || !IsSpace(r[|r| - 1])
  {
    s[..SpaceRunBefore(s, |s|)]
  }

  /** Python's `s.strip()`. */
  function Strip(s: string): (r: string)
    ensures |r| <= |s|
    ensures r == [] || (!IsSpace(r[0]) && !IsSpace(r[|r| - 1]))
  {
    TrimEnd(TrimStart(s))
  }

  /** `strip()` returns the middle of `s` once every leading and every
      trailing whitespace character is cut, and nothing more. */
  lemma StripIsMiddle(s: string)
    ensures var r, i := Strip(s), |s| - |TrimStart(s)|;
      && i + |r| <= |s| && r == s[i..i + |r|]
      && (forall j :: 0 <= j < i ==> IsSpace(s[j]))
      && (forall j :: i + |r| <= j < |s| ==> IsSpace(s[j]))
  {
    var t := TrimStart(s);
    var i := |s| - |t|;
    var r := Strip(s);
    assert r == t[..|r|];
    forall j | i + |r| <= j < |s|
      ensures IsSpace(s[j])
    {
      assert s[j] == t[j - i];
    }
  }

  /** A string that neither starts nor ends with whitespace is its own strip. */
  lemma StripUnpadded(s: string)
    requires s != [] && !IsSpace(s[0]) && !IsSpace(s[|s| - 1])
    ensures Strip(s) == s
  {
  }

  function LowerChar(c: char): char {
    if 'A' <= c <= 'Z' then (c as int + ('a' as int - 'A' as int)) as char else c
  }

  /** Python's `s.lower()`, restricted to ASCII letters. */
  function Lower(s: string): (r: string) {
    seq(|s|, i requires 0 <= i < |s| => LowerChar(s[i]))
  }

  /** No ASCII capital letter occurs in `s`. */
  predicate NoUpper(s: string) {
    forall i :: 0 <= i < |s| ==> !('A' <= s[i] <= 'Z')
  }

  /** Lowering leaves no capital behind, and a string without capitals is
      already lowered; so lowering twice is lowering once. */
  lemma LowerNormalizes(s: string)
    ensures NoUpper(Lower(s))
    ensures NoUpper(s) ==> Lower(s) == s
    ensures Lower(Lower(s)) == Lower(s)
  {
  }

  predicate StartsWith(s: string, p: string) {
    |p| <= |s| && s[..|p|] == p
  }

  /** Python's `p in s` for strings, scanning `s` from the left. */
  predicate Contains(s: string, p: string)
    decreases |s|
  {
    StartsWith(s, p) || (|s| > 0 && Contains(s[1..], p))
  }

  /** `p` occurs in `s` at index `i`. */
  predicate OccursAt(s: string, p: string, i: int) {
    0 <= i && i + |p| <= |s| && s[i..i + |p|] == p
  }

  /** The left-to-right scan finds `p` exactly when `p` occurs at some index. */
  lemma {:induction false} ContainsIffOccurs(s: string, p: string)
    ensures Contains(s, p) <==> exists i :: OccursAt(s, p, i)
    decreases |s|
  {
    if Contains(s, p) {
      if StartsWith(s, p) {
        assert OccursAt(s, p, 0);
      } else {
        ContainsIffOccurs(s[1..], p);
        var i :| OccursAt(s[1..], p, i);
        assert s[1..][i..i + |p|] == s[i + 1..i + 1 + |p|];
        assert OccursAt(s, p, i + 1);
      }
    }
    if i :| OccursAt(s, p, i) {
      if i == 0 {
        assert StartsWith(s, p);
      } else {
        assert s[1..][i - 1..i - 1 + |p|] == s[i..i + |p|];
        assert OccursAt(s[1..], p, i - 1);
        ContainsIffOccurs(s[1..], p);
      }
    }
  }

  /** A string holding a pattern also holds every prefix of that pattern. */
  lemma {:induction false} ContainsPrefixOfPattern(s: string, p: string, q: string)
    requires Contains(s, p + q)
    ensures Contains(s, p)
    decreases |s|
  {
    if StartsWith(s, p + q) {
      assert s[..|p|] == (p + q)[..|p|] == p;
    } else {
      ContainsPrefixOfPattern(s[1..], p, q);
    }
  }

  /** What occurs in a prefix of `s` occurs in `s`. */
  lemma {:induction false} ContainsInPrefix(s: string, k: nat, p: string)
    requires k <= |s| && Contains(s[..k], p)
    ensures Contains(s, p)
    decreases k
  {
    if StartsWith(s[..k], p) {
      assert s[..k][..|p|] == s[..|p|];
    } else {
      assert s[..k][1..] == s[1..][..k - 1];
      ContainsInPrefix(s[1..], k - 1, p);
    }
  }

  /** What occurs in a suffix of `s` occurs in `s`. */
  lemma {:induction false} ContainsInSuffix(s: string, k: nat, p: string)
    requires k <= |s| && Contains(s[k..], p)
    ensures Contains(s, p)
    decreases k
  {
    if k > 0 {
      assert s[k..] == s[1..][k - 1..];
      ContainsInSuffix(s[1..], k - 1, p);
    }
  }

  /** Whatever occurs in the stripped string occurs in the original. */
  lemma StripContains(s: string, p: string)
    requires Contains(Strip(s), p)
    ensures Contains(s, p)
  {
    var t := TrimStart(s);
    ContainsInPrefix(t, |Strip(s)|, p);
    ContainsInSuffix(s, |s| - |t|, p);
  }

  /** Python's `s.replace(p, "")`: occurrences of `p` are found from the
      left and do not overlap. */
  function RemoveAll(s: string, p: string): (r: string)
    requires p != []
    ensures |r| <= |s|
    decreases |s|
  {
    if |s| < |p| then s
    else if s[..|p|] == p then RemoveAll(s[|p|..], p)
    else [s[0]] + RemoveAll(s[1..], p)
  }

  /** Removing a pattern that does not occur changes nothing. */
  lemma {:induction false} RemoveAllAbsent(s: string, p: string)
    requires p != [] && !Contains(s, p)
    ensures RemoveAll(s, p) == s
    decreases |s|
  {
    if |s| >= |p| {
      assert !StartsWith(s, p);
      RemoveAllAbsent(s[1..], p);
      assert [s[0]] + s[1..] == s;
    }
  }

  /** A first character that cannot start the pattern passes through. */
  lemma RemoveAllKeepsHead(c: char, s: string, p: string)
    requires p != [] && c != p[0]
    ensures RemoveAll([c] + s, p) == [c] + RemoveAll(s, p)
  {
    var cs := [c] + s;
    assert cs[1..] == s;
    if |cs| < |p| {
      assert |s| < |p|;
    } else {
      assert cs[..|p|][0] == c;
    }
  }

  /** A prefix without the pattern's first character passes through untouched. */
  lemma {:induction false} RemoveAllKeepsPrefix(t: string, s: string, p: string)
    requires p != [] && forall i :: 0 <= i < |t| ==> t[i] != p[0]
    ensures RemoveAll(t + s, p) == t + RemoveAll(s, p)
    decreases |t|
  {
    if t != [] {
      var rest := RemoveAll(s, p);
      calc {
        RemoveAll(t + s, p);
        { assert t + s == [t[0]] + (t[1..] + s); }
        RemoveAll([t[0]] + (t[1..] + s), p);
        { RemoveAllKeepsHead(t[0], t[1..] + s, p); }
        [t[0]] + RemoveAll(t[1..] + s, p);
        { RemoveAllKeepsPrefix(t[1..], s, p); }
        [t[0]] + (t[1..] + rest);
        { assert t == [t[0]] + t[1..]; }
        t + rest;
      }
    } else {
      assert t + s == s;
    }
  }

  function Backticks(): string { "```" }

  /** A string that does not start with two backticks keeps that property
      once its triple backticks are removed. */
  lemma NoDoubleTickAfterRemoval(x: string)
    requires !(|x| >= 2 && x[0] == '`' && x[1] == '`')
    ensures var r := RemoveAll(x, Backticks());
            !(|r| >= 2 && r[0] == '`' && r[1] == '`')
  {
    if |x| >= 3 {
      assert x[..3] != Backticks();
      if x[0] == '`' {
        var y := x[1..];
        if |y| >= 3 {
          assert y[..3] != Backticks();
        }
      }
    }
  }

  /** Removing every triple backtick leaves none behind: no new one can form
      across the place where one was cut out. */
  lemma {:induction false} RemoveBackticksLeavesNone(s: string)
    ensures !Contains(RemoveAll(s, Backticks()), Backticks())
    decreases |s|
  {
    var b := Backticks();
    if |s| < 3 {
      assert RemoveAll(s, b) == s;
      ShortDoesNotContain(s, b);
    } else if s[..3] == b {
      RemoveBackticksLeavesNone(s[3..]);
    } else {
      var t := RemoveAll(s[1..], b);
      RemoveBackticksLeavesNone(s[1..]);
      var r := [s[0]] + t;
      assert RemoveAll(s, b) == r;
      assert r[1..] == t;
      if s[0] == '`' {
        NoDoubleTickAfterRemoval(s[1..]);
      }
      assert !StartsWith(r, b);
    }
  }

  lemma {:induction false} ShortDoesNotContain(s: string, p: string)
    requires |s| < |p|
    ensures !Contains(s, p)
    decreases |s|
  {
    if |s| > 0 {
      ShortDoesNotContain(s[1..], p);
    }
  }
}
