/** String searching primitives shared by the URL, date and extraction models. */
module Strings {
  import opened Wrappers

  /** `pat` occurs in `s` starting at index `i`. */
  predicate OccursAt(s: string, pat: string, i: int)
  {
    0 <= i && i + |pat| <= |s| && s[i..i + |pat|] == pat
  }

  predicate Contains(s: string, pat: string)
  {
    exists i | 0 <= i <= |s| :: OccursAt(s, pat, i)
  }

  /** `str::find`: the index of the first occurrence of `pat` in `s`. */
  function Find(s: string, pat: string): (r: Option<nat>)
    ensures r.Some? ==> OccursAt(s, pat, r.value)
    ensures r.Some? ==> forall i :: 0 <= i < r.value ==> !OccursAt(s, pat, i)
    ensures r.None? ==> forall i :: !OccursAt(s, pat, i)
    decreases |s|
  {
    if |s| < |pat| then
      assert forall i :: !OccursAt(s, pat, i);
      None
    else if s[..|pat|] == pat then
      Some(0)
    else
      match Find(s[1..], pat)
      case None =>
        assert forall i :: OccursAt(s, pat, i) ==> i == 0 || OccursAt(s[1..], pat, i - 1);
        None
      case Some(j) =>
        assert OccursAt(s, pat, j + 1) by { assert s[j + 1..j + 1 + |pat|] == s[1..][j..j + |pat|]; }
        assert forall i :: 1 <= i <= j ==> OccursAt(s, pat, i) ==> OccursAt(s[1..], pat, i - 1);
        Some(j + 1)
  }

  /** `str::split_once`: the text before and after the first occurrence of `pat`. */
  function SplitOnce(s: string, pat: string): (r: Option<(string, string)>)
    ensures r.None? <==> !Contains(s, pat)
    ensures r.Some? ==> s == r.value.0 + pat + r.value.1
    ensures r.Some? && |pat| > 0 ==> !Contains(r.value.0, pat)
    ensures r.Some? ==> forall i :: 0 <= i < |r.value.0| ==> !OccursAt(s, pat, i)
  {
    match Find(s, pat)
    case None => None
    case Some(i) =>
      var before, after := s[..i], s[i + |pat|..];
      assert s == before + pat + after;
      assert |pat| > 0 ==> !Contains(before, pat) by {
        if |pat| > 0 { NoEarlierOccurrence(s, i, pat); }
      }
      Some((before, after))
  }

  /** With no occurrence starting before `n`, the prefix `s[..n]` has none. */
  lemma NoEarlierOccurrence(s: string, n: nat, pat: string)
    requires n <= |s| && |pat| > 0
    requires forall k :: 0 <= k < n ==> !OccursAt(s, pat, k)
    ensures !Contains(s[..n], pat)
  {
    forall k | OccursAt(s[..n], pat, k) ensures false {
      assert s[k..k + |pat|] == s[..n][k..k + |pat|];
      assert OccursAt(s, pat, k);
    }
  }

  /** `str::strip_prefix`. */
  function StripPrefix(s: string, p: string): (r: Option<string>)
    ensures r.Some? <==> p <= s
    ensures r.Some? ==> s == p + r.value
  {
    if p <= s then Some(s[|p|..]) else None
  }

  /** An occurrence in the tail of `s` is an occurrence in `s`, one place later. */
  lemma ContainsTail(s: string, pat: string)
    requires s != []
    ensures Contains(s[1..], pat) ==> Contains(s, pat)
  {
    if Contains(s[1..], pat) {
      var i :| 0 <= i <= |s[1..]| && OccursAt(s[1..], pat, i);
      assert s[i + 1..i + 1 + |pat|] == s[1..][i..i + |pat|];
      assert OccursAt(s, pat, i + 1);
    }
  }

  /**
   * `str::replace`: every occurrence of `pat`, found left to right without
   * overlapping, replaced by `rep`. The patterns used in the model are never
   * empty.
   */
  function ReplaceAll(s: string, pat: string, rep: string): string
    requires |pat| > 0
    decreases |s|
  {
    if |s| < |pat| then s
    else if s[..|pat|] == pat then rep + ReplaceAll(s[|pat|..], pat, rep)
    else [s[0]] + ReplaceAll(s[1..], pat, rep)
  }

  /** Replacing a pattern that does not occur leaves the text as it was. */
  lemma {:induction false} ReplaceAbsent(s: string, pat: string, rep: string)
    requires |pat| > 0
    ensures !Contains(s, pat) ==> ReplaceAll(s, pat, rep) == s
    decreases |s|
  {
    if |s| >= |pat| && !Contains(s, pat) {
      assert !OccursAt(s, pat, 0);
      ContainsTail(s, pat);
      ReplaceAbsent(s[1..], pat, rep);
    }
  }

  /** Searching for a one-character pattern is testing membership. */
  lemma ContainsChar(s: string, c: char)
    ensures Contains(s, [c]) <==> c in s
  {
    if c in s {
      var i :| 0 <= i < |s| && s[i] == c;
      assert OccursAt(s, [c], i);
    }
    if Contains(s, [c]) {
      var i :| 0 <= i <= |s| && OccursAt(s, [c], i);
      assert s[i] == s[i..i + 1][0];
    }
  }

  /** An occurrence in `a + b` cannot start inside `a` when `a` lacks the pattern's first character. */
  lemma ContainsAfterPrefix(a: string, b: string, pat: string)
    requires |pat| > 0 && pat[0] !in a
    ensures Contains(a + b, pat) ==> Contains(b, pat)
  {
    if Contains(a + b, pat) {
      var i :| 0 <= i <= |a + b| && OccursAt(a + b, pat, i);
      assert (a + b)[i] == pat[0];
      assert (a + b)[i..i + |pat|] == b[i - |a|..i - |a| + |pat|];
      assert OccursAt(b, pat, i - |a|);
    }
  }

  /** An occurrence that straddles the seam of `a + b` has `b`'s first character past its front. */
  lemma StraddleChar(a: string, b: string, pat: string, i: nat)
    requires OccursAt(a + b, pat, i) && i < |a| < i + |pat|
    ensures b != [] && b[0] in pat[1..]
  {
    assert (a + b)[i..i + |pat|][|a| - i] == b[0];
    assert pat[1..][|a| - i - 1] == b[0];
  }

  /** An occurrence in `a + b` that ends within `a` is an occurrence in `a`. */
  lemma PrefixOccurrence(a: string, b: string, pat: string, i: nat)
    requires OccursAt(a + b, pat, i) && i + |pat| <= |a|
    ensures Contains(a, pat)
  {
    assert (a + b)[i..i + |pat|] == a[i..i + |pat|];
    assert OccursAt(a, pat, i);
  }

  /** Under the conditions of `ContainsSplit`, no occurrence starts at the front of `a + b`. */
  lemma NoOccurrenceAtFront(a: string, b: string, pat: string)
    requires |pat| > 0 && !Contains(a, pat) && a != []
    requires b != [] && b[0] !in pat[1..]
    ensures !OccursAt(a + b, pat, 0)
  {
    if OccursAt(a + b, pat, 0) {
      if |pat| <= |a| {
        PrefixOccurrence(a, b, pat, 0);
      } else {
        StraddleChar(a, b, pat, 0);
      }
    }
  }

  /**
   * When the first character of `b` occurs in `pat` at most at its front, no
   * occurrence straddles the seam of `a + b`.
   */
  lemma ContainsSplit(a: string, b: string, pat: string)
    requires |pat| > 0 && b != [] && b[0] !in pat[1..]
    ensures Contains(a + b, pat) ==> Contains(a, pat) || Contains(b, pat)
  {
    if Contains(a + b, pat) {
      var i :| 0 <= i <= |a + b| && OccursAt(a + b, pat, i);
      if i + |pat| <= |a| {
        PrefixOccurrence(a, b, pat, i);
      } else if i >= |a| {
        assert (a + b)[i..i + |pat|] == b[i - |a|..i - |a| + |pat|];
        assert OccursAt(b, pat, i - |a|);
      } else {
        StraddleChar(a, b, pat, i);
      }
    }
  }

  /**
   * A pattern-free `a` is copied unchanged by `ReplaceAll` when no
   * occurrence can straddle the seam of `a + b`.
   */
  lemma {:induction false} ReplaceSkipsClean(a: string, b: string, pat: string, rep: string)
    requires |pat| > 0 && !Contains(a, pat)
    requires b != [] && b[0] !in pat[1..]
    ensures ReplaceAll(a + b, pat, rep) == a + ReplaceAll(b, pat, rep)
    decreases |a|
  {
    if a == [] {
      assert a + b == b;
    } else {
      var s := a + b;
      if |s| < |pat| {
        assert ReplaceAll(b, pat, rep) == b;
      } else {
        NoOccurrenceAtFront(a, b, pat);
        assert s[..|pat|] != pat by { assert !OccursAt(s, pat, 0); }
        assert s[1..] == a[1..] + b;
        ContainsTail(a, pat);
        ReplaceSkipsClean(a[1..], b, pat, rep);
        calc {
          ReplaceAll(s, pat, rep);
          [s[0]] + ReplaceAll(s[1..], pat, rep);
          [a[0]] + (a[1..] + ReplaceAll(b, pat, rep));
          { assert [a[0]] + a[1..] == a; }
          a + ReplaceAll(b, pat, rep);
        }
      }
    }
  }

  /** A match at the front is replaced, and the search resumes after it. */
  lemma ReplaceAtFront(b: string, pat: string, rep: string)
    requires |pat| > 0
    ensures ReplaceAll(pat + b, pat, rep) == rep + ReplaceAll(b, pat, rep)
  {
    assert (pat + b)[..|pat|] == pat;
    assert (pat + b)[|pat|..] == b;
  }

  /**
   * A pattern-free `a` followed by one occurrence of a pattern that cannot
   * overlap itself: only that occurrence is replaced.
   */
  lemma ReplaceTrailing(a: string, pat: string, rep: string)
    requires |pat| > 0 && !Contains(a, pat) && pat[0] !in pat[1..]
    ensures ReplaceAll(a + pat, pat, rep) == a + rep
  {
    ReplaceSkipsClean(a, pat, pat, rep);
    ReplaceAtFront([], pat, rep);
    assert pat + [] == pat && rep + [] == rep;
  }

  /** Searching for one character finds its first position. */
  lemma FindChar(s: string, c: char)
    ensures Find(s, [c]).None? <==> c !in s
    ensures Find(s, [c]).Some? ==> s[Find(s, [c]).value] == c && c !in s[..Find(s, [c]).value]
  {
    ContainsChar(s, c);
    match Find(s, [c])
    case None =>
    case Some(i) =>
      assert s[i..i + 1] == [c];
      assert forall j :: 0 <= j < i ==> s[j] == c ==> OccursAt(s, [c], j);
  }
}
