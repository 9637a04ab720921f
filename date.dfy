/**
 * `parse_date` of src/fetch/date.rs: a fixed chain of textual rewrites,
 * then four timestamp parsers tried in order. The parsers belong to the
 * chrono library and are parameters of the model.
 */
module DateParse {
  import opened Wrappers
  import opened Strings

  /** The chrono format of "01 August 2025 07:00:00 +0000". */
  const Rfc1123: string := "%d %B %Y %H:%M:%S %z"

  /** The chrono format of "2025-08-26 21:29:20 +0000". */
  const GithubDate: string := "%Y-%m-%d %H:%M:%S %z"

  /** The weekday prefixes removed before parsing, in the order they are removed. */
  const Weekdays: seq<string> := ["Mon, ", "Tue, ", "Wed, ", "Thu, ", "Fri, ", "Sat, ", "Sun, "]

  /** A parsed timestamp with its UTC offset, as chrono's `DateTime<FixedOffset>`. */
  datatype OffsetTime = OffsetTime(local: int, offset: int)

  /** `with_timezone(&Utc)`: the instant, local time less the offset. */
  function ToUtc(t: OffsetTime): int
  {
    t.local - t.offset
  }

  /**
   * The chrono parsers: `parse_from_rfc3339`, `parse_from_rfc2822` and
   * `parse_from_str(input, format)`, each failing with `None`.
   */
  datatype Parsers = Parsers(
    rfc3339: string -> Option<OffsetTime>,
    rfc2822: string -> Option<OffsetTime>,
    withFormat: (string, string) -> Option<OffsetTime>)

  /** The text of `s` without any of the nine rewrite patterns. */
  predicate PatternFree(s: string)
  {
    !Contains(s, "GMT") && !Contains(s, "UTC") &&
    forall i :: 0 <= i < |Weekdays| ==> !Contains(s, Weekdays[i])
  }

  /** Each pattern of `pats` removed in turn, each removal one left-to-right pass. */
  function RemoveEach(s: string, pats: seq<string>): (r: string)
    requires forall i :: 0 <= i < |pats| ==> |pats[i]| > 0
    ensures (forall i :: 0 <= i < |pats| ==> !Contains(s, pats[i])) ==> r == s
    decreases |pats|
  {
    if pats == [] then s
    else
      assert forall i :: 1 <= i < |pats| ==> pats[1..][i - 1] == pats[i];
      ReplaceAbsent(s, pats[0], "");
      RemoveEach(ReplaceAll(s, pats[0], ""), pats[1..])
  }

  /**
   * The rewrite chain, in its fixed order: "GMT" and then "UTC" become
   * "+0000", then each weekday prefix from "Mon, " to "Sun, " is removed.
   * An input without any of the nine patterns reaches the parsers unchanged.
   */
  function Preprocess(raw: string): (r: string)
    ensures PatternFree(raw) ==> r == raw
  {
    ReplaceAbsent(raw, "GMT", "+0000");
    ReplaceAbsent(ReplaceAll(raw, "GMT", "+0000"), "UTC", "+0000");
    RemoveEach(ReplaceAll(ReplaceAll(raw, "GMT", "+0000"), "UTC", "+0000"), Weekdays)
  }

  /** The four parse attempts on the rewritten input, in the order they are tried. */
  function Attempts(p: Parsers, input: string): (r: seq<Option<OffsetTime>>)
    ensures |r| == 4
  {
    [p.rfc3339(input), p.rfc2822(input), p.withFormat(input, Rfc1123), p.withFormat(input, GithubDate)]
  }

  /** The first successful attempt, `or_else` after `or_else`. */
  function FirstSuccess(attempts: seq<Option<OffsetTime>>): (r: Option<OffsetTime>)
    ensures r.None? <==> forall i :: 0 <= i < |attempts| ==> attempts[i].None?
    ensures r.Some? ==> exists i :: 0 <= i < |attempts| && attempts[i] == r &&
                          forall j :: 0 <= j < i ==> attempts[j].None?
  {
    if attempts == [] then None
    else if attempts[0].Some? then
      attempts[0]
    else
      var r := FirstSuccess(attempts[1..]);
      assert forall i :: 1 <= i < |attempts| ==> attempts[i] == attempts[1..][i - 1];
      if r.Some? then
        var i :| 0 <= i < |attempts[1..]| && attempts[1..][i] == r &&
                 forall j :: 0 <= j < i ==> attempts[1..][j].None?;
        assert attempts[i + 1] == r;
        r
      else r
  }

  /**
   * `parse_date`: `None` exactly when all four parsers reject the rewritten
   * input; otherwise the UTC instant of the first parser that accepts it.
   */
  function ParseDate(p: Parsers, raw: string): (r: Option<int>)
    ensures r.None? <==> forall i :: 0 <= i < 4 ==> Attempts(p, Preprocess(raw))[i].None?
    ensures r.Some? ==> exists i :: 0 <= i < 4 && Attempts(p, Preprocess(raw))[i].Some? &&
                          ToUtc(Attempts(p, Preprocess(raw))[i].value) == r.value &&
                          forall j :: 0 <= j < i ==> Attempts(p, Preprocess(raw))[j].None?
  {
    match FirstSuccess(Attempts(p, Preprocess(raw)))
    case Some(t) => Some(ToUtc(t))
    case None => None
  }

  /** Removing `p` and then `q` is removing `p + q`. */
  lemma {:induction false} RemoveEachAppend(s: string, p: seq<string>, q: seq<string>)
    requires forall i :: 0 <= i < |p| ==> |p[i]| > 0
    requires forall i :: 0 <= i < |q| ==> |q[i]| > 0
    ensures forall i :: 0 <= i < |p + q| ==> |(p + q)[i]| > 0
    ensures RemoveEach(s, p + q) == RemoveEach(RemoveEach(s, p), q)
    decreases |p|
  {
    assert forall i :: 0 <= i < |p + q| ==> (p + q)[i] == if i < |p| then p[i] else q[i - |p|];
    if p == [] {
      assert p + q == q;
    } else {
      assert (p + q)[0] == p[0] && (p + q)[1..] == p[1..] + q;
      assert forall i :: 1 <= i < |p| ==> p[1..][i - 1] == p[i];
      RemoveEachAppend(ReplaceAll(s, p[0], ""), p[1..], q);
    }
  }

  /** A pattern-free text followed by "+0000" is still free of `pat`, which has no '+' and no leading '0'. */
  lemma OffsetKeepsFree(x: string, pat: string)
    requires |pat| > 0 && !Contains(x, pat)
    requires '+' !in pat[1..] && pat[0] != '+' && pat[0] != '0'
    ensures !Contains(x + "+0000", pat)
  {
    ContainsSplit(x, "+0000", pat);
    ContainsAfterPrefix("+0000", [], pat);
    assert "+0000" + [] == "+0000";
  }

  /** What the weekday patterns have in common, used to show they do not straddle a seam. */
  lemma WeekdayShape(i: int)
    requires 0 <= i < |Weekdays|
    ensures |Weekdays[i]| == 5
    ensures Weekdays[i][0] != '+' && Weekdays[i][0] != '0' && '+' !in Weekdays[i][1..]
    ensures i != 4 ==> Weekdays[i][0] !in "Fri, "
  {
  }

  /** From "Fri, " on, the weekday passes remove the leading "Fri, " of `t` and nothing else. */
  lemma LateWeekdaysPasses(u: string, t: string)
    requires t == "Fri, " + u
    requires forall i :: 4 <= i < 7 ==> !Contains(u, Weekdays[i])
    ensures RemoveEach(t, Weekdays[4..]) == u
  {
    var late := Weekdays[4..];
    assert late[0] == "Fri, " && late[1..] == Weekdays[5..];
    ReplaceAtFront(u, "Fri, ", "");
    ReplaceAbsent(u, "Fri, ", "");
    assert "" + u == u;
    assert forall i :: 0 <= i < 2 ==> Weekdays[5..][i] == Weekdays[i + 5];
  }

  /** No weekday occurs in `x` followed by "+0000". */
  lemma WeekdaysAbsentWithOffset(x: string)
    requires PatternFree(x)
    ensures forall i :: 0 <= i < 7 ==> !Contains(x + "+0000", Weekdays[i])
  {
    forall i | 0 <= i < 7 ensures !Contains(x + "+0000", Weekdays[i]) {
      WeekdayShape(i);
      OffsetKeepsFree(x, Weekdays[i]);
    }
  }

  /** The "GMT" and "UTC" passes of `PreprocessFridayGmt`. */
  lemma FridayOffsetPasses(x: string, t: string)
    requires PatternFree(x) && t == "Fri, " + (x + "+0000")
    ensures ReplaceAll(ReplaceAll("Fri, " + x + "GMT", "GMT", "+0000"), "UTC", "+0000") == t
  {
    var a := "Fri, " + x;
    ContainsAfterPrefix("Fri, ", x, "GMT");
    ReplaceTrailing(a, "GMT", "+0000");
    assert a + "+0000" == t;
    OffsetKeepsFree(x, "UTC");
    ContainsAfterPrefix("Fri, ", x + "+0000", "UTC");
    ReplaceAbsent(t, "UTC", "+0000");
  }

  /** No weekday before "Fri, " occurs in `t`. */
  lemma EarlyWeekdaysAbsent(x: string, t: string)
    requires PatternFree(x) && t == "Fri, " + (x + "+0000")
    ensures forall i :: 0 <= i < 4 ==> !Contains(t, Weekdays[..4][i])
  {
    forall i | 0 <= i < 4 ensures !Contains(t, Weekdays[..4][i]) {
      WeekdayShape(i);
      OffsetKeepsFree(x, Weekdays[i]);
      ContainsAfterPrefix("Fri, ", x + "+0000", Weekdays[i]);
    }
  }

  /** The weekday passes of `PreprocessFridayGmt`: only "Fri, " matches, once, at the front. */
  lemma FridayWeekdayPasses(x: string, u: string, t: string)
    requires PatternFree(x) && u == x + "+0000" && t == "Fri, " + u
    ensures RemoveEach(t, Weekdays) == u
  {
    WeekdaysAbsentWithOffset(x);
    EarlyWeekdaysAbsent(x, t);
    var early, late := Weekdays[..4], Weekdays[4..];
    assert Weekdays == early + late;
    RemoveEachAppend(t, early, late);
    assert RemoveEach(t, early) == t;
    LateWeekdaysPasses(u, t);
  }

  /**
   * The RFC 1123-like shape of the source's comment: "Fri, 01 August 2025
   * 07:00:00 GMT" becomes "01 August 2025 07:00:00 +0000", and so does every
   * "Fri, " x "GMT" whose middle part x has none of the nine patterns.
   */
  lemma PreprocessFridayGmt(x: string)
    requires PatternFree(x)
    ensures Preprocess("Fri, " + x + "GMT") == x + "+0000"
  {
    var u := x + "+0000";
    FridayOffsetPasses(x, "Fri, " + u);
    FridayWeekdayPasses(x, u, "Fri, " + u);
  }

  /**
   * GitHub's shape of the source's comment: "2025-08-26 21:29:20 UTC" becomes
   * "2025-08-26 21:29:20 +0000", and so does every x "UTC" whose x has none
   * of the nine patterns.
   */
  lemma PreprocessTrailingUtc(x: string)
    requires PatternFree(x)
    ensures Preprocess(x + "UTC") == x + "+0000"
  {
    ContainsSplit(x, "UTC", "GMT");
    ContainsAfterPrefix("UTC", [], "GMT");
    assert "UTC" + [] == "UTC";
    ReplaceAbsent(x + "UTC", "GMT", "+0000");
    ReplaceTrailing(x, "UTC", "+0000");
    WeekdaysAbsentWithOffset(x);
  }

  /**
   * Each weekday is removed in a single pass, so a removal can bring a new
   * occurrence together: "MoMon, n, " loses its inner "Mon, " and becomes "Mon, ".
   */
  lemma SinglePassRemoval()
    ensures ReplaceAll("MoMon, n, 1", "Mon, ", "") == "Mon, 1"
  {
  }
}
