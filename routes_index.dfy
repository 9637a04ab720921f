/**
 * The index handler of src/server/routes.rs end to end: the fetched feeds
 * are collected, flattened, sorted newest first, split into days and
 * deduplicated, highlighted, and written as one page.
 *
 * Issuing the requests is not part of this model: `results` holds each
 * feed's fetch outcome in the order the requests finish.
 */
module RoutesIndex {
  import opened Wrappers
  import opened Fetch
  import opened RoutesSort
  import opened RoutesDays
  import opened RoutesHighlight
  import opened RoutesRender

  datatype IndexError = NoUrls | FeedFailed(reason: string)

  /** The feeds in finishing order, or the first failure in that order (`result??`). */
  function Collected(results: seq<Result<(Feed, seq<Entry>), string>>): Result<seq<(Feed, seq<Entry>)>, string>
  {
    if results == [] then Ok([])
    else if results[0].Err? then Err(results[0].error)
    else
      match Collected(results[1..])
      case Err(e) => Err(e)
      case Ok(rest) => Ok([results[0].value] + rest)
  }

  lemma {:induction false} CollectedSpec(results: seq<Result<(Feed, seq<Entry>), string>>)
    ensures Collected(results).Ok? <==> forall k :: 0 <= k < |results| ==> results[k].Ok?
    ensures Collected(results).Ok? ==>
              |Collected(results).value| == |results| &&
              forall k :: 0 <= k < |results| ==> Collected(results).value[k] == results[k].value
    ensures Collected(results).Err? ==>
              exists k :: 0 <= k < |results| && results[k] == Err(Collected(results).error) &&
                          forall j :: 0 <= j < k ==> results[j].Ok?
    decreases |results|
  {
    if results != [] && results[0].Ok? {
      var tail := results[1..];
      CollectedSpec(tail);
      assert forall k :: 1 <= k < |results| ==> results[k] == tail[k - 1];
      if Collected(tail).Err? {
        var k :| 0 <= k < |tail| && tail[k] == Err(Collected(tail).error) &&
                 forall j :: 0 <= j < k ==> tail[j].Ok?;
        assert results[k + 1] == tail[k];
      }
    }
  }

  /** The `while let Some(result) = pending_feeds.join_next()` loop. */
  method CollectFeeds(results: seq<Result<(Feed, seq<Entry>), string>>) returns (r: Result<seq<(Feed, seq<Entry>)>, string>)
    ensures r == Collected(results)
  {
    var all: seq<(Feed, seq<Entry>)> := [];
    var i := 0;
    assert results[i..] == results;
    assert forall rest: seq<(Feed, seq<Entry>)> :: all + rest == rest;
    while i < |results|
      invariant 0 <= i <= |results|
      invariant Collected(results) == (match Collected(results[i..]) case Err(e) => Err(e) case Ok(rest) => Ok(all + rest))
    {
      assert results[i..][1..] == results[i + 1..];
      if results[i].Err? {
        return Err(results[i].error);
      }
      assert forall rest :: all + ([results[i].value] + rest) == (all + [results[i].value]) + rest;
      all := all + [results[i].value];
      i := i + 1;
    }
    assert all + [] == all;
    r := Ok(all);
  }

  /** The days shown for a list of feeds. */
  function DaysOf(feeds: seq<(Feed, seq<Entry>)>, dateOf: int -> int): seq<Day>
  {
    HighlightedDays(UrlDomain, Buckets(UrlKey, SortDesc(Flattened(feeds)), dateOf))
  }

  /** The handler's response: the page, or why there is none. */
  function IndexPage(query: Option<seq<Result<(Feed, seq<Entry>), string>>>, dateOf: int -> int, dateText: int -> string): Result<string, IndexError>
  {
    if query.None? then Err(NoUrls)
    else
      match Collected(query.value)
      case Err(e) => Err(FeedFailed(e))
      case Ok(feeds) => Ok(Page(DaysOf(feeds, dateOf), dateText))
  }

  /** `index`: no query string is an error, any failed feed is an error, otherwise the page. */
  method Index(query: Option<seq<Result<(Feed, seq<Entry>), string>>>, dateOf: int -> int, dateText: int -> string)
    returns (r: Result<string, IndexError>)
    ensures r == IndexPage(query, dateOf, dateText)
  {
    if query.None? {
      return Err(NoUrls);
    }
    var collected := CollectFeeds(query.value);
    if collected.Err? {
      return Err(FeedFailed(collected.error));
    }
    var all := Flatten(collected.value);
    var sorted := SortDesc(all);
    var days := BuildDays(sorted, dateOf);
    days := HighlightDays(days);
    var html := Render(days, dateText);
    r := Ok(html);
  }

  // ---------------------------------------------------------------------
  // What the page shows

  lemma {:induction false} SumCountsSameCounts(a: seq<ItemWithFeed>, b: seq<ItemWithFeed>)
    requires |a| == |b| && forall k :: 0 <= k < |a| ==> a[k].count == b[k].count
    ensures SumCounts(a) == SumCounts(b)
    decreases |a|
  {
    if a != [] {
      SumCountsSameCounts(a[..|a| - 1], b[..|b| - 1]);
    }
  }

  /** Highlighting changes no count, so the total of all counts stays the same. */
  lemma {:induction false} HighlightKeepsTotal(domain: Entry -> string, days: seq<Day>)
    ensures TotalCount(HighlightedDays(domain, days)) == TotalCount(days)
    decreases |days|
  {
    if days != [] {
      var n := |days| - 1;
      HighlightKeepsTotal(domain, days[..n]);
      assert HighlightedDays(domain, days)[..n] == HighlightedDays(domain, days[..n]);
      SumCountsSameCounts(Highlighted(domain, days[n]).items, days[n].items);
    }
  }

  /**
   * Every fetched item is accounted for in exactly one shown entry's count;
   * no day is empty; and with a monotone local date the days run strictly
   * newest first.
   */
  lemma DaysOfFacts(feeds: seq<(Feed, seq<Entry>)>, dateOf: int -> int)
    ensures TotalCount(DaysOf(feeds, dateOf)) == Total(feeds)
    ensures forall d :: 0 <= d < |DaysOf(feeds, dateOf)| ==> DaysOf(feeds, dateOf)[d].items != []
    ensures Monotone(dateOf) ==>
              forall d, e :: 0 <= d < e < |DaysOf(feeds, dateOf)| ==>
                DaysOf(feeds, dateOf)[d].date > DaysOf(feeds, dateOf)[e].date
  {
    var sorted := SortDesc(Flattened(feeds));
    var days := Buckets(UrlKey, sorted, dateOf);
    FlattenedLength(feeds);
    BucketsCountAll(UrlKey, sorted, dateOf);
    HighlightKeepsTotal(UrlDomain, days);
    BucketsShape(UrlKey, sorted, dateOf);
    SortDescSortedPermutation(Flattened(feeds));
    if Monotone(dateOf) {
      BucketsDatesDecrease(UrlKey, sorted, dateOf);
    }
  }
}
