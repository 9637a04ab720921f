/**
 * The day buckets of the index handler of src/server/routes.rs: the sorted
 * pairs are cut into days by their local calendar date, and inside each day
 * items with the same fragment-free link are collapsed into one counted
 * entry. The local date of a timestamp is the parameter `dateOf`.
 *
 * `Buckets` is the specification, one pair at a time; `BuildDays` is the
 * loop with its index map. `Runs` cuts the input into the maximal runs of
 * one date, and each day is `Dedup` of its run.
 */
module RoutesDays {
  import opened Wrappers
  import opened Fetch
  import opened RoutesSort
  import RoutesUrl

  /** One entry of a day: the first occurrence's feed, the last occurrence's item, and how many collapsed. */
  datatype ItemWithFeed = ItemWithFeed(feed: Feed, item: Entry, count: nat, highlighted: bool)

  datatype Day = Day(date: int, items: seq<ItemWithFeed>)

  /**
   * The dedup key of routes.rs: the link without its fragment. The
   * specification below is stated for any key function `key`; routes.rs
   * uses this one.
   */
  function UrlKey(e: Entry): string
  {
    RoutesUrl.UrlPrefix(e.href)
  }

  /** The first entry with key `k`. */
  function FindKey(key: Entry -> string, items: seq<ItemWithFeed>, k: string): (r: Option<nat>)
    ensures r.Some? ==> r.value < |items| && key(items[r.value].item) == k
    ensures r.Some? ==> forall a :: 0 <= a < r.value ==> key(items[a].item) != k
    ensures r.None? <==> forall a :: 0 <= a < |items| ==> key(items[a].item) != k
  {
    if items == [] then None
    else if key(items[0].item) == k then Some(0)
    else
      assert forall a :: 1 <= a < |items| ==> items[a] == items[1..][a - 1];
      match FindKey(key, items[1..], k)
      case None => None
      case Some(i) => Some(i + 1)
  }

  /** The entry for a repeated key, after one more pair with that key. */
  function Bumped(e: ItemWithFeed, p: Pair): ItemWithFeed
  {
    e.(item := p.item, count := e.count + 1)
  }

  /** One item into a day: a repeated key overwrites the item and counts; a new key appends. */
  function AddToDay(key: Entry -> string, items: seq<ItemWithFeed>, p: Pair): (r: seq<ItemWithFeed>)
    ensures |r| >= 1
  {
    match FindKey(key, items, key(p.item))
    case Some(i) => items[i := Bumped(items[i], p)]
    case None => items + [ItemWithFeed(p.feed, p.item, 1, false)]
  }

  /** One pair into the days: a new day starts exactly when the date differs from the last day's. */
  function AddPair(key: Entry -> string, days: seq<Day>, p: Pair, dateOf: int -> int): seq<Day>
  {
    var d := dateOf(Ts(p));
    if days == [] || days[|days| - 1].date != d then days + [Day(d, AddToDay(key, [], p))]
    else days[|days| - 1 := Day(d, AddToDay(key, days[|days| - 1].items, p))]
  }

  /** The days built from the pairs, in order. */
  function Buckets(key: Entry -> string, pairs: seq<Pair>, dateOf: int -> int): (r: seq<Day>)
    ensures |r| <= |pairs|
    ensures pairs != [] ==> r != [] && r[|r| - 1].date == dateOf(Ts(pairs[|pairs| - 1]))
  {
    if pairs == [] then []
    else AddPair(key, Buckets(key, pairs[..|pairs| - 1], dateOf), pairs[|pairs| - 1], dateOf)
  }

  // ---------------------------------------------------------------------
  // The loop with its index map

  /** The map agrees with `FindKey` on the last day's entries. */
  ghost predicate IndexAgrees(key: Entry -> string, index: map<string, nat>, items: seq<ItemWithFeed>)
  {
    (forall k :: k in index <==> FindKey(key, items, k).Some?) &&
    (forall k :: k in index ==> FindKey(key, items, k) == Some(index[k]))
  }

  /** `FindKey` is determined by the pointwise keys: the first index with key `k`. */
  lemma FindKeyIsFirst(key: Entry -> string, items: seq<ItemWithFeed>, k: string, i: nat)
    requires i < |items| && key(items[i].item) == k
    requires forall a :: 0 <= a < i ==> key(items[a].item) != k
    ensures FindKey(key, items, k) == Some(i)
  {
  }

  lemma FindKeyAppend(key: Entry -> string, items: seq<ItemWithFeed>, x: ItemWithFeed, k: string)
    requires FindKey(key, items, key(x.item)).None?
    ensures FindKey(key, items + [x], k) == if k == key(x.item) then Some(|items|) else FindKey(key, items, k)
  {
    var items' := items + [x];
    assert forall a :: 0 <= a < |items| ==> items'[a] == items[a];
    if k == key(x.item) {
      FindKeyIsFirst(key, items', k, |items|);
    } else if FindKey(key, items, k).Some? {
      FindKeyIsFirst(key, items', k, FindKey(key, items, k).value);
    }
  }

  lemma FindKeyUpdate(key: Entry -> string, items: seq<ItemWithFeed>, i: nat, x: ItemWithFeed, k: string)
    requires i < |items| && key(x.item) == key(items[i].item)
    ensures FindKey(key, items[i := x], k) == FindKey(key, items, k)
  {
    var items' := items[i := x];
    assert forall a :: 0 <= a < |items| ==> key(items'[a].item) == key(items[a].item);
    if FindKey(key, items, k).Some? {
      FindKeyIsFirst(key, items', k, FindKey(key, items, k).value);
    }
  }

  /** A key already in the index: the entry it points to is bumped, and the index stays. */
  lemma IndexRepeat(key: Entry -> string, index: map<string, nat>, items: seq<ItemWithFeed>, p: Pair)
    requires IndexAgrees(key, index, items) && key(p.item) in index
    ensures index[key(p.item)] < |items|
    ensures AddToDay(key, items, p) == items[index[key(p.item)] := Bumped(items[index[key(p.item)]], p)]
    ensures IndexAgrees(key, index, AddToDay(key, items, p))
  {
    var at := index[key(p.item)];
    assert FindKey(key, items, key(p.item)) == Some(at);
    forall k ensures FindKey(key, items[at := Bumped(items[at], p)], k) == FindKey(key, items, k) {
      FindKeyUpdate(key, items, at, Bumped(items[at], p), k);
    }
  }

  /** A key not in the index: a new entry is appended, and the index records its position. */
  lemma IndexNew(key: Entry -> string, index: map<string, nat>, items: seq<ItemWithFeed>, p: Pair)
    requires IndexAgrees(key, index, items) && key(p.item) !in index
    ensures AddToDay(key, items, p) == items + [ItemWithFeed(p.feed, p.item, 1, false)]
    ensures IndexAgrees(key, index[key(p.item) := |items|], AddToDay(key, items, p))
  {
    var added := ItemWithFeed(p.feed, p.item, 1, false);
    forall k ensures FindKey(key, items + [added], k) == if k == key(p.item) then Some(|items|) else FindKey(key, items, k) {
      FindKeyAppend(key, items, added, k);
    }
  }

  /** The loop of routes.rs that fills the days, with `url_prefix_to_index` cleared at each new day. */
  method BuildDays(pairs: seq<Pair>, dateOf: int -> int) returns (days: seq<Day>)
    ensures days == Buckets(UrlKey, pairs, dateOf)
  {
    days := [];
    var index: map<string, nat> := map[];
    var i := 0;
    while i < |pairs|
      invariant 0 <= i <= |pairs|
      invariant days == Buckets(UrlKey, pairs[..i], dateOf)
      invariant days != [] ==> IndexAgrees(UrlKey, index, days[|days| - 1].items)
    {
      assert pairs[..i + 1][..i] == pairs[..i];
      days, index := AddItem(days, index, pairs[i], dateOf);
      i := i + 1;
    }
    assert pairs[..i] == pairs;
  }

  /** One iteration of that loop: start a day if the date changed, then merge or append the item. */
  method AddItem(days: seq<Day>, index: map<string, nat>, p: Pair, dateOf: int -> int)
    returns (days': seq<Day>, index': map<string, nat>)
    requires days != [] ==> IndexAgrees(UrlKey, index, days[|days| - 1].items)
    ensures days' == AddPair(UrlKey, days, p, dateOf)
    ensures days' != [] && IndexAgrees(UrlKey, index', days'[|days'| - 1].items)
  {
    days', index' := days, index;
    var date := dateOf(p.item.timestamp);
    if days' == [] || days'[|days'| - 1].date != date {
      days' := days' + [Day(date, [])];
      index' := map[];
    }
    var last := |days'| - 1;
    var items;
    items, index' := MergeItem(days'[last].items, index', p);
    days' := days'[last := Day(date, items)];
  }

  /** Merge the item into the day's entries through the index of their keys (`HashMap::entry`). */
  method MergeItem(items: seq<ItemWithFeed>, index: map<string, nat>, p: Pair)
    returns (items': seq<ItemWithFeed>, index': map<string, nat>)
    requires IndexAgrees(UrlKey, index, items)
    ensures items' == AddToDay(UrlKey, items, p)
    ensures IndexAgrees(UrlKey, index', items')
  {
    var prefix := RoutesUrl.UrlPrefix(p.item.href);
    assert prefix == UrlKey(p.item);
    if prefix in index {
      items', index' := BumpEntry(items, index, p, prefix);
    } else {
      items', index' := AppendEntry(items, index, p, prefix);
    }
  }

  /** The occupied arm: the indexed entry takes the new item and one more count. */
  method BumpEntry(items: seq<ItemWithFeed>, index: map<string, nat>, p: Pair, prefix: string)
    returns (items': seq<ItemWithFeed>, index': map<string, nat>)
    requires IndexAgrees(UrlKey, index, items) && prefix == UrlKey(p.item) && prefix in index
    ensures items' == AddToDay(UrlKey, items, p)
    ensures IndexAgrees(UrlKey, index', items')
  {
    IndexRepeat(UrlKey, index, items, p);
    var at := index[prefix];
    items' := items[at := items[at].(item := p.item, count := items[at].count + 1)];
    index' := index;
  }

  /** The vacant arm: a new entry with count one, recorded in the index. */
  method AppendEntry(items: seq<ItemWithFeed>, index: map<string, nat>, p: Pair, prefix: string)
    returns (items': seq<ItemWithFeed>, index': map<string, nat>)
    requires IndexAgrees(UrlKey, index, items) && prefix == UrlKey(p.item) && prefix !in index
    ensures items' == AddToDay(UrlKey, items, p)
    ensures IndexAgrees(UrlKey, index', items')
  {
    IndexNew(UrlKey, index, items, p);
    index' := index[prefix := |items|];
    items' := items + [ItemWithFeed(p.feed, p.item, 1, false)];
  }

  // ---------------------------------------------------------------------
  // Properties of the days

  /** Adjacent days have distinct dates, and no day is empty. */
  lemma {:induction false} BucketsShape(key: Entry -> string, pairs: seq<Pair>, dateOf: int -> int)
    ensures forall i :: 0 <= i < |Buckets(key, pairs, dateOf)| - 1 ==>
              Buckets(key, pairs, dateOf)[i].date != Buckets(key, pairs, dateOf)[i + 1].date
    ensures forall i :: 0 <= i < |Buckets(key, pairs, dateOf)| ==> Buckets(key, pairs, dateOf)[i].items != []
    decreases |pairs|
  {
    if pairs != [] {
      BucketsShape(key, pairs[..|pairs| - 1], dateOf);
    }
  }

  ghost predicate Monotone(dateOf: int -> int)
  {
    forall a, b :: a <= b ==> dateOf(a) <= dateOf(b)
  }

  /** With newest-first input and a monotone local date, the days' dates strictly decrease. */
  lemma {:induction false} BucketsDatesDecrease(key: Entry -> string, pairs: seq<Pair>, dateOf: int -> int)
    requires SortedDesc(pairs) && Monotone(dateOf)
    ensures forall i, j :: 0 <= i < j < |Buckets(key, pairs, dateOf)| ==>
              Buckets(key, pairs, dateOf)[i].date > Buckets(key, pairs, dateOf)[j].date
    decreases |pairs|
  {
    if pairs != [] {
      var n := |pairs| - 1;
      var init := pairs[..n];
      assert SortedDesc(init);
      BucketsDatesDecrease(key, init, dateOf);
      if init != [] {
        assert Ts(init[n - 1]) >= Ts(pairs[n]);
        assert dateOf(Ts(pairs[n])) <= dateOf(Ts(init[n - 1]));
      }
    }
  }

  // ---------------------------------------------------------------------
  // Runs of one date, and deduplication inside a run

  /** The date of a run: that of its first pair. */
  function RunDate(run: seq<Pair>, dateOf: int -> int): int
    requires run != []
  {
    dateOf(Ts(run[0]))
  }

  /** The input cut into maximal runs of consecutive pairs with the same date. */
  function Runs(pairs: seq<Pair>, dateOf: int -> int): (r: seq<seq<Pair>>)
    ensures forall i :: 0 <= i < |r| ==> r[i] != []
    ensures pairs != [] ==> r != [] && dateOf(Ts(pairs[|pairs| - 1])) == RunDate(r[|r| - 1], dateOf)
  {
    if pairs == [] then []
    else
      var r := Runs(pairs[..|pairs| - 1], dateOf);
      var p := pairs[|pairs| - 1];
      if r == [] || RunDate(r[|r| - 1], dateOf) != dateOf(Ts(p)) then r + [[p]]
      else r[|r| - 1 := r[|r| - 1] + [p]]
  }

  function Concat(runs: seq<seq<Pair>>): seq<Pair>
  {
    if runs == [] then [] else Concat(runs[..|runs| - 1]) + runs[|runs| - 1]
  }

  /** The runs partition the input: their concatenation is it, each has one date, and neighbours differ. */
  lemma RunsPartition(pairs: seq<Pair>, dateOf: int -> int)
    ensures Concat(Runs(pairs, dateOf)) == pairs
    ensures forall i, j :: 0 <= i < |Runs(pairs, dateOf)| && 0 <= j < |Runs(pairs, dateOf)[i]| ==>
              dateOf(Ts(Runs(pairs, dateOf)[i][j])) == RunDate(Runs(pairs, dateOf)[i], dateOf)
    ensures forall i :: 0 <= i < |Runs(pairs, dateOf)| - 1 ==>
              RunDate(Runs(pairs, dateOf)[i], dateOf) != RunDate(Runs(pairs, dateOf)[i + 1], dateOf)
  {
    RunsConcat(pairs, dateOf);
    RunsOneDate(pairs, dateOf);
    RunsNeighbours(pairs, dateOf);
  }

  lemma {:induction false} RunsConcat(pairs: seq<Pair>, dateOf: int -> int)
    ensures Concat(Runs(pairs, dateOf)) == pairs
    decreases |pairs|
  {
    if pairs != [] {
      var n := |pairs| - 1;
      var r := Runs(pairs[..n], dateOf);
      RunsConcat(pairs[..n], dateOf);
      var r' := Runs(pairs, dateOf);
      assert pairs == pairs[..n] + [pairs[n]];
      if r == [] || RunDate(r[|r| - 1], dateOf) != dateOf(Ts(pairs[n])) {
        assert r'[..|r'| - 1] == r;
      } else {
        assert r'[..|r'| - 1] == r[..|r| - 1];
        assert Concat(r) == Concat(r[..|r| - 1]) + r[|r| - 1];
      }
    }
  }

  lemma {:induction false} RunsOneDate(pairs: seq<Pair>, dateOf: int -> int)
    ensures forall i, j :: 0 <= i < |Runs(pairs, dateOf)| && 0 <= j < |Runs(pairs, dateOf)[i]| ==>
              dateOf(Ts(Runs(pairs, dateOf)[i][j])) == RunDate(Runs(pairs, dateOf)[i], dateOf)
    decreases |pairs|
  {
    if pairs != [] {
      RunsOneDate(pairs[..|pairs| - 1], dateOf);
    }
  }

  lemma {:induction false} RunsNeighbours(pairs: seq<Pair>, dateOf: int -> int)
    ensures forall i :: 0 <= i < |Runs(pairs, dateOf)| - 1 ==>
              RunDate(Runs(pairs, dateOf)[i], dateOf) != RunDate(Runs(pairs, dateOf)[i + 1], dateOf)
    decreases |pairs|
  {
    if pairs != [] {
      RunsNeighbours(pairs[..|pairs| - 1], dateOf);
    }
  }

  /** The entries of one run, deduplicated by key. */
  function Dedup(key: Entry -> string, run: seq<Pair>): seq<ItemWithFeed>
  {
    if run == [] then [] else AddToDay(key, Dedup(key, run[..|run| - 1]), run[|run| - 1])
  }

  /** Day `i` is run `i`, deduplicated, for every `i`. */
  ghost predicate MatchRuns(key: Entry -> string, days: seq<Day>, runs: seq<seq<Pair>>, dateOf: int -> int)
  {
    |days| == |runs| &&
    forall i :: 0 <= i < |days| ==> runs[i] != [] && days[i] == Day(RunDate(runs[i], dateOf), Dedup(key, runs[i]))
  }

  lemma MatchNewRun(key: Entry -> string, days: seq<Day>, runs: seq<seq<Pair>>, p: Pair, dateOf: int -> int)
    requires MatchRuns(key, days, runs, dateOf)
    ensures MatchRuns(key, days + [Day(dateOf(Ts(p)), AddToDay(key, [], p))], runs + [[p]], dateOf)
  {
    assert [p][..0] == [];
    assert Dedup(key, [p]) == AddToDay(key, [], p);
  }

  lemma MatchExtendRun(key: Entry -> string, days: seq<Day>, runs: seq<seq<Pair>>, p: Pair, dateOf: int -> int)
    requires MatchRuns(key, days, runs, dateOf) && days != []
    requires days[|days| - 1].date == dateOf(Ts(p))
    ensures MatchRuns(key, days[|days| - 1 := Day(dateOf(Ts(p)), AddToDay(key, days[|days| - 1].items, p))],
                      runs[|runs| - 1 := runs[|runs| - 1] + [p]], dateOf)
  {
    var run := runs[|runs| - 1];
    assert (run + [p])[..|run|] == run;
    assert Dedup(key, run + [p]) == AddToDay(key, Dedup(key, run), p);
  }

  /** Each day is its run, deduplicated. */
  lemma BucketsAreDedupedRuns(key: Entry -> string, pairs: seq<Pair>, dateOf: int -> int)
    ensures |Buckets(key, pairs, dateOf)| == |Runs(pairs, dateOf)|
    ensures forall i :: 0 <= i < |Buckets(key, pairs, dateOf)| ==>
              Buckets(key, pairs, dateOf)[i] == Day(RunDate(Runs(pairs, dateOf)[i], dateOf), Dedup(key, Runs(pairs, dateOf)[i]))
  {
    BucketsMatchRuns(key, pairs, dateOf);
  }

  lemma {:induction false} BucketsMatchRuns(key: Entry -> string, pairs: seq<Pair>, dateOf: int -> int)
    ensures MatchRuns(key, Buckets(key, pairs, dateOf), Runs(pairs, dateOf), dateOf)
    decreases |pairs|
  {
    if pairs != [] {
      var n := |pairs| - 1;
      var init := pairs[..n];
      var p := pairs[n];
      BucketsMatchRuns(key, init, dateOf);
      var days := Buckets(key, init, dateOf);
      var r := Runs(init, dateOf);
      var d := dateOf(Ts(p));
      if days == [] || days[|days| - 1].date != d {
        MatchNewRun(key, days, r, p, dateOf);
      } else {
        MatchExtendRun(key, days, r, p, dateOf);
      }
    }
  }

  /** Whether some pair of the run has key `k`. */
  predicate HasKey(key: Entry -> string, run: seq<Pair>, k: string)
  {
    run != [] && (HasKey(key, run[..|run| - 1], k) || key(run[|run| - 1].item) == k)
  }

  /** How many pairs of the run have key `k`. */
  function CountKey(key: Entry -> string, run: seq<Pair>, k: string): (c: nat)
    ensures c == 0 <==> !HasKey(key, run, k)
  {
    if run == [] then 0
    else CountKey(key, run[..|run| - 1], k) + (if key(run[|run| - 1].item) == k then 1 else 0)
  }

  /** The index of the first pair with key `k`. */
  function FirstOf(key: Entry -> string, run: seq<Pair>, k: string): (r: Option<nat>)
    ensures r.Some? <==> HasKey(key, run, k)
    ensures r.Some? ==> r.value < |run| && key(run[r.value].item) == k && !HasKey(key, run[..r.value], k)
  {
    if run == [] then None
    else
      var head := FirstOf(key, run[..|run| - 1], k);
      if head.Some? then
        assert run[..|run| - 1][..head.value] == run[..head.value];
        head
      else if key(run[|run| - 1].item) == k then Some(|run| - 1)
      else None
  }

  /** The index of the last pair with key `k`. */
  function LastOf(key: Entry -> string, run: seq<Pair>, k: string): (r: Option<nat>)
    ensures r.Some? <==> HasKey(key, run, k)
    ensures r.Some? ==> r.value < |run| && key(run[r.value].item) == k
    ensures r.Some? ==> forall j :: r.value < j < |run| ==> key(run[j].item) != k
  {
    if run == [] then None
    else if key(run[|run| - 1].item) == k then Some(|run| - 1)
    else
      assert forall j :: 0 <= j < |run| - 1 ==> run[..|run| - 1][j] == run[j];
      LastOf(key, run[..|run| - 1], k)
  }

  /** `HasKey` is membership of the key among the run's keys. */
  lemma {:induction false} HasKeyAt(key: Entry -> string, run: seq<Pair>, k: string, j: nat)
    requires j < |run| && key(run[j].item) == k
    ensures HasKey(key, run, k)
    decreases |run|
  {
    if j < |run| - 1 {
      HasKeyAt(key, run[..|run| - 1], k, j);
    }
  }

  function SumCounts(items: seq<ItemWithFeed>): nat
  {
    if items == [] then 0 else SumCounts(items[..|items| - 1]) + items[|items| - 1].count
  }

  /**
   * What deduplicating `run` into `items` guarantees:
   *   keys are pairwise distinct;
   *   each entry has the feed of its key's first pair, the item of its key's
   *   last pair, and as count the number of pairs with its key;
   *   a key has an entry exactly when some pair has it;
   *   entries are in the order of their keys' first pairs;
   *   the counts add up to the length of the run.
   */
  ghost predicate DedupFacts(key: Entry -> string, run: seq<Pair>, items: seq<ItemWithFeed>)
  {
    KeysDistinct(key, items) && AllEntryFacts(key, run, items) && Covers(key, run, items) &&
    FirstOrder(key, run, items) && SumCounts(items) == |run|
  }

  ghost predicate KeysDistinct(key: Entry -> string, items: seq<ItemWithFeed>)
  {
    forall a, b :: 0 <= a < b < |items| ==> key(items[a].item) != key(items[b].item)
  }

  ghost predicate AllEntryFacts(key: Entry -> string, run: seq<Pair>, items: seq<ItemWithFeed>)
  {
    forall a :: 0 <= a < |items| ==> EntryFacts(key, run, items[a])
  }

  ghost predicate Covers(key: Entry -> string, run: seq<Pair>, items: seq<ItemWithFeed>)
  {
    forall k :: HasKey(key, run, k) <==> FindKey(key, items, k).Some?
  }

  ghost predicate FirstOrder(key: Entry -> string, run: seq<Pair>, items: seq<ItemWithFeed>)
    requires AllEntryFacts(key, run, items)
  {
    forall a, b :: 0 <= a < b < |items| ==>
      FirstOf(key, run, key(items[a].item)).value < FirstOf(key, run, key(items[b].item)).value
  }

  ghost predicate EntryFacts(key: Entry -> string, run: seq<Pair>, e: ItemWithFeed)
  {
    var k := key(e.item);
    HasKey(key, run, k) &&
    e.feed == run[FirstOf(key, run, k).value].feed &&
    e.item == run[LastOf(key, run, k).value].item &&
    e.count == CountKey(key, run, k) &&
    !e.highlighted
  }

  lemma SumCountsUpdate(items: seq<ItemWithFeed>, i: nat, x: ItemWithFeed)
    requires i < |items| && x.count == items[i].count + 1
    ensures SumCounts(items[i := x]) == SumCounts(items) + 1
  {
    var n := |items| - 1;
    if i < n {
      assert items[i := x][..n] == items[..n][i := x];
      SumCountsUpdate(items[..n], i, x);
    } else {
      assert items[i := x][..n] == items[..n];
    }
  }

  lemma ExtendRun(key: Entry -> string, run: seq<Pair>, p: Pair, k: string)
    ensures HasKey(key, run + [p], k) == (HasKey(key, run, k) || key(p.item) == k)
    ensures HasKey(key, run, k) ==> FirstOf(key, run + [p], k) == FirstOf(key, run, k)
    ensures !HasKey(key, run, k) && key(p.item) == k ==> FirstOf(key, run + [p], k) == Some(|run|)
    ensures LastOf(key, run + [p], k) == if key(p.item) == k then Some(|run|) else LastOf(key, run, k)
    ensures CountKey(key, run + [p], k) == CountKey(key, run, k) + if key(p.item) == k then 1 else 0
  {
    assert (run + [p])[..|run|] == run;
  }

  /** A repeated key: the entry takes the new item and one more count. */
  lemma AddRepeatKeepsFacts(key: Entry -> string, run: seq<Pair>, items: seq<ItemWithFeed>, p: Pair, i: nat)
    requires DedupFacts(key, run, items)
    requires FindKey(key, items, key(p.item)) == Some(i)
    ensures DedupFacts(key, run + [p], AddToDay(key, items, p))
  {
    var items' := items[i := Bumped(items[i], p)];
    assert items' == AddToDay(key, items, p);
    RepeatKeysDistinct(key, items, p, i);
    RepeatEntryFacts(key, run, items, p, i);
    RepeatCovers(key, run, items, p, i);
    RepeatOrder(key, run, items, p, i);
    SumCountsUpdate(items, i, Bumped(items[i], p));
  }

  lemma RepeatKeysDistinct(key: Entry -> string, items: seq<ItemWithFeed>, p: Pair, i: nat)
    requires KeysDistinct(key, items) && FindKey(key, items, key(p.item)) == Some(i)
    ensures KeysDistinct(key, items[i := Bumped(items[i], p)])
  {
    var items' := items[i := Bumped(items[i], p)];
    assert forall a :: 0 <= a < |items| ==> key(items'[a].item) == key(items[a].item);
  }

  lemma RepeatEntryFacts(key: Entry -> string, run: seq<Pair>, items: seq<ItemWithFeed>, p: Pair, i: nat)
    requires KeysDistinct(key, items) && AllEntryFacts(key, run, items) && FindKey(key, items, key(p.item)) == Some(i)
    ensures AllEntryFacts(key, run + [p], items[i := Bumped(items[i], p)])
  {
    var items' := items[i := Bumped(items[i], p)];
    forall a | 0 <= a < |items'| ensures EntryFacts(key, run + [p], items'[a]) {
      assert EntryFacts(key, run, items[a]);
      ExtendRun(key, run, p, key(items[a].item));
      if a != i {
        assert key(items[a].item) != key(items[i].item);
      }
    }
  }

  lemma RepeatCovers(key: Entry -> string, run: seq<Pair>, items: seq<ItemWithFeed>, p: Pair, i: nat)
    requires Covers(key, run, items) && FindKey(key, items, key(p.item)) == Some(i)
    ensures Covers(key, run + [p], items[i := Bumped(items[i], p)])
  {
    var items' := items[i := Bumped(items[i], p)];
    forall k ensures HasKey(key, run + [p], k) <==> FindKey(key, items', k).Some? {
      ExtendRun(key, run, p, k);
      FindKeyUpdate(key, items, i, Bumped(items[i], p), k);
    }
  }

  lemma RepeatOrder(key: Entry -> string, run: seq<Pair>, items: seq<ItemWithFeed>, p: Pair, i: nat)
    requires AllEntryFacts(key, run, items) && FirstOrder(key, run, items) && FindKey(key, items, key(p.item)) == Some(i)
    requires AllEntryFacts(key, run + [p], items[i := Bumped(items[i], p)])
    ensures FirstOrder(key, run + [p], items[i := Bumped(items[i], p)])
  {
    var items' := items[i := Bumped(items[i], p)];
    forall a | 0 <= a < |items'|
      ensures FirstOf(key, run + [p], key(items'[a].item)) == FirstOf(key, run, key(items[a].item))
    {
      assert EntryFacts(key, run, items[a]);
      assert key(items'[a].item) == key(items[a].item);
      ExtendRun(key, run, p, key(items[a].item));
    }
  }

  /** A new key: a fresh entry with count 1 goes at the end. */
  lemma AddNewKeepsFacts(key: Entry -> string, run: seq<Pair>, items: seq<ItemWithFeed>, p: Pair)
    requires DedupFacts(key, run, items)
    requires FindKey(key, items, key(p.item)).None?
    ensures DedupFacts(key, run + [p], AddToDay(key, items, p))
  {
    var x := ItemWithFeed(p.feed, p.item, 1, false);
    var items' := items + [x];
    assert items' == AddToDay(key, items, p);
    NewKeysDistinct(key, items, x);
    NewEntryFacts(key, run, items, p);
    NewCovers(key, run, items, p);
    NewOrder(key, run, items, p);
    assert items'[..|items|] == items;
  }

  lemma NewKeysDistinct(key: Entry -> string, items: seq<ItemWithFeed>, x: ItemWithFeed)
    requires KeysDistinct(key, items) && FindKey(key, items, key(x.item)).None?
    ensures KeysDistinct(key, items + [x])
  {
    assert forall a :: 0 <= a < |items| ==> (items + [x])[a] == items[a];
  }

  lemma NewEntryFacts(key: Entry -> string, run: seq<Pair>, items: seq<ItemWithFeed>, p: Pair)
    requires AllEntryFacts(key, run, items) && Covers(key, run, items) && FindKey(key, items, key(p.item)).None?
    ensures AllEntryFacts(key, run + [p], items + [ItemWithFeed(p.feed, p.item, 1, false)])
  {
    var x := ItemWithFeed(p.feed, p.item, 1, false);
    var items' := items + [x];
    assert !HasKey(key, run, key(p.item));
    forall a | 0 <= a < |items'| ensures EntryFacts(key, run + [p], items'[a]) {
      if a < |items| {
        assert items'[a] == items[a];
        assert EntryFacts(key, run, items[a]);
        ExtendRun(key, run, p, key(items[a].item));
      } else {
        ExtendRun(key, run, p, key(p.item));
      }
    }
  }

  lemma NewCovers(key: Entry -> string, run: seq<Pair>, items: seq<ItemWithFeed>, p: Pair)
    requires Covers(key, run, items) && FindKey(key, items, key(p.item)).None?
    ensures Covers(key, run + [p], items + [ItemWithFeed(p.feed, p.item, 1, false)])
  {
    var x := ItemWithFeed(p.feed, p.item, 1, false);
    forall k ensures HasKey(key, run + [p], k) <==> FindKey(key, items + [x], k).Some? {
      ExtendRun(key, run, p, k);
      FindKeyAppend(key, items, x, k);
    }
  }

  lemma NewOrder(key: Entry -> string, run: seq<Pair>, items: seq<ItemWithFeed>, p: Pair)
    requires AllEntryFacts(key, run, items) && FirstOrder(key, run, items) && Covers(key, run, items)
    requires FindKey(key, items, key(p.item)).None?
    requires AllEntryFacts(key, run + [p], items + [ItemWithFeed(p.feed, p.item, 1, false)])
    ensures FirstOrder(key, run + [p], items + [ItemWithFeed(p.feed, p.item, 1, false)])
  {
    var x := ItemWithFeed(p.feed, p.item, 1, false);
    var items' := items + [x];
    assert !HasKey(key, run, key(p.item));
    ExtendRun(key, run, p, key(p.item));
    forall a | 0 <= a < |items|
      ensures FirstOf(key, run + [p], key(items'[a].item)) == FirstOf(key, run, key(items[a].item))
      ensures FirstOf(key, run + [p], key(items'[a].item)).value < |run|
    {
      assert items'[a] == items[a];
      assert EntryFacts(key, run, items[a]);
      ExtendRun(key, run, p, key(items[a].item));
    }
    forall a, b | 0 <= a < b < |items'|
      ensures FirstOf(key, run + [p], key(items'[a].item)).value < FirstOf(key, run + [p], key(items'[b].item)).value
    {
      if b == |items| {
        assert items'[b] == x;
      }
    }
  }

  /** Deduplicating a run establishes the dedup facts. */
  lemma {:induction false} DedupCorrect(key: Entry -> string, run: seq<Pair>)
    ensures DedupFacts(key, run, Dedup(key, run))
    decreases |run|
  {
    if run != [] {
      var n := |run| - 1;
      var init := run[..n];
      assert init + [run[n]] == run;
      DedupCorrect(key, init);
      if FindKey(key, Dedup(key, init), key(run[n].item)).Some? {
        AddRepeatKeepsFacts(key, init, Dedup(key, init), run[n], FindKey(key, Dedup(key, init), key(run[n].item)).value);
      } else {
        AddNewKeepsFacts(key, init, Dedup(key, init), run[n]);
      }
      assert Dedup(key, run) == AddToDay(key, Dedup(key, init), run[n]);
    }
  }

  function TotalCount(days: seq<Day>): nat
  {
    if days == [] then 0 else TotalCount(days[..|days| - 1]) + SumCounts(days[|days| - 1].items)
  }

  lemma TotalCountUpdate(days: seq<Day>, d: Day)
    requires days != []
    ensures TotalCount(days[|days| - 1 := d]) == TotalCount(days) - SumCounts(days[|days| - 1].items) + SumCounts(d.items)
  {
    assert days[|days| - 1 := d][..|days| - 1] == days[..|days| - 1];
  }

  lemma AddToDaySum(key: Entry -> string, items: seq<ItemWithFeed>, p: Pair)
    ensures SumCounts(AddToDay(key, items, p)) == SumCounts(items) + 1
  {
    match FindKey(key, items, key(p.item))
    case Some(i) =>
      SumCountsUpdate(items, i, Bumped(items[i], p));
    case None =>
      assert (items + [ItemWithFeed(p.feed, p.item, 1, false)])[..|items|] == items;
  }

  /** One more pair adds one to the total count. */
  lemma AddPairCount(key: Entry -> string, days: seq<Day>, p: Pair, dateOf: int -> int)
    ensures TotalCount(AddPair(key, days, p, dateOf)) == TotalCount(days) + 1
  {
    var d := dateOf(Ts(p));
    if days == [] || days[|days| - 1].date != d {
      AddToDaySum(key, [], p);
      assert (days + [Day(d, AddToDay(key, [], p))])[..|days|] == days;
    } else {
      var items := days[|days| - 1].items;
      AddToDaySum(key, items, p);
      TotalCountUpdate(days, Day(d, AddToDay(key, items, p)));
    }
  }

  /** No item is lost: the counts of all entries of all days add up to the number of pairs. */
  lemma {:induction false} BucketsCountAll(key: Entry -> string, pairs: seq<Pair>, dateOf: int -> int)
    ensures TotalCount(Buckets(key, pairs, dateOf)) == |pairs|
    decreases |pairs|
  {
    if pairs != [] {
      var n := |pairs| - 1;
      BucketsCountAll(key, pairs[..n], dateOf);
      AddPairCount(key, Buckets(key, pairs[..n], dateOf), pairs[n], dateOf);
    }
  }

  /**
   * Each day is one maximal run of equal dates in the input, and its entries
   * are that run deduplicated: distinct keys, per-key counts, first feed,
   * last item, first-occurrence order, counts adding up to the run's length.
   */
  lemma DaysDeduplicated(key: Entry -> string, pairs: seq<Pair>, dateOf: int -> int)
    ensures |Buckets(key, pairs, dateOf)| == |Runs(pairs, dateOf)|
    ensures forall i :: 0 <= i < |Buckets(key, pairs, dateOf)| ==>
              Buckets(key, pairs, dateOf)[i].date == RunDate(Runs(pairs, dateOf)[i], dateOf) &&
              DedupFacts(key, Runs(pairs, dateOf)[i], Buckets(key, pairs, dateOf)[i].items)
  {
    BucketsAreDedupedRuns(key, pairs, dateOf);
    forall i | 0 <= i < |Buckets(key, pairs, dateOf)|
      ensures DedupFacts(key, Runs(pairs, dateOf)[i], Buckets(key, pairs, dateOf)[i].items)
    {
      DedupCorrect(key, Runs(pairs, dateOf)[i]);
    }
  }
}
