/**
 * The first two stages of the index handler of src/server/routes.rs: the
 * joined `(feed, items)` list is flattened into `(feed, item)` pairs, which
 * are then sorted newest first. The sort is the standard library's stable
 * `sort_by_key`; `SortDesc` defines its outcome as an insertion sort, and
 * the lemmas show it is ordered, a permutation, and stable.
 */
module RoutesSort {
  import opened Fetch

  /** An item together with the feed it came from. */
  datatype Pair = Pair(feed: Feed, item: Entry)

  function Ts(p: Pair): int
  {
    p.item.timestamp
  }

  // ---------------------------------------------------------------------
  // Flattening

  /** The items of one feed, each carrying that feed. */
  function Tag(feed: Feed, items: seq<Entry>): (r: seq<Pair>)
    ensures |r| == |items|
    ensures forall j :: 0 <= j < |items| ==> r[j] == Pair(feed, items[j])
  {
    seq(|items|, j requires 0 <= j < |items| => Pair(feed, items[j]))
  }

  /** All items of all feeds, feed by feed, in each feed's own order. */
  function Flattened(feeds: seq<(Feed, seq<Entry>)>): seq<Pair>
  {
    if feeds == [] then []
    else Flattened(feeds[..|feeds| - 1]) + Tag(feeds[|feeds| - 1].0, feeds[|feeds| - 1].1)
  }

  /** The number of items of all feeds. */
  function Total(feeds: seq<(Feed, seq<Entry>)>): nat
  {
    if feeds == [] then 0 else Total(feeds[..|feeds| - 1]) + |feeds[|feeds| - 1].1|
  }

  /** The loop of routes.rs that extends one list with every feed's items. */
  method Flatten(feeds: seq<(Feed, seq<Entry>)>) returns (all: seq<Pair>)
    ensures all == Flattened(feeds)
  {
    all := [];
    var i := 0;
    while i < |feeds|
      invariant 0 <= i <= |feeds|
      invariant all == Flattened(feeds[..i])
    {
      var (feed, items) := feeds[i];
      ghost var before := all;
      var j := 0;
      while j < |items|
        invariant 0 <= j <= |items|
        invariant all == before + Tag(feed, items[..j])
      {
        all := all + [Pair(feed, items[j])];
        j := j + 1;
      }
      assert items[..j] == items;
      assert feeds[..i + 1][..i] == feeds[..i];
      i := i + 1;
    }
    assert feeds[..i] == feeds;
  }

  /** Flattening keeps every item: the `j`-th item of feed `i` sits after all items of earlier feeds. */
  lemma {:induction false} FlattenedIndex(feeds: seq<(Feed, seq<Entry>)>, i: nat, j: nat)
    requires i < |feeds| && j < |feeds[i].1|
    ensures |Flattened(feeds)| == Total(feeds)
    ensures Total(feeds[..i]) + j < Total(feeds)
    ensures Flattened(feeds)[Total(feeds[..i]) + j] == Pair(feeds[i].0, feeds[i].1[j])
    decreases |feeds|
  {
    var n := |feeds| - 1;
    var init := feeds[..n];
    FlattenedLength(init);
    if i == n {
      assert feeds[..i] == init;
    } else {
      FlattenedIndex(init, i, j);
      assert init[..i] == feeds[..i];
      assert init[i] == feeds[i];
    }
  }

  lemma {:induction false} FlattenedLength(feeds: seq<(Feed, seq<Entry>)>)
    ensures |Flattened(feeds)| == Total(feeds)
    decreases |feeds|
  {
    if feeds != [] {
      FlattenedLength(feeds[..|feeds| - 1]);
    }
  }

  // ---------------------------------------------------------------------
  // Sorting newest first

  /** Timestamps never increase along the list. */
  predicate SortedDesc(s: seq<Pair>)
  {
    forall i, j :: 0 <= i < j < |s| ==> Ts(s[i]) >= Ts(s[j])
  }

  /** Put `x` before the first element that is not newer than it. */
  function Insert(x: Pair, s: seq<Pair>): (r: seq<Pair>)
    ensures |r| == |s| + 1
  {
    if s == [] || Ts(s[0]) <= Ts(x) then [x] + s
    else [s[0]] + Insert(x, s[1..])
  }

  /** `sort_by_key(|(_, item)| Reverse(item.timestamp))`: newest first, ties in input order. */
  function SortDesc(s: seq<Pair>): (r: seq<Pair>)
    ensures |r| == |s|
  {
    if s == [] then [] else Insert(s[0], SortDesc(s[1..]))
  }

  /** The elements with timestamp `t`, in order. */
  function WithTimestamp(s: seq<Pair>, t: int): seq<Pair>
  {
    if s == [] then []
    else (if Ts(s[0]) == t then [s[0]] else []) + WithTimestamp(s[1..], t)
  }

  lemma {:induction false} InsertSorted(x: Pair, s: seq<Pair>)
    requires SortedDesc(s)
    ensures SortedDesc(Insert(x, s))
    decreases |s|
  {
    if s != [] && Ts(s[0]) > Ts(x) {
      var t := s[1..];
      assert SortedDesc(t);
      InsertSorted(x, t);
      var r := Insert(x, s);
      assert r == [s[0]] + Insert(x, t);
      InsertElements(x, t);
      forall y | y in t ensures Ts(s[0]) >= Ts(y) {
        var k :| 0 <= k < |t| && t[k] == y;
        assert s[k + 1] == y;
      }
      forall i, j | 0 <= i < j < |r| ensures Ts(r[i]) >= Ts(r[j]) {
        if i == 0 {
          assert r[j] in multiset(Insert(x, t));
        }
      }
    }
  }

  lemma {:induction false} InsertElements(x: Pair, s: seq<Pair>)
    ensures multiset(Insert(x, s)) == multiset(s) + multiset{x}
    decreases |s|
  {
    if s != [] && Ts(s[0]) > Ts(x) {
      InsertElements(x, s[1..]);
      assert s == [s[0]] + s[1..];
    }
  }

  /** The sort orders newest first and keeps every element exactly as often. */
  lemma {:induction false} SortDescSortedPermutation(s: seq<Pair>)
    ensures SortedDesc(SortDesc(s))
    ensures multiset(SortDesc(s)) == multiset(s)
    decreases |s|
  {
    if s != [] {
      SortDescSortedPermutation(s[1..]);
      InsertSorted(s[0], SortDesc(s[1..]));
      InsertElements(s[0], SortDesc(s[1..]));
      assert s == [s[0]] + s[1..];
    }
  }

  lemma {:induction false} WithTimestampAppend(a: seq<Pair>, b: seq<Pair>, t: int)
    ensures WithTimestamp(a + b, t) == WithTimestamp(a, t) + WithTimestamp(b, t)
    decreases |a|
  {
    if a != [] {
      assert (a + b)[1..] == a[1..] + b;
      WithTimestampAppend(a[1..], b, t);
    } else {
      assert a + b == b;
    }
  }

  /** Inserting passes over strictly newer elements only, so no element with `x`'s timestamp. */
  lemma {:induction false} InsertStable(x: Pair, s: seq<Pair>, t: int)
    ensures WithTimestamp(Insert(x, s), t) == WithTimestamp([x] + s, t)
    decreases |s|
  {
    if s != [] && Ts(s[0]) > Ts(x) {
      InsertStable(x, s[1..], t);
      assert ([x] + s[1..])[1..] == s[1..];
      assert ([x] + s)[1..] == s;
      assert ([s[0]] + Insert(x, s[1..]))[1..] == Insert(x, s[1..]);
    }
  }

  /** The sort is stable: items with equal timestamps keep their flattened order. */
  lemma {:induction false} SortDescStable(s: seq<Pair>, t: int)
    ensures WithTimestamp(SortDesc(s), t) == WithTimestamp(s, t)
    decreases |s|
  {
    if s != [] {
      SortDescStable(s[1..], t);
      InsertStable(s[0], SortDesc(s[1..]), t);
      assert ([s[0]] + SortDesc(s[1..]))[1..] == SortDesc(s[1..]);
    }
  }
}
