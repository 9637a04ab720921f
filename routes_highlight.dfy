/**
 * The highlight pass of the index handler of src/server/routes.rs: inside
 * each day, an entry is highlighted when its domain has fewer than three
 * entries that day and fewer than the day's most common domain.
 *
 * The specification is stated for any domain function `domain`; routes.rs
 * uses `UrlDomain`, its private `domain` helper on the entry's link.
 */
module RoutesHighlight {
  import opened Fetch
  import opened RoutesDays
  import RoutesUrl

  function UrlDomain(e: Entry): string
  {
    RoutesUrl.Domain(e.href)
  }

  /** How many entries of the day have domain `d`. */
  function DomainCount(domain: Entry -> string, items: seq<ItemWithFeed>, d: string): nat
  {
    if items == [] then 0
    else DomainCount(domain, items[..|items| - 1], d) + (if domain(items[|items| - 1].item) == d then 1 else 0)
  }

  /** The count of the domain of entry `a`. */
  function CountAt(domain: Entry -> string, items: seq<ItemWithFeed>, a: nat): nat
    requires a < |items|
  {
    DomainCount(domain, items, domain(items[a].item))
  }

  /** The largest domain count among the first `n` entries; 0 when there are none. */
  function MaxCountUpTo(domain: Entry -> string, items: seq<ItemWithFeed>, n: nat): nat
    requires n <= |items|
  {
    if n == 0 then 0
    else
      var m := MaxCountUpTo(domain, items, n - 1);
      var c := CountAt(domain, items, n - 1);
      if c > m then c else m
  }

  /** `values().max().unwrap_or(0)` of the day's domain counts. */
  function MaxDomainCount(domain: Entry -> string, items: seq<ItemWithFeed>): nat
  {
    MaxCountUpTo(domain, items, |items|)
  }

  predicate IsHighlighted(domain: Entry -> string, items: seq<ItemWithFeed>, a: nat)
    requires a < |items|
  {
    var c := CountAt(domain, items, a);
    c < 3 && c < MaxDomainCount(domain, items)
  }

  /** The day with every entry's flag set by the rule, and nothing else changed. */
  function Highlighted(domain: Entry -> string, day: Day): (r: Day)
    ensures r.date == day.date && |r.items| == |day.items|
    ensures forall a :: 0 <= a < |day.items| ==>
              r.items[a] == day.items[a].(highlighted := IsHighlighted(domain, day.items, a))
  {
    Day(day.date, seq(|day.items|, a requires 0 <= a < |day.items| =>
                        day.items[a].(highlighted := IsHighlighted(domain, day.items, a))))
  }

  function HighlightedDays(domain: Entry -> string, days: seq<Day>): (r: seq<Day>)
    ensures |r| == |days| && forall d :: 0 <= d < |days| ==> r[d] == Highlighted(domain, days[d])
  {
    seq(|days|, d requires 0 <= d < |days| => Highlighted(domain, days[d]))
  }

  // ---------------------------------------------------------------------
  // Facts about the counts

  lemma {:induction false} DomainCountPositive(domain: Entry -> string, items: seq<ItemWithFeed>, a: nat)
    requires a < |items|
    ensures CountAt(domain, items, a) >= 1
    decreases |items|
  {
    var n := |items| - 1;
    if a < n {
      assert items[..n][a] == items[a];
      DomainCountPositive(domain, items[..n], a);
    }
  }

  lemma {:induction false} DomainCountWitness(domain: Entry -> string, items: seq<ItemWithFeed>, d: string)
    requires DomainCount(domain, items, d) > 0
    ensures exists a :: 0 <= a < |items| && domain(items[a].item) == d
    decreases |items|
  {
    var n := |items| - 1;
    if domain(items[n].item) != d {
      DomainCountWitness(domain, items[..n], d);
      var a :| 0 <= a < n && domain(items[..n][a].item) == d;
      assert items[a] == items[..n][a];
    }
  }

  /** The largest count is at least every entry's count, and is some entry's count. */
  lemma {:induction false} MaxCountUpToSpec(domain: Entry -> string, items: seq<ItemWithFeed>, n: nat)
    requires n <= |items|
    ensures forall a :: 0 <= a < n ==> CountAt(domain, items, a) <= MaxCountUpTo(domain, items, n)
    ensures n == 0 <==> MaxCountUpTo(domain, items, n) == 0
    ensures n > 0 ==> exists a :: 0 <= a < n && CountAt(domain, items, a) == MaxCountUpTo(domain, items, n)
    decreases n
  {
    if n > 0 {
      MaxCountUpToSpec(domain, items, n - 1);
      DomainCountPositive(domain, items, n - 1);
    }
  }

  lemma MaxDomainCountSpec(domain: Entry -> string, items: seq<ItemWithFeed>)
    ensures forall a :: 0 <= a < |items| ==> CountAt(domain, items, a) <= MaxDomainCount(domain, items)
    ensures items == [] <==> MaxDomainCount(domain, items) == 0
    ensures items != [] ==> exists a :: 0 <= a < |items| && CountAt(domain, items, a) == MaxDomainCount(domain, items)
  {
    MaxCountUpToSpec(domain, items, |items|);
  }

  // ---------------------------------------------------------------------
  // What the rule means

  /**
   * An entry is highlighted exactly when its domain has fewer than three
   * entries and some other domain of the day has more.
   */
  lemma HighlightMeaning(domain: Entry -> string, items: seq<ItemWithFeed>, a: nat)
    requires a < |items|
    ensures IsHighlighted(domain, items, a) <==>
              CountAt(domain, items, a) < 3 &&
              exists b :: 0 <= b < |items| && CountAt(domain, items, b) > CountAt(domain, items, a)
    ensures IsHighlighted(domain, items, a) ==> 1 <= CountAt(domain, items, a) <= 2
  {
    MaxDomainCountSpec(domain, items);
    DomainCountPositive(domain, items, a);
  }

  /** A day whose entries all share one domain (in particular a one-entry day) highlights nothing. */
  lemma SingleDomainNoHighlight(domain: Entry -> string, items: seq<ItemWithFeed>)
    requires forall a, b :: 0 <= a < b < |items| ==> domain(items[a].item) == domain(items[b].item)
    ensures forall a :: 0 <= a < |items| ==> !IsHighlighted(domain, items, a)
  {
    MaxDomainCountSpec(domain, items);
    forall a | 0 <= a < |items| ensures !IsHighlighted(domain, items, a) {
      var b :| 0 <= b < |items| && CountAt(domain, items, b) == MaxDomainCount(domain, items);
      assert domain(items[a].item) == domain(items[b].item);
    }
  }

  // ---------------------------------------------------------------------
  // The loops

  /** The map holds exactly the domain counts of `items`. */
  ghost predicate CountsAgree(domain: Entry -> string, counts: map<string, nat>, items: seq<ItemWithFeed>)
  {
    forall d :: (d in counts <==> DomainCount(domain, items, d) > 0) &&
                (d in counts ==> counts[d] == DomainCount(domain, items, d))
  }

  lemma CountStep(domain: Entry -> string, counts: map<string, nat>, items: seq<ItemWithFeed>, j: nat)
    requires j < |items| && CountsAgree(domain, counts, items[..j])
    ensures var d := domain(items[j].item);
            CountsAgree(domain, counts[d := (if d in counts then counts[d] else 0) + 1], items[..j + 1])
  {
    assert items[..j + 1][..j] == items[..j];
  }

  /** The largest value of an agreeing map is the largest domain count. */
  lemma MaxOfCounts(domain: Entry -> string, counts: map<string, nat>, items: seq<ItemWithFeed>, m: nat)
    requires CountsAgree(domain, counts, items)
    requires forall d :: d in counts ==> counts[d] <= m
    requires m == 0 || exists d :: d in counts && counts[d] == m
    ensures m == MaxDomainCount(domain, items)
  {
    MaxDomainCountSpec(domain, items);
    if items != [] {
      var a :| 0 <= a < |items| && CountAt(domain, items, a) == MaxDomainCount(domain, items);
      DomainCountPositive(domain, items, a);
      assert domain(items[a].item) in counts;
    }
    if m != 0 {
      var d :| d in counts && counts[d] == m;
      DomainCountWitness(domain, items, d);
      var b :| 0 <= b < |items| && domain(items[b].item) == d;
      assert CountAt(domain, items, b) == m;
    }
  }

  /** One day's pass of routes.rs: count entries per domain, take the maximum, set every flag. */
  method HighlightDay(day: Day) returns (r: Day)
    ensures r == Highlighted(UrlDomain, day)
  {
    var items := day.items;
    var counts: map<string, nat> := map[];
    var j := 0;
    while j < |items|
      invariant 0 <= j <= |items|
      invariant CountsAgree(UrlDomain, counts, items[..j])
    {
      var d := RoutesUrl.Domain(items[j].item.href);
      assert d == UrlDomain(items[j].item);
      CountStep(UrlDomain, counts, items, j);
      var c := if d in counts then counts[d] else 0;
      counts := counts[d := c + 1];
      j := j + 1;
    }
    assert items[..j] == items;

    var maxCount := 0;
    var rest := counts.Keys;
    while rest != {}
      invariant rest <= counts.Keys
      invariant forall d :: d in counts && d !in rest ==> counts[d] <= maxCount
      invariant maxCount == 0 || exists d :: d in counts && d !in rest && counts[d] == maxCount
      decreases |rest|
    {
      var d :| d in rest;
      if counts[d] > maxCount {
        maxCount := counts[d];
      }
      rest := rest - {d};
    }
    MaxOfCounts(UrlDomain, counts, items, maxCount);

    var out := items;
    j := 0;
    while j < |items|
      invariant 0 <= j <= |items| && |out| == |items|
      invariant forall a :: 0 <= a < j ==> out[a] == items[a].(highlighted := IsHighlighted(UrlDomain, items, a))
      invariant forall a :: j <= a < |items| ==> out[a] == items[a]
    {
      var d := RoutesUrl.Domain(items[j].item.href);
      assert d == UrlDomain(items[j].item);
      DomainCountPositive(UrlDomain, items, j);
      var c := counts[d];
      out := out[j := out[j].(highlighted := c < 3 && c < maxCount)];
      j := j + 1;
    }
    r := Day(day.date, out);
  }

  /** The pass over all days, each with its own counts. */
  method HighlightDays(days: seq<Day>) returns (r: seq<Day>)
    ensures r == HighlightedDays(UrlDomain, days)
  {
    r := days;
    var i := 0;
    while i < |days|
      invariant 0 <= i <= |days| && |r| == |days|
      invariant forall d :: 0 <= d < i ==> r[d] == Highlighted(UrlDomain, days[d])
      invariant forall d :: i <= d < |days| ==> r[d] == days[d]
    {
      var h := HighlightDay(r[i]);
      r := r[i := h];
      i := i + 1;
    }
  }
}
