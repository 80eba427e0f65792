/**
The cached benchmark curve of a mean-reversion strategy: daily yields in a list that is searched by bisection.
Times are seconds since the epoch; an observation is filed under the midnight of its UTC day.
 */
module BenchmarkIndex {
  import opened Prelude
  import Keyset

  const DAY: int := 86_400

  datatype Observation = Observation(date: int, rate: real)

  function NormalizeDate(t: int): int
  {
    t / DAY * DAY
  }

  function Normalized(obs: seq<Observation>): seq<Observation>
  {
    if obs == [] then [] else [Observation(NormalizeDate(obs[0].date), obs[0].rate)] + Normalized(obs[1..])
  }

  /** An instant is filed under day d's midnight exactly when it lies in that day's 86400 seconds. */
  lemma FiledUnderItsDay(t: int, d: int)
    ensures NormalizeDate(t) == d * 86_400 <==> d * 86_400 <= t < d * 86_400 + 86_400
    ensures NormalizeDate(t) % 86_400 == 0 && NormalizeDate(t) <= t < NormalizeDate(t) + 86_400
  {
    assert t == t / 86_400 * 86_400 + t % 86_400;
  }

  // ---- Bisection ----------------------------------------------------------------------------

  /** The library search for the first index whose date is after the target; meaningful on any list. */
  function Search(s: seq<Observation>, target: int, i: nat, j: nat): (k: nat)
    requires i <= j <= |s|
    ensures i <= k <= j
    decreases j - i
  {
    if i == j then i
    else
      var h := (i + j) / 2;
      if s[h].date > target then Search(s, target, i, h) else Search(s, target, h + 1, j)
  }

  function Lookup(s: seq<Observation>, t: int): Option<Observation>
  {
    var k := Search(s, NormalizeDate(t), 0, |s|);
    if k == 0 then None else Some(s[k - 1])
  }

  // ---- Merging ------------------------------------------------------------------------------

  function DateKey(o: Observation): Keyset.Key
  {
    Keyset.Key(o.date, 0)
  }

  function Dates(s: seq<Observation>): set<int>
  {
    set o | o in s :: o.date
  }

  /** The observations whose date was not there before, first one wins. */
  function Fresh(known: set<int>, obs: seq<Observation>): seq<Observation>
    decreases obs
  {
    if obs == [] then []
    else if obs[0].date in known then Fresh(known, obs[1..])
    else [obs[0]] + Fresh(known + {obs[0].date}, obs[1..])
  }

  /** An empty cache takes the new list as it is; otherwise the new dates are appended and all is sorted. */
  function Merged(cache: seq<Observation>, obs: seq<Observation>): seq<Observation>
  {
    if cache == [] then Normalized(obs)
    else Keyset.Sorted(cache + Fresh(Dates(cache), Normalized(obs)), DateKey, false)
  }

  class Benchmark {
    var observations: seq<Observation>

    constructor ()
      ensures observations == []
    {
      observations := [];
    }

    method SetObservations(obs: seq<Observation>)
      modifies this
      ensures observations == Normalized(obs)
    {
      observations := Normalize(obs);
    }

    method MergeObservations(obs: seq<Observation>)
      modifies this
      ensures observations == Merged(old(observations), obs)
    {
      var normalised := Normalize(obs);
      if |observations| == 0 {
        observations := normalised;
        return;
      }
      var existing: set<int> := {};
      for i := 0 to |observations|
        invariant existing == Dates(observations[..i])
      {
        assert observations[..i + 1] == observations[..i] + [observations[i]];
        existing := existing + {observations[i].date};
      }
      assert observations[..|observations|] == observations;
      ghost var cache := observations;
      for i := 0 to |normalised|
        invariant observations + Fresh(existing, normalised[i..]) == cache + Fresh(Dates(cache), normalised)
      {
        assert normalised[i..][1..] == normalised[i + 1..];
        if normalised[i].date !in existing {
          ghost var before, rest := observations, Fresh(existing + {normalised[i].date}, normalised[i + 1..]);
          observations := observations + [normalised[i]];
          assert observations + rest == before + ([normalised[i]] + rest);
          existing := existing + {normalised[i].date};
        }
      }
      assert normalised[|normalised|..] == [] && observations + [] == observations;
      observations := Keyset.Sorted(observations, DateKey, false);
    }

    method CachedYield(t: int) returns (r: Option<Observation>)
      ensures r == Lookup(observations, t)
    {
      var target := NormalizeDate(t);
      if |observations| == 0 { return None; }
      var i, j := 0, |observations|;
      while i < j
        invariant 0 <= i <= j <= |observations|
        invariant Search(observations, target, i, j) == Search(observations, target, 0, |observations|)
      {
        var h := (i + j) / 2;
        if observations[h].date > target {
          j := h;
        } else {
          i := h + 1;
        }
      }
      if i == 0 { return None; }
      return Some(observations[i - 1]);
    }
  }

  method Normalize(obs: seq<Observation>) returns (r: seq<Observation>)
    ensures r == Normalized(obs)
  {
    r := [];
    for i := 0 to |obs|
      invariant r + Normalized(obs[i..]) == Normalized(obs)
    {
      ghost var before := r;
      var o := Observation(NormalizeDate(obs[i].date), obs[i].rate);
      r := r + [o];
      assert obs[i..][1..] == obs[i + 1..];
      assert before + ([o] + Normalized(obs[i + 1..])) == r + Normalized(obs[i + 1..]);
    }
  }

  // ---- The map it stands for ----------------------------------------------------------------

  /** The first entry of a date wins. */
  function ToMap(s: seq<Observation>): map<int, real>
  {
    if s == [] then map[] else ToMap(s[1..])[s[0].date := s[0].rate]
  }

  ghost predicate Increasing(s: seq<Observation>)
  {
    forall i, j :: 0 <= i < j < |s| ==> s[i].date < s[j].date
  }

  ghost predicate NonDecreasing(s: seq<Observation>)
  {
    forall i, j :: 0 <= i < j < |s| ==> s[i].date <= s[j].date
  }

  ghost predicate DistinctDates(s: seq<Observation>)
  {
    forall i, j :: 0 <= i < j < |s| ==> s[i].date != s[j].date
  }

  /** The entry of m at its greatest date not after the target, if there is one. */
  ghost predicate IsFloor(m: map<int, real>, target: int, r: Option<Observation>)
  {
    match r
    case None => forall d | d in m :: d > target
    case Some(o) => o.date in m && m[o.date] == o.rate && o.date <= target && forall d | d in m :: d <= target ==> d <= o.date
  }

  /** Every lookup is right: for all times, the floor of that day. */
  ghost predicate AllRight(s: seq<Observation>, m: map<int, real>)
  {
    forall t :: IsFloor(m, NormalizeDate(t), Lookup(s, t))
  }

  lemma {:induction false} ToMapKeys(s: seq<Observation>, k: nat)
    requires k < |s|
    ensures s[k].date in ToMap(s) && (DistinctDates(s) ==> ToMap(s)[s[k].date] == s[k].rate)
  {
    if k > 0 { ToMapKeys(s[1..], k - 1); }
  }

  lemma {:induction false} ToMapOnly(s: seq<Observation>, d: int)
    requires d in ToMap(s)
    ensures exists k :: 0 <= k < |s| && s[k].date == d && s[k].rate == ToMap(s)[d]
  {
    if s[0].date != d {
      ToMapOnly(s[1..], d);
      var k :| 0 <= k < |s[1..]| && s[1..][k].date == d && s[1..][k].rate == ToMap(s[1..])[d];
      assert s[k + 1].date == d && s[k + 1].rate == ToMap(s)[d];
    } else {
      assert s[0].rate == ToMap(s)[d];
    }
  }

  lemma {:induction false} SearchSplits(s: seq<Observation>, target: int, i: nat, j: nat)
    requires i <= j <= |s| && NonDecreasing(s)
    requires (forall k :: 0 <= k < i ==> s[k].date <= target) && (forall k :: j <= k < |s| ==> s[k].date > target)
    ensures var n := Search(s, target, i, j);
            (forall k :: 0 <= k < n ==> s[k].date <= target) && (forall k :: n <= k < |s| ==> s[k].date > target)
    decreases j - i
  {
    if i < j {
      var h := (i + j) / 2;
      if s[h].date > target {
        SearchSplits(s, target, i, h);
      } else {
        SearchSplits(s, target, h + 1, j);
      }
    }
  }

  /** Where the list splits at the target, the entry before the split is the floor, if the map has its value. */
  lemma FloorAt(s: seq<Observation>, target: int, n: nat)
    requires n <= |s|
    requires (forall k :: 0 <= k < n ==> s[k].date <= target) && (forall k :: n <= k < |s| ==> s[k].date > target)
    requires n > 0 ==> s[n - 1].date in ToMap(s) && ToMap(s)[s[n - 1].date] == s[n - 1].rate
    requires forall k :: 0 <= k < n ==> s[k].date <= s[n - 1].date
    ensures IsFloor(ToMap(s), target, if n == 0 then None else Some(s[n - 1]))
  {
    forall d | d in ToMap(s) ensures d <= target ==> n > 0 && d <= s[n - 1].date {
      ToMapOnly(s, d);
      var k :| 0 <= k < |s| && s[k].date == d;
    }
  }

  /** On a strictly increasing list, bisection finds the floor in the map the list stands for. */
  lemma LookupIsFloor(s: seq<Observation>, t: int)
    requires Increasing(s)
    ensures IsFloor(ToMap(s), NormalizeDate(t), Lookup(s, t))
  {
    var target := NormalizeDate(t);
    SearchSplits(s, target, 0, |s|);
    var n := Search(s, target, 0, |s|);
    if n > 0 { ToMapKeys(s, n - 1); }
    hide Search, ToMap;
    FloorAt(s, target, n);
  }

  /** A later target never lands earlier, whatever the list. */
  lemma {:induction false} SearchMonotone(s: seq<Observation>, a: int, b: int, i: nat, j: nat)
    requires i <= j <= |s| && a <= b
    ensures Search(s, a, i, j) <= Search(s, b, i, j)
    decreases j - i
  {
    if i < j {
      var h := (i + j) / 2;
      if s[h].date > b {
        SearchMonotone(s, a, b, i, h);
      } else if s[h].date <= a {
        SearchMonotone(s, a, b, h + 1, j);
      }
    }
  }

  /** Midnights: what the cache holds once normalised. */
  ghost predicate Midnights(s: seq<Observation>)
  {
    forall k :: 0 <= k < |s| ==> NormalizeDate(s[k].date) == s[k].date
  }

  /** Without repeated dates, every lookup in the stored list is right exactly when the list is increasing. */
  lemma RightIffIncreasing(s: seq<Observation>)
    requires Midnights(s) && DistinctDates(s)
    ensures AllRight(s, ToMap(s)) <==> Increasing(s)
  {
    if Increasing(s) {
      forall t ensures IsFloor(ToMap(s), NormalizeDate(t), Lookup(s, t)) { LookupIsFloor(s, t); }
    }
    if AllRight(s, ToMap(s)) {
      forall i, j | 0 <= i < j < |s| ensures s[i].date < s[j].date {
        OwnIndex(s, i);
        OwnIndex(s, j);
        if s[j].date <= s[i].date { SearchMonotone(s, s[j].date, s[i].date, 0, |s|); }
      }
    }
  }

  lemma OwnIndex(s: seq<Observation>, k: nat)
    requires Midnights(s) && DistinctDates(s) && AllRight(s, ToMap(s)) && k < |s|
    ensures Search(s, s[k].date, 0, |s|) == k + 1
  {
    ToMapKeys(s, k);
    assert IsFloor(ToMap(s), NormalizeDate(s[k].date), Lookup(s, s[k].date));
  }

  /** No later entry of the same day follows, in sorted order. */
  predicate IsLast(s: seq<Observation>, k: int)
    requires 0 <= k < |s|
  {
    k + 1 == |s| || s[k].date < s[k + 1].date
  }

  /** The entry carries the value the map has for its day. */
  predicate Agrees(s: seq<Observation>, k: int)
    requires 0 <= k < |s|
  {
    s[k].date in ToMap(s) && ToMap(s)[s[k].date] == s[k].rate
  }

  /** The last entry of each day carries the value the map has for it, which is the first entry's. */
  ghost predicate LastsAgree(s: seq<Observation>)
  {
    forall k | 0 <= k < |s| && IsLast(s, k) :: Agrees(s, k)
  }

  /** In sorted order bisection lands on the last entry of the greatest day not after the target. */
  lemma SortedSearch(s: seq<Observation>, target: int)
    requires NonDecreasing(s)
    ensures var n := Search(s, target, 0, |s|);
            && (forall k :: 0 <= k < n ==> s[k].date <= target) && (forall k :: n <= k < |s| ==> s[k].date > target)
  {
    SearchSplits(s, target, 0, |s|);
  }

  lemma SortedLookup(s: seq<Observation>, t: int)
    requires NonDecreasing(s) && LastsAgree(s)
    ensures IsFloor(ToMap(s), NormalizeDate(t), Lookup(s, t))
  {
    var target := NormalizeDate(t);
    SortedSearch(s, target);
    hide Search, ToMap;
    var n := Search(s, target, 0, |s|);
    if n > 0 {
      var k := n - 1;
      assert IsLast(s, k) && Agrees(s, k);
    }
    FloorAt(s, target, n);
  }

  lemma LastIsFound(s: seq<Observation>, k: nat)
    requires Midnights(s) && NonDecreasing(s) && k < |s| && IsLast(s, k)
    ensures Lookup(s, s[k].date) == Some(s[k])
  {
    SortedSearch(s, s[k].date);
    hide Search;
    var n := Search(s, s[k].date, 0, |s|);
    assert k < n && (k + 1 < |s| ==> n <= k + 1);
  }

  lemma RightLastAgrees(s: seq<Observation>, k: nat)
    requires Midnights(s) && NonDecreasing(s) && AllRight(s, ToMap(s))
    requires k < |s| && IsLast(s, k)
    ensures Agrees(s, k)
  {
    LastIsFound(s, k);
    hide Lookup, ToMap, NonDecreasing;
    assert IsFloor(ToMap(s), NormalizeDate(s[k].date), Lookup(s, s[k].date));
  }

  lemma LastsGiveRight(s: seq<Observation>)
    requires NonDecreasing(s) && LastsAgree(s)
    ensures AllRight(s, ToMap(s))
  {
    hide Lookup, ToMap, IsFloor;
    forall t ensures IsFloor(ToMap(s), NormalizeDate(t), Lookup(s, t)) { SortedLookup(s, t); }
  }

  lemma RightGivesLasts(s: seq<Observation>)
    requires Midnights(s) && NonDecreasing(s) && AllRight(s, ToMap(s))
    ensures LastsAgree(s)
  {
    hide ToMap, AllRight, NonDecreasing, Midnights;
    hide IsLast, Agrees;
    forall k | 0 <= k < |s| && IsLast(s, k) ensures Agrees(s, k) { RightLastAgrees(s, k); }
  }

  /** With repeated days in sorted order, every lookup is right iff the last entry of every day carries its map value. */
  lemma SortedIsRightIff(s: seq<Observation>)
    requires Midnights(s) && NonDecreasing(s)
    ensures AllRight(s, ToMap(s)) <==> LastsAgree(s)
  {
    hide ToMap, AllRight, LastsAgree, NonDecreasing, Midnights;
    if LastsAgree(s) { LastsGiveRight(s); }
    if AllRight(s, ToMap(s)) { RightGivesLasts(s); }
  }

  lemma {:induction false} FirstWins(s: seq<Observation>, j: nat)
    requires j < |s| && forall h :: 0 <= h < j ==> s[h].date != s[j].date
    ensures s[j].date in ToMap(s) && ToMap(s)[s[j].date] == s[j].rate
  {
    if j > 0 { FirstWins(s[1..], j - 1); }
  }

  /** A day that begins and ends on different values in a sorted list is answered with the last, against the map. */
  lemma RepeatedDayTakesLast(s: seq<Observation>, j: nat, k: nat)
    requires Midnights(s) && NonDecreasing(s) && j < k < |s|
    requires s[j].date == s[k].date && s[j].rate != s[k].rate
    requires (j == 0 || s[j - 1].date < s[j].date) && IsLast(s, k)
    ensures Lookup(s, s[k].date) == Some(s[k]) && !AllRight(s, ToMap(s))
    ensures s[k].date in ToMap(s) && ToMap(s)[s[k].date] == s[j].rate
  {
    FirstWins(s, j);
    LastIsFound(s, k);
    hide Lookup, ToMap, Midnights, NonDecreasing, AllRight;
    SortedIsRightIff(s);
  }

  // ---- Lists in any order -------------------------------------------------------------------

  lemma {:induction false} SearchSame(s: seq<Observation>, a: int, b: int, i: nat, j: nat)
    requires i <= j <= |s| && forall h :: 0 <= h < |s| ==> (s[h].date > a <==> s[h].date > b)
    ensures Search(s, a, i, j) == Search(s, b, i, j)
    decreases j - i
  {
    if i < j {
      var h := (i + j) / 2;
      if s[h].date > a {
        SearchSame(s, a, b, i, h);
      } else {
        SearchSame(s, a, b, h + 1, j);
      }
    }
  }

  /** Looking up a stored day gives that day with its map value. */
  ghost predicate FindsItself(s: seq<Observation>, k: nat)
    requires k < |s|
  {
    s[k].date in ToMap(s) && Lookup(s, s[k].date) == Some(Observation(s[k].date, ToMap(s)[s[k].date]))
  }

  lemma NothingBefore(s: seq<Observation>, target: int)
    requires forall h :: 0 <= h < |s| ==> s[h].date > target
    ensures Search(s, target, 0, |s|) == 0
  {
    NeverMovesUp(s, target, |s|);
  }

  lemma {:induction false} NeverMovesUp(s: seq<Observation>, target: int, j: nat)
    requires j <= |s| && forall h :: 0 <= h < |s| ==> s[h].date > target
    ensures Search(s, target, 0, j) == 0
  {
    if j > 0 { NeverMovesUp(s, target, j / 2); }
  }

  lemma GreatestDay(s: seq<Observation>, target: int) returns (k: nat)
    requires exists h :: 0 <= h < |s| && s[h].date <= target
    ensures k < |s| && s[k].date <= target && forall h :: 0 <= h < |s| && s[h].date <= target ==> s[h].date <= s[k].date
  {
    k :| k < |s| && s[k].date <= target;
    for n := 0 to |s|
      invariant k < |s| && s[k].date <= target
      invariant forall h :: 0 <= h < n && s[h].date <= target ==> s[h].date <= s[k].date
    {
      if s[k].date < s[n].date <= target { k := n; }
    }
  }

  lemma RightFindsItself(s: seq<Observation>, k: nat)
    requires Midnights(s) && AllRight(s, ToMap(s)) && k < |s|
    ensures FindsItself(s, k)
  {
    ToMapKeys(s, k);
    assert IsFloor(ToMap(s), NormalizeDate(s[k].date), Lookup(s, s[k].date));
  }

  /** For any list at all, checking its own days is enough: all lookups are right iff each stored day finds itself. */
  lemma RightIffDaysFindThemselves(s: seq<Observation>)
    requires Midnights(s)
    ensures AllRight(s, ToMap(s)) <==> forall k :: 0 <= k < |s| ==> FindsItself(s, k)
  {
    hide FindsItself, IsFloor, Lookup, ToMap;
    if AllRight(s, ToMap(s)) {
      forall k | 0 <= k < |s| ensures FindsItself(s, k) { RightFindsItself(s, k); }
    }
    if forall k :: 0 <= k < |s| ==> FindsItself(s, k) {
      forall t ensures IsFloor(ToMap(s), NormalizeDate(t), Lookup(s, t)) { FloorFromItself(s, t); }
    }
  }

  lemma FloorFromItself(s: seq<Observation>, t: int)
    requires Midnights(s) && forall k :: 0 <= k < |s| ==> FindsItself(s, k)
    ensures IsFloor(ToMap(s), NormalizeDate(t), Lookup(s, t))
  {
    var target := NormalizeDate(t);
    forall d | d in ToMap(s) ensures exists h :: 0 <= h < |s| && s[h].date == d {
      ToMapOnly(s, d);
    }
    if exists h :: 0 <= h < |s| && s[h].date <= target {
      var k := GreatestDay(s, target);
      assert FindsItself(s, k);
      SearchSame(s, s[k].date, target, 0, |s|);
      assert Lookup(s, t) == Lookup(s, s[k].date);
    } else {
      NothingBefore(s, target);
    }
  }

  // ---- Merging keeps the map ----------------------------------------------------------------

  lemma IncreasingIsSorted(s: seq<Observation>)
    ensures Increasing(s) <==> Keyset.Ascending(s, DateKey, false) && Keyset.DistinctKeys(s, DateKey)
  {
    if Keyset.Ascending(s, DateKey, false) && Keyset.DistinctKeys(s, DateKey) {
      forall i, j | 0 <= i < j < |s| ensures s[i].date < s[j].date {
        assert !Keyset.Before(false, DateKey(s[j]), DateKey(s[i])) && DateKey(s[i]) != DateKey(s[j]);
      }
    }
  }

  lemma {:induction false} FreshDates(known: set<int>, obs: seq<Observation>)
    ensures DistinctDates(Fresh(known, obs))
    ensures forall k :: 0 <= k < |Fresh(known, obs)| ==> Fresh(known, obs)[k].date !in known
    decreases obs
  {
    if obs != [] {
      if obs[0].date in known {
        FreshDates(known, obs[1..]);
      } else {
        FreshDates(known + {obs[0].date}, obs[1..]);
      }
    }
  }

  lemma {:induction false} FreshMap(known: set<int>, obs: seq<Observation>)
    ensures ToMap(Fresh(known, obs)) == ToMap(obs) - known
    decreases obs
  {
    if obs != [] {
      var d := obs[0].date;
      if d in known {
        FreshMap(known, obs[1..]);
      } else {
        FreshMap(known + {d}, obs[1..]);
        assert Fresh(known, obs)[1..] == Fresh(known + {d}, obs[1..]);
      }
    }
  }

  lemma {:induction false} ToMapConcat(a: seq<Observation>, b: seq<Observation>)
    ensures ToMap(a + b) == ToMap(b) + ToMap(a)
  {
    if a == [] {
      assert a + b == b;
    } else {
      ToMapConcat(a[1..], b);
      assert (a + b)[1..] == a[1..] + b;
    }
  }

  /** With distinct dates the map does not depend on the order of the list. */
  lemma SameRowsSameMap(a: seq<Observation>, b: seq<Observation>)
    requires multiset(a) == multiset(b) && DistinctDates(a) && DistinctDates(b)
    ensures ToMap(a) == ToMap(b)
  {
    MapWithin(a, b);
    MapWithin(b, a);
    var m, n := ToMap(a), ToMap(b);
    assert m.Keys == n.Keys;
    assert forall d :: d in m ==> m[d] == n[d];
    assert m == n;
  }

  lemma MapWithin(a: seq<Observation>, b: seq<Observation>)
    requires multiset(a) == multiset(b) && DistinctDates(b)
    ensures ToMap(a).Keys <= ToMap(b).Keys && forall d :: d in ToMap(a) ==> ToMap(b)[d] == ToMap(a)[d]
  {
    forall d | d in ToMap(a).Keys ensures d in ToMap(b) && ToMap(b)[d] == ToMap(a)[d] {
      ToMapOnly(a, d);
      var k :| 0 <= k < |a| && a[k].date == d && a[k].rate == ToMap(a)[d];
      assert a[k] in multiset(b);
      var j :| 0 <= j < |b| && b[j] == a[k];
      ToMapKeys(b, j);
    }
  }

  lemma AppendedDistinct(cache: seq<Observation>, obs: seq<Observation>)
    requires DistinctDates(cache)
    ensures DistinctDates(cache + Fresh(Dates(cache), obs))
  {
    FreshDates(Dates(cache), obs);
    assert forall k :: 0 <= k < |cache| ==> cache[k] in cache && cache[k].date in Dates(cache);
  }

  lemma {:induction false} DatesAreKeys(s: seq<Observation>)
    ensures Dates(s) == ToMap(s).Keys
  {
    if s != [] {
      DatesAreKeys(s[1..]);
      assert s == [s[0]] + s[1..];
      forall d ensures d in Dates(s) <==> d == s[0].date || d in Dates(s[1..]) {
        if d in Dates(s) && d != s[0].date {
          var o :| o in s && o.date == d;
          assert o in s[1..];
        }
      }
    }
  }

  /**
  Merging into a cache without repeated days, in whatever order it was filled, leaves it increasing, and the cache
  then stands for the union of both, with the entries it had before winning.
   */
  lemma MergeIsUnion(cache: seq<Observation>, obs: seq<Observation>)
    requires cache != [] && DistinctDates(cache)
    ensures Increasing(Merged(cache, obs))
    ensures ToMap(Merged(cache, obs)) == ToMap(Normalized(obs)) + ToMap(cache)
  {
    var days := Normalized(obs);
    var all := cache + Fresh(Dates(cache), days);
    AppendedDistinct(cache, days);
    assert Keyset.DistinctKeys(all, DateKey);
    Keyset.SortedDistinct(all, DateKey, false);
    Keyset.SortedIsOrdered(all, DateKey, false);
    IncreasingIsSorted(Merged(cache, obs));
    SameRowsSameMap(Merged(cache, obs), all);
    ToMapConcat(cache, Fresh(Dates(cache), days));
    FreshMap(Dates(cache), days);
    DatesAreKeys(cache);
  }

  /** So after any merge into such a cache every lookup is the floor in that union. */
  lemma MergedLookup(cache: seq<Observation>, obs: seq<Observation>, t: int)
    requires cache != [] && DistinctDates(cache)
    ensures IsFloor(ToMap(Normalized(obs)) + ToMap(cache), NormalizeDate(t), Lookup(Merged(cache, obs), t))
  {
    MergeIsUnion(cache, obs);
    LookupIsFloor(Merged(cache, obs), t);
  }

  lemma {:induction false} NormalizedMidnights(obs: seq<Observation>)
    ensures |Normalized(obs)| == |obs| && Midnights(Normalized(obs))
    ensures forall k :: 0 <= k < |obs| ==> Normalized(obs)[k] == Observation(NormalizeDate(obs[k].date), obs[k].rate)
  {
    if obs != [] { NormalizedMidnights(obs[1..]); }
  }

  ghost predicate DaysIncrease(obs: seq<Observation>)
  {
    forall i, j :: 0 <= i < j < |obs| ==> NormalizeDate(obs[i].date) < NormalizeDate(obs[j].date)
  }

  lemma NormalizedIncreasing(obs: seq<Observation>)
    ensures Increasing(Normalized(obs)) <==> DaysIncrease(obs)
  {
    NormalizedMidnights(obs);
    var s := Normalized(obs);
    assert forall k :: 0 <= k < |obs| ==> s[k].date == NormalizeDate(obs[k].date);
    if Increasing(s) {
      forall i, j | 0 <= i < j < |obs| ensures NormalizeDate(obs[i].date) < NormalizeDate(obs[j].date) { assert s[i].date < s[j].date; }
    }
  }

  /**
  Setting a list, or merging into an empty cache, takes the list as it is. Whether all lookups are then right is
  decided by the stored days alone; without repeated days it means increasing days, and in sorted order it means
  that no day ends on another value than it began with.
   */
  lemma FirstFillIsRightIff(obs: seq<Observation>)
    ensures var s := Merged([], obs);
            && (AllRight(s, ToMap(s)) <==> forall k :: 0 <= k < |s| ==> FindsItself(s, k))
            && (DistinctDates(s) ==> (AllRight(s, ToMap(s)) <==> DaysIncrease(obs)))
            && (NonDecreasing(s) ==> (AllRight(s, ToMap(s)) <==> LastsAgree(s)))
  {
    var s := Normalized(obs);
    NormalizedMidnights(obs);
    hide Normalized, AllRight, FindsItself, LastsAgree;
    RightIffDaysFindThemselves(s);
    if DistinctDates(s) {
      RightIffIncreasing(s);
      NormalizedIncreasing(obs);
    }
    if NonDecreasing(s) { SortedIsRightIff(s); }
  }
}
