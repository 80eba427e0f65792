/**
Keyset pagination. A table is a sequence of rows in storage order; a query filters it, sorts it by the row
key and takes a page of the rows past a cursor. The key of a row is a timestamp and an id.
 */
module Keyset {
  import opened Prelude

  datatype Key = Key(time: int, id: int)

  /** Row comparison in the direction of the ORDER BY. */
  predicate Before(desc: bool, a: Key, b: Key)
  {
    if desc then b.time < a.time || (b.time == a.time && b.id < a.id)
    else a.time < b.time || (a.time == b.time && a.id < b.id)
  }

  // ---- Queries ------------------------------------------------------------------------------

  /** Inclusive time bounds; None is no bound. */
  function Scoped<T>(s: seq<T>, key: T -> Key, from: Option<int>, to: Option<int>): seq<T>
  {
    if s == [] then []
    else
      var rest := Scoped(s[1..], key, from, to);
      var t := key(s[0]).time;
      if (from == None || t >= from.value) && (to == None || t <= to.value) then [s[0]] + rest else rest
  }

  /** The rows past the cursor, in the order they have in s. */
  function After<T>(s: seq<T>, key: T -> Key, desc: bool, cursor: Key): seq<T>
  {
    if s == [] then []
    else
      var rest := After(s[1..], key, desc, cursor);
      if Before(desc, cursor, key(s[0])) then [s[0]] + rest else rest
  }

  function From<T>(s: seq<T>, key: T -> Key, desc: bool, cursor: Option<Key>): seq<T>
  {
    if cursor == None then s else After(s, key, desc, cursor.value)
  }

  function Insert<T>(x: T, s: seq<T>, key: T -> Key, desc: bool): seq<T>
  {
    if s == [] then [x]
    else if Before(desc, key(s[0]), key(x)) then [s[0]] + Insert(x, s[1..], key, desc)
    else [x] + s
  }

  function Sorted<T>(s: seq<T>, key: T -> Key, desc: bool): seq<T>
  {
    if s == [] then [] else Insert(s[0], Sorted(s[1..], key, desc), key, desc)
  }

  function Take<T>(s: seq<T>, n: nat): seq<T>
  {
    if |s| <= n then s else s[..n]
  }

  /** SELECT … WHERE the bounds and the cursor … ORDER BY the key LIMIT n. */
  function Page<T>(table: seq<T>, key: T -> Key, desc: bool, from: Option<int>, to: Option<int>,
                   cursor: Option<Key>, n: nat): seq<T>
  {
    Take(Sorted(From(Scoped(table, key, from, to), key, desc, cursor), key, desc), n)
  }

  /** The whole ordered result, with no cursor and no limit. */
  function Whole<T>(table: seq<T>, key: T -> Key, desc: bool, from: Option<int>, to: Option<int>): seq<T>
  {
    Sorted(Scoped(table, key, from, to), key, desc)
  }

  // ---- Sorting ------------------------------------------------------------------------------

  ghost predicate Ascending<T>(s: seq<T>, key: T -> Key, desc: bool)
  {
    forall i, j :: 0 <= i < j < |s| ==> !Before(desc, key(s[j]), key(s[i]))
  }

  ghost predicate DistinctKeys<T>(s: seq<T>, key: T -> Key)
  {
    forall i, j :: 0 <= i < j < |s| ==> key(s[i]) != key(s[j])
  }

  lemma {:induction false} InsertPermutes<T>(x: T, s: seq<T>, key: T -> Key, desc: bool)
    ensures multiset(Insert(x, s, key, desc)) == multiset{x} + multiset(s)
  {
    if s != [] {
      assert s == [s[0]] + s[1..];
      if Before(desc, key(s[0]), key(x)) { InsertPermutes(x, s[1..], key, desc); }
    }
  }

  lemma {:induction false} InsertAscending<T>(x: T, s: seq<T>, key: T -> Key, desc: bool)
    requires Ascending(s, key, desc)
    ensures Ascending(Insert(x, s, key, desc), key, desc)
  {
    if s != [] && Before(desc, key(s[0]), key(x)) {
      var r := Insert(x, s[1..], key, desc);
      InsertAscending(x, s[1..], key, desc);
      InsertPermutes(x, s[1..], key, desc);
      forall j | 0 <= j < |r| ensures !Before(desc, key(r[j]), key(s[0])) {
        assert r[j] in multiset(r);
      }
    }
  }

  /** Sorting orders the rows and neither loses nor repeats one. */
  lemma {:induction false} SortedIsOrdered<T>(s: seq<T>, key: T -> Key, desc: bool)
    ensures Ascending(Sorted(s, key, desc), key, desc) && multiset(Sorted(s, key, desc)) == multiset(s)
  {
    if s == [] {
    } else {
      SortedIsOrdered(s[1..], key, desc);
      InsertAscending(s[0], Sorted(s[1..], key, desc), key, desc);
      InsertPermutes(s[0], Sorted(s[1..], key, desc), key, desc);
      assert s == [s[0]] + s[1..];
    }
  }

  lemma {:induction false} AfterInsert<T>(x: T, s: seq<T>, key: T -> Key, desc: bool, c: Key)
    ensures After(Insert(x, s, key, desc), key, desc, c) ==
            if Before(desc, c, key(x)) then Insert(x, After(s, key, desc, c), key, desc) else After(s, key, desc, c)
  {
    if s == [] {
    } else if Before(desc, key(s[0]), key(x)) {
      AfterInsert(x, s[1..], key, desc, c);
      assert ([s[0]] + Insert(x, s[1..], key, desc))[1..] == Insert(x, s[1..], key, desc);
    } else {
      assert ([x] + s)[1..] == s;
    }
  }

  /** The cursor filter and the sort commute. */
  lemma {:induction false} AfterSorted<T>(s: seq<T>, key: T -> Key, desc: bool, c: Key)
    ensures Sorted(After(s, key, desc, c), key, desc) == After(Sorted(s, key, desc), key, desc, c)
  {
    if s == [] {
    } else {
      AfterSorted(s[1..], key, desc, c);
      AfterInsert(s[0], Sorted(s[1..], key, desc), key, desc, c);
      var rest := After(s[1..], key, desc, c);
      if Before(desc, c, key(s[0])) { assert ([s[0]] + rest)[1..] == rest; }
    }
  }

  lemma PageOfWhole<T>(table: seq<T>, key: T -> Key, desc: bool, from: Option<int>, to: Option<int>,
                       cursor: Option<Key>, n: nat)
    ensures Page(table, key, desc, from, to, cursor, n) == Take(From(Whole(table, key, desc, from, to), key, desc, cursor), n)
  {
    if cursor.Some? { AfterSorted(Scoped(table, key, from, to), key, desc, cursor.value); }
  }

  // ---- Rows past a cursor -------------------------------------------------------------------

  lemma {:induction false} AfterConcat<T>(a: seq<T>, b: seq<T>, key: T -> Key, desc: bool, c: Key)
    ensures After(a + b, key, desc, c) == After(a, key, desc, c) + After(b, key, desc, c)
  {
    if a == [] {
      assert a + b == b;
    } else {
      AfterConcat(a[1..], b, key, desc, c);
      assert (a + b)[1..] == a[1..] + b;
    }
  }

  lemma {:induction false} AfterNone<T>(s: seq<T>, key: T -> Key, desc: bool, c: Key)
    requires forall i :: 0 <= i < |s| ==> !Before(desc, c, key(s[i]))
    ensures After(s, key, desc, c) == []
  {
    if s != [] { AfterNone(s[1..], key, desc, c); }
  }

  lemma {:induction false} AfterAll<T>(s: seq<T>, key: T -> Key, desc: bool, c: Key)
    ensures |After(s, key, desc, c)| <= |s|
    ensures After(s, key, desc, c) == s <==> forall i :: 0 <= i < |s| ==> Before(desc, c, key(s[i]))
    ensures |After(s, key, desc, c)| == |s| ==> After(s, key, desc, c) == s
  {
    if s != [] {
      AfterAll(s[1..], key, desc, c);
      assert s == [s[0]] + s[1..];
      if Before(desc, c, key(s[0])) {
        assert (forall i :: 0 <= i < |s| ==> Before(desc, c, key(s[i]))) <==>
               (forall i :: 0 <= i < |s[1..]| ==> Before(desc, c, key(s[1..][i])));
      }
    }
  }

  lemma {:induction false} AfterAfter<T>(s: seq<T>, key: T -> Key, desc: bool, c: Key, d: Key)
    requires Before(desc, c, d)
    ensures After(After(s, key, desc, c), key, desc, d) == After(s, key, desc, d)
  {
    if s != [] {
      AfterAfter(s[1..], key, desc, c, d);
      var rest := After(s[1..], key, desc, c);
      if Before(desc, c, key(s[0])) { assert ([s[0]] + rest)[1..] == rest; }
    }
  }

  lemma {:induction false} AfterMember<T>(s: seq<T>, key: T -> Key, desc: bool, c: Key, i: nat)
    requires i < |After(s, key, desc, c)|
    ensures Before(desc, c, key(After(s, key, desc, c)[i]))
  {
    if s != [] {
      var rest := After(s[1..], key, desc, c);
      if Before(desc, c, key(s[0])) {
        if i > 0 { AfterMember(s[1..], key, desc, c, i - 1); }
      } else {
        AfterMember(s[1..], key, desc, c, i);
      }
    }
  }

  /** Past the n-th row of an ordered list: what follows it, less the rows with the same key. */
  lemma AfterCut<T>(s: seq<T>, key: T -> Key, desc: bool, n: nat)
    requires Ascending(s, key, desc) && 0 < n <= |s|
    ensures After(s, key, desc, key(s[n - 1])) == After(s[n..], key, desc, key(s[n - 1]))
    ensures After(s, key, desc, key(s[n - 1])) == s[n..] <==> (n < |s| ==> key(s[n - 1]) != key(s[n]))
    ensures |After(s, key, desc, key(s[n - 1]))| == |s| - n ==> After(s, key, desc, key(s[n - 1])) == s[n..]
    ensures |After(s, key, desc, key(s[n - 1]))| <= |s| - n
  {
    var c := key(s[n - 1]);
    assert s == s[..n] + s[n..];
    AfterConcat(s[..n], s[n..], key, desc, c);
    AfterNone(s[..n], key, desc, c);
    AfterAll(s[n..], key, desc, c);
    if n < |s| && key(s[n]) != c {
      assert Before(desc, c, key(s[n]));
      forall i | 0 <= i < |s[n..]| ensures Before(desc, c, key(s[n..][i])) { assert i == 0 || !Before(desc, key(s[n + i]), key(s[n])); }
    }
    if n < |s| && key(s[n]) == c { assert !Before(desc, c, key(s[n..][0])); }
  }

  lemma {:induction false} AfterOrdered<T>(s: seq<T>, key: T -> Key, desc: bool, c: Key)
    requires Ascending(s, key, desc)
    ensures Ascending(After(s, key, desc, c), key, desc)
  {
    if s != [] {
      AfterOrdered(s[1..], key, desc, c);
      if Before(desc, c, key(s[0])) {
        forall i | 0 <= i < |s| ensures Before(desc, c, key(s[i])) { assert i == 0 || !Before(desc, key(s[i]), key(s[0])); }
        AfterAll(s, key, desc, c);
      }
    }
  }

  // ---- Walking the pages --------------------------------------------------------------------

  /** The concatenated pages of n rows: stop at the first short one. */
  function Walk<T>(s: seq<T>, key: T -> Key, desc: bool, n: nat): seq<T>
    requires n > 0
    decreases |s|
  {
    if |s| < n then s
    else
      var c := key(s[n - 1]);
      AfterShorter(s, key, desc, n - 1);
      s[..n] + Walk(After(s, key, desc, c), key, desc, n)
  }

  lemma AfterShorter<T>(s: seq<T>, key: T -> Key, desc: bool, i: nat)
    requires i < |s|
    ensures |After(s, key, desc, key(s[i]))| < |s|
  {
    AfterAll(s, key, desc, key(s[i]));
  }

  /** No full page ends between two rows with the same key. */
  ghost predicate CleanCuts<T>(s: seq<T>, key: T -> Key, n: nat)
    requires n > 0
    decreases |s|
  {
    |s| <= n || (key(s[n - 1]) != key(s[n]) && CleanCuts(s[n..], key, n))
  }

  lemma {:induction false} WalkShort<T>(s: seq<T>, key: T -> Key, desc: bool, n: nat)
    requires n > 0 && Ascending(s, key, desc)
    ensures |Walk(s, key, desc, n)| <= |s|
    decreases |s|
  {
    if |s| >= n {
      var c := key(s[n - 1]);
      AfterShorter(s, key, desc, n - 1);
      AfterOrdered(s, key, desc, c);
      AfterCut(s, key, desc, n);
      WalkShort(After(s, key, desc, c), key, desc, n);
    }
  }

  /** Paging through an ordered list yields exactly that list iff no page boundary falls inside a tie. */
  lemma {:induction false} WalkIsWholeIff<T>(s: seq<T>, key: T -> Key, desc: bool, n: nat)
    requires n > 0 && Ascending(s, key, desc)
    ensures Walk(s, key, desc, n) == s <==> CleanCuts(s, key, n)
    decreases |s|
  {
    if |s| >= n {
      var c := key(s[n - 1]);
      var rest := After(s, key, desc, c);
      AfterShorter(s, key, desc, n - 1);
      AfterOrdered(s, key, desc, c);
      AfterCut(s, key, desc, n);
      WalkShort(rest, key, desc, n);
      assert s == s[..n] + s[n..];
      hide Ascending, After, Before;
      if |s| > n && key(s[n]) == c {
        assert |Walk(s, key, desc, n)| < |s|;
      } else {
        WalkIsWholeIff(rest, key, desc, n);
        if |s| == n { assert rest == []; }
      }
    }
  }

  lemma {:induction false} DistinctCutsClean<T>(s: seq<T>, key: T -> Key, n: nat)
    requires n > 0 && DistinctKeys(s, key)
    ensures CleanCuts(s, key, n)
    decreases |s|
  {
    if |s| > n { DistinctCutsClean(s[n..], key, n); }
  }

  lemma {:induction false} ScopedMember<T>(s: seq<T>, key: T -> Key, from: Option<int>, to: Option<int>, i: nat)
    requires i < |Scoped(s, key, from, to)|
    ensures Scoped(s, key, from, to)[i] in s
  {
    var rest := Scoped(s[1..], key, from, to);
    if Scoped(s, key, from, to) == rest {
      ScopedMember(s[1..], key, from, to, i);
    } else if i > 0 {
      assert Scoped(s, key, from, to) == [s[0]] + rest;
      ScopedMember(s[1..], key, from, to, i - 1);
    }
  }

  lemma {:induction false} ScopedDistinct<T>(s: seq<T>, key: T -> Key, from: Option<int>, to: Option<int>)
    requires DistinctKeys(s, key)
    ensures DistinctKeys(Scoped(s, key, from, to), key)
  {
    if s != [] {
      var rest := Scoped(s[1..], key, from, to);
      ScopedDistinct(s[1..], key, from, to);
      forall j | 0 <= j < |rest| ensures key(rest[j]) != key(s[0]) { ScopedMember(s[1..], key, from, to, j); }
    }
  }

  lemma {:induction false} InsertDistinct<T>(x: T, s: seq<T>, key: T -> Key, desc: bool)
    requires DistinctKeys(s, key) && forall i :: 0 <= i < |s| ==> key(s[i]) != key(x)
    ensures DistinctKeys(Insert(x, s, key, desc), key)
  {
    if s != [] && Before(desc, key(s[0]), key(x)) {
      var r := Insert(x, s[1..], key, desc);
      InsertDistinct(x, s[1..], key, desc);
      InsertPermutes(x, s[1..], key, desc);
      forall j | 0 <= j < |r| ensures key(r[j]) != key(s[0]) { assert r[j] in multiset(r); }
    }
  }

  lemma {:induction false} SortedDistinct<T>(s: seq<T>, key: T -> Key, desc: bool)
    requires DistinctKeys(s, key)
    ensures DistinctKeys(Sorted(s, key, desc), key)
  {
    if s != [] {
      var r := Sorted(s[1..], key, desc);
      SortedDistinct(s[1..], key, desc);
      SortedIsOrdered(s[1..], key, desc);
      forall j | 0 <= j < |r| ensures key(r[j]) != key(s[0]) { assert r[j] in multiset(r); }
      InsertDistinct(s[0], r, key, desc);
    }
  }

  lemma WholeIsStrict<T>(table: seq<T>, key: T -> Key, desc: bool, from: Option<int>, to: Option<int>)
    requires DistinctKeys(table, key)
    ensures DistinctKeys(Whole(table, key, desc, from, to), key) && Ascending(Whole(table, key, desc, from, to), key, desc)
  {
    ScopedDistinct(table, key, from, to);
    SortedDistinct(Scoped(table, key, from, to), key, desc);
    SortedIsOrdered(Scoped(table, key, from, to), key, desc);
  }

  // ---- What a query returns, in times and ids -----------------------------------------------

  /** Earlier in time, or at the same time with a lower id. */
  predicate Older(a: Key, b: Key)
  {
    a.time < b.time || (a.time == b.time && a.id < b.id)
  }

  /** Both bounds are inclusive. */
  predicate Within(k: Key, from: Option<int>, to: Option<int>)
  {
    (from.Some? ==> from.value <= k.time) && (to.Some? ==> k.time <= to.value)
  }

  /** The items go from newest to oldest. */
  ghost predicate NewestFirst<T>(items: seq<T>, key: T -> Key)
  {
    forall i, j :: 0 <= i < j < |items| ==> !Older(key(items[i]), key(items[j]))
  }

  /** The items go from oldest to newest. */
  ghost predicate OldestFirst<T>(items: seq<T>, key: T -> Key)
  {
    forall i, j :: 0 <= i < j < |items| ==> !Older(key(items[j]), key(items[i]))
  }

  /** A row within the bounds and, if there is a cursor, older than it. */
  predicate Eligible(k: Key, from: Option<int>, to: Option<int>, cursor: Option<Key>)
  {
    Within(k, from, to) && (cursor.Some? ==> Older(k, cursor.value))
  }

  /**
  A right page: newest first; each row as often as the table has it if it is eligible, except where the page is full
  and the row is not newer than the page's last; the cursor, that last row's key, iff such a row is left out.
   */
  ghost predicate RightPage<T>(table: seq<T>, key: T -> Key, from: Option<int>, to: Option<int>, cursor: Option<Key>,
                               limit: nat, page: Listing<T>)
    requires limit > 0
  {
    && page.Listed? && |page.items| <= limit && NewestFirst(page.items, key)
    && (forall x | x in page.items :: x in table && Eligible(key(x), from, to, cursor))
    && multiset(page.items) <= multiset(table)
    && (page.next.Some? ==> |page.items| == limit && page.next.value == key(page.items[limit - 1]))
    && (page.next.Some? <==> exists x | x in table :: Eligible(key(x), from, to, cursor) && LeftOut(x, table, page.items))
    && (forall x | x in table :: Eligible(key(x), from, to, cursor) && LeftOut(x, table, page.items) ==>
          |page.items| == limit && !Older(key(page.items[limit - 1]), key(x)))
  }

  /** The page has fewer copies of the row than the table. */
  ghost predicate LeftOut<T>(x: T, table: seq<T>, items: seq<T>)
  {
    multiset(items)[x] < multiset(table)[x]
  }

  lemma ConsCount<T>(head: T, rest: seq<T>, x: T)
    ensures multiset([head] + rest)[x] == multiset(rest)[x] + if head == x then 1 else 0
  {
  }

  lemma {:induction false} ScopedCount<T>(s: seq<T>, key: T -> Key, from: Option<int>, to: Option<int>, x: T)
    ensures multiset(Scoped(s, key, from, to))[x] == if Within(key(x), from, to) then multiset(s)[x] else 0
  {
    if s != [] {
      var rest := Scoped(s[1..], key, from, to);
      ScopedCount(s[1..], key, from, to, x);
      ConsCount(s[0], s[1..], x);
      ConsCount(s[0], rest, x);
      assert s == [s[0]] + s[1..];
    }
  }

  lemma {:induction false} AfterCount<T>(s: seq<T>, key: T -> Key, cursor: Key, x: T)
    ensures multiset(After(s, key, true, cursor))[x] == if Older(key(x), cursor) then multiset(s)[x] else 0
  {
    if s != [] {
      var rest := After(s[1..], key, true, cursor);
      AfterCount(s[1..], key, cursor, x);
      ConsCount(s[0], s[1..], x);
      ConsCount(s[0], rest, x);
      assert s == [s[0]] + s[1..];
    }
  }

  /** The ordered rest holds each eligible row as often as the table, and nothing else. */
  lemma RestCount<T>(table: seq<T>, key: T -> Key, from: Option<int>, to: Option<int>, cursor: Option<Key>, x: T)
    ensures multiset(From(Whole(table, key, true, from, to), key, true, cursor))[x] ==
            if Eligible(key(x), from, to, cursor) then multiset(table)[x] else 0
  {
    ScopedCount(table, key, from, to, x);
    SortedIsOrdered(Scoped(table, key, from, to), key, true);
    if cursor.Some? { AfterCount(Whole(table, key, true, from, to), key, cursor.value, x); }
  }

  lemma RestNewestFirst<T>(table: seq<T>, key: T -> Key, from: Option<int>, to: Option<int>, cursor: Option<Key>)
    ensures NewestFirst(From(Whole(table, key, true, from, to), key, true, cursor), key)
  {
    var whole := Whole(table, key, true, from, to);
    SortedIsOrdered(Scoped(table, key, from, to), key, true);
    if cursor.Some? { AfterOrdered(whole, key, true, cursor.value); }
  }

  /** A row with fewer copies in the first part is in the second, so it is not newer than the first part's last. */
  lemma CutLeavesOlder<T>(rest: seq<T>, key: T -> Key, n: nat, x: T)
    requires 0 < n < |rest| && NewestFirst(rest, key) && multiset(rest[..n])[x] < multiset(rest)[x]
    ensures !Older(key(rest[n - 1]), key(x))
  {
    assert rest == rest[..n] + rest[n..];
    assert x in multiset(rest[n..]);
    var j :| 0 <= j < |rest[n..]| && rest[n..][j] == x;
    assert rest[n + j] == x;
  }

  lemma CutLeavesSome<T>(rest: seq<T>, n: nat)
    requires n < |rest|
    ensures multiset(rest[..n])[rest[n]] < multiset(rest)[rest[n]]
  {
    assert rest == rest[..n] + rest[n..];
    assert rest[n] in multiset(rest[n..]) by { assert rest[n..][0] == rest[n]; }
  }

  lemma SliceCount<T>(rest: seq<T>, n: nat, x: T)
    requires n <= |rest|
    ensures multiset(rest[..n])[x] <= multiset(rest)[x]
  {
    assert rest == rest[..n] + rest[n..];
  }

  lemma CutHolds<T>(table: seq<T>, key: T -> Key, from: Option<int>, to: Option<int>, cursor: Option<Key>, rest: seq<T>, n: nat)
    requires rest == From(Whole(table, key, true, from, to), key, true, cursor) && n <= |rest|
    ensures NewestFirst(rest[..n], key) && multiset(rest[..n]) <= multiset(table)
    ensures forall x | x in rest[..n] :: x in table && Eligible(key(x), from, to, cursor)
  {
    RestNewestFirst(table, key, from, to, cursor);
    forall x | x in rest[..n] ensures x in table && Eligible(key(x), from, to, cursor) && multiset(rest[..n])[x] <= multiset(table)[x] {
      RestCount(table, key, from, to, cursor, x);
      SliceCount(rest, n, x);
      assert x in multiset(rest[..n]);
    }
  }

  /** What a page of n leaves out of the table's eligible rows is what it leaves out of the ordered rest. */
  lemma CutLeaves<T>(table: seq<T>, key: T -> Key, from: Option<int>, to: Option<int>, cursor: Option<Key>, rest: seq<T>, n: nat, x: T)
    requires rest == From(Whole(table, key, true, from, to), key, true, cursor) && 0 < n < |rest|
    requires Eligible(key(x), from, to, cursor) && LeftOut(x, table, rest[..n])
    ensures !Older(key(rest[n - 1]), key(x))
  {
    RestNewestFirst(table, key, from, to, cursor);
    RestCount(table, key, from, to, cursor, x);
    CutLeavesOlder(rest, key, n, x);
  }

  lemma CutLeavesNext<T>(table: seq<T>, key: T -> Key, from: Option<int>, to: Option<int>, cursor: Option<Key>, rest: seq<T>, n: nat)
    requires rest == From(Whole(table, key, true, from, to), key, true, cursor) && n < |rest|
    ensures exists x | x in table :: Eligible(key(x), from, to, cursor) && LeftOut(x, table, rest[..n])
  {
    CutHolds(table, key, from, to, cursor, rest, |rest|);
    assert rest[..|rest|] == rest;
    var x := rest[n];
    CutLeavesSome(rest, n);
    RestCount(table, key, from, to, cursor, x);
    assert x in table && Eligible(key(x), from, to, cursor) && LeftOut(x, table, rest[..n]);
  }

  lemma WholeLeavesNone<T>(table: seq<T>, key: T -> Key, from: Option<int>, to: Option<int>, cursor: Option<Key>, rest: seq<T>, x: T)
    requires rest == From(Whole(table, key, true, from, to), key, true, cursor) && Eligible(key(x), from, to, cursor)
    ensures !LeftOut(x, table, rest)
  {
    RestCount(table, key, from, to, cursor, x);
  }

  lemma CutIsRight<T>(table: seq<T>, key: T -> Key, from: Option<int>, to: Option<int>, cursor: Option<Key>, limit: nat)
    requires limit > 0
    ensures RightPage(table, key, from, to, cursor, limit, Cut(From(Whole(table, key, true, from, to), key, true, cursor), key, limit))
  {
    hide From, Whole, Eligible, LeftOut, NewestFirst, Older;
    var rest := From(Whole(table, key, true, from, to), key, true, cursor);
    var items := Cut(rest, key, limit).items;
    CutHolds(table, key, from, to, cursor, rest, |items|);
    assert items == rest[..|items|];
    if |rest| > limit { CutLeavesNext(table, key, from, to, cursor, rest, limit); }
    forall x | x in table && Eligible(key(x), from, to, cursor) && LeftOut(x, table, items)
      ensures |rest| > limit && !Older(key(items[limit - 1]), key(x))
    {
      WholeLeavesNone(table, key, from, to, cursor, rest, x);
      if |rest| > limit { CutLeaves(table, key, from, to, cursor, rest, limit, x); }
    }
  }

  /** With unique keys the stream is each row of the window once, oldest first, and nothing else. */
  ghost predicate RightStream<T>(table: seq<T>, key: T -> Key, start: int, end: int, out: seq<T>)
  {
    && OldestFirst(out, key)
    && (forall x | x in out :: x in table && start <= key(x).time <= end)
    && (forall x | x in table && start <= key(x).time <= end :: multiset(out)[x] == multiset(table)[x])
  }

  lemma StreamIsRight<T>(table: seq<T>, key: T -> Key, start: int, end: int, pageSize: nat)
    requires pageSize > 0 && DistinctKeys(table, key)
    ensures RightStream(table, key, start, end, Walk(Whole(table, key, false, Some(start), Some(end)), key, false, pageSize))
  {
    StreamIsWhole(table, key, start, end, pageSize);
    SortedIsOrdered(Scoped(table, key, Some(start), Some(end)), key, false);
    var whole := Whole(table, key, false, Some(start), Some(end));
    forall x | x in table ensures multiset(whole)[x] == if start <= key(x).time <= end then multiset(table)[x] else 0 {
      ScopedCount(table, key, Some(start), Some(end), x);
    }
    forall x | x in whole ensures x in table && start <= key(x).time <= end {
      ScopedCount(table, key, Some(start), Some(end), x);
      assert x in multiset(whole);
    }
  }

  // ---- The streaming loops ------------------------------------------------------------------

  /** Appends a page to the output and reports its size and the key of its last row. */
  method ConsumeBatch<T>(rows: seq<T>, key: T -> Key, out: seq<T>) returns (sent: seq<T>, count: nat, last: Key)
    ensures sent == out + rows && count == |rows| && (rows != [] ==> last == key(rows[|rows| - 1]))
  {
    sent, count, last := out, 0, Key(0, 0);
    while count < |rows|
      invariant count <= |rows| && sent == out + rows[..count]
      invariant count > 0 ==> last == key(rows[count - 1])
    {
      sent := sent + [rows[count]];
      last := key(rows[count]);
      count := count + 1;
    }
  }

  /** Moving the cursor to the end of a full page drops a part of what was left. */
  lemma NextRest<T>(s: seq<T>, key: T -> Key, desc: bool, cursor: Option<Key>, n: nat)
    requires 0 < n <= |From(s, key, desc, cursor)|
    ensures var rest := From(s, key, desc, cursor);
            var last := key(rest[n - 1]);
            After(s, key, desc, last) == After(rest, key, desc, last) && |After(rest, key, desc, last)| < |rest|
  {
    var rest := From(s, key, desc, cursor);
    AfterShorter(rest, key, desc, n - 1);
    if cursor.Some? {
      AfterMember(s, key, desc, cursor.value, n - 1);
      AfterAfter(s, key, desc, cursor.value, key(rest[n - 1]));
    }
  }

  /** One round of the loop: a short page is all that was left, and a full one leaves the walk from its last row. */
  lemma WalkStep<T>(s: seq<T>, key: T -> Key, desc: bool, cursor: Option<Key>, n: nat)
    requires n > 0
    ensures var rest := From(s, key, desc, cursor);
            var rows := Take(rest, n);
            if |rows| < n then Walk(rest, key, desc, n) == rows
            else
              var next := From(s, key, desc, Some(key(rows[n - 1])));
              |next| < |rest| && Walk(rest, key, desc, n) == rows + Walk(next, key, desc, n)
  {
    var rest := From(s, key, desc, cursor);
    if |rest| >= n {
      assert Take(rest, n) == rest[..n];
      NextRest(s, key, desc, cursor, n);
    }
  }

  /** What the loop still has to send when it stands at this cursor. */
  function Left<T>(s: seq<T>, key: T -> Key, cursor: Option<Key>, n: nat): seq<T>
    requires n > 0
  {
    Walk(From(s, key, false, cursor), key, false, n)
  }

  lemma StreamStep<T>(s: seq<T>, key: T -> Key, cursor: Option<Key>, n: nat, out: seq<T>, rows: seq<T>)
    requires n > 0 && rows == Take(From(s, key, false, cursor), n)
    ensures |rows| <= n && (|rows| < n ==> out + rows == out + Left(s, key, cursor, n))
    ensures |rows| == n ==>
              var next := Some(key(rows[n - 1]));
              && (out + rows) + Left(s, key, next, n) == out + Left(s, key, cursor, n)
              && |From(s, key, false, next)| < |From(s, key, false, cursor)|
  {
    WalkStep(s, key, false, cursor, n);
    if |rows| == n {
      var left := Left(s, key, Some(key(rows[n - 1])), n);
      assert (out + rows) + left == out + (rows + left);
    }
  }

  /** Runs one query of the ordered whole. */
  method QueryTrades<T>(table: seq<T>, key: T -> Key, start: int, end: int, cursor: Option<Key>, n: nat) returns (rows: seq<T>)
    ensures rows == Take(From(Whole(table, key, false, Some(start), Some(end)), key, false, cursor), n)
  {
    PageOfWhole(table, key, false, Some(start), Some(end), cursor, n);
    rows := Page(table, key, false, Some(start), Some(end), cursor, n);
  }

  /**
  Streams every trade of the window, page by page, oldest first. The first query has no cursor; a short page
  ends the stream.
   */
  method StreamTrades<T>(table: seq<T>, key: T -> Key, start: int, end: int, pageSize: nat) returns (out: seq<T>)
    requires pageSize > 0
    ensures out == Walk(Whole(table, key, false, Some(start), Some(end)), key, false, pageSize)
    ensures DistinctKeys(table, key) ==> RightStream(table, key, start, end, out)
  {
    ghost var whole := Whole(table, key, false, Some(start), Some(end));
    ghost var all := Left(whole, key, None, pageSize);
    out := [];
    var cursor: Option<Key> := None;
    var count := pageSize;
    while count == pageSize
      invariant count <= pageSize
      invariant all == if count == pageSize then out + Left(whole, key, cursor, pageSize) else out
      decreases count == pageSize, |From(whole, key, false, cursor)|
    {
      var rows := QueryTrades(table, key, start, end, cursor, pageSize);
      StreamStep(whole, key, cursor, pageSize, out, rows);
      var last;
      out, count, last := ConsumeBatch(rows, key, out);
      cursor := Some(last);
    }
    if DistinctKeys(table, key) { StreamIsRight(table, key, start, end, pageSize); }
  }

  /** Ids are unique, so the stream is every trade of the window once, in order. */
  lemma StreamIsWhole<T>(table: seq<T>, key: T -> Key, start: int, end: int, pageSize: nat)
    requires pageSize > 0 && DistinctKeys(table, key)
    ensures Walk(Whole(table, key, false, Some(start), Some(end)), key, false, pageSize) ==
            Whole(table, key, false, Some(start), Some(end))
  {
    var whole := Whole(table, key, false, Some(start), Some(end));
    WholeIsStrict(table, key, false, Some(start), Some(end));
    DistinctCutsClean(whole, key, pageSize);
    WalkIsWholeIff(whole, key, false, pageSize);
  }

  // ---- Decisions, newest first --------------------------------------------------------------

  datatype Fault = LimitNotPositive | HalfCursor

  datatype Listing<T> = Listed(items: seq<T>, next: Option<Key>) | Refused(fault: Fault)

  /** One page of a remaining list and the cursor of its last row if there is more. */
  function Cut<T>(rest: seq<T>, key: T -> Key, limit: nat): Listing<T>
    requires limit > 0
  {
    if |rest| > limit then Listed(rest[..limit], Some(key(rest[limit - 1]))) else Listed(rest, None)
  }

  method QueryDecisions<T>(table: seq<T>, key: T -> Key, from: Option<int>, to: Option<int>, cursor: Option<Key>, n: nat)
    returns (rows: seq<T>)
    ensures rows == Take(From(Whole(table, key, true, from, to), key, true, cursor), n)
  {
    PageOfWhole(table, key, true, from, to, cursor, n);
    rows := Page(table, key, true, from, to, cursor, n);
  }

  function Cursor(time: Option<int>, seqNo: Option<int>): Option<Key>
  {
    if time.Some? && seqNo.Some? then Some(Key(time.value, seqNo.value)) else None
  }

  /** Fetches one row more than asked for, to see whether there is a next page. */
  method ListDecisions<T>(table: seq<T>, key: T -> Key, from: Option<int>, to: Option<int>,
                          afterTime: Option<int>, afterSeq: Option<int>, limit: int)
    returns (r: Listing<T>)
    ensures limit <= 0 <==> r == Refused(LimitNotPositive)
    ensures limit > 0 && afterTime.Some? != afterSeq.Some? <==> r == Refused(HalfCursor)
    ensures limit > 0 && afterTime.Some? == afterSeq.Some? ==>
              r == Cut(From(Whole(table, key, true, from, to), key, true, Cursor(afterTime, afterSeq)), key, limit)
    ensures limit > 0 && afterTime.Some? == afterSeq.Some? ==>
              RightPage(table, key, from, to,
                        if afterTime.Some? then Some(Key(afterTime.value, afterSeq.value)) else None, limit, r)
  {
    hide RightPage, Whole, From;
    if limit <= 0 { return Refused(LimitNotPositive); }
    if afterTime.Some? != afterSeq.Some? { return Refused(HalfCursor); }
    var rows := QueryDecisions(table, key, from, to, Cursor(afterTime, afterSeq), limit + 1);
    var out: seq<T> := [];
    for i := 0 to |rows|
      invariant out == rows[..i]
    {
      out := out + [rows[i]];
    }
    if |out| > limit {
      r := Listed(out[..limit], Some(key(out[limit - 1])));
    } else {
      r := Listed(out, None);
    }
    CutIsRight(table, key, from, to, Cursor(afterTime, afterSeq), limit);
  }

  /** The cursor is present iff rows remain, and it leads to exactly those rows. */
  lemma NextIffRowsRemain<T>(s: seq<T>, key: T -> Key, desc: bool, cursor: Option<Key>, limit: nat)
    requires limit > 0 && Ascending(s, key, desc) && DistinctKeys(s, key)
    ensures var rest := From(s, key, desc, cursor);
            var page := Cut(rest, key, limit);
            && page.items <= rest
            && (page.next.Some? <==> page.items != rest)
            && (page.next.Some? ==> rest == page.items + From(s, key, desc, page.next) && |page.items| == limit)
  {
    hide Before, Ascending;
    var rest := From(s, key, desc, cursor);
    if |rest| > limit {
      NextRest(s, key, desc, cursor, limit);
      if cursor.Some? {
        AfterOrdered(s, key, desc, cursor.value);
        AfterDistinct(s, key, desc, cursor.value);
      }
      AfterCut(rest, key, desc, limit);
    }
  }

  lemma {:induction false} AfterIn<T>(s: seq<T>, key: T -> Key, desc: bool, c: Key, i: nat)
    requires i < |After(s, key, desc, c)|
    ensures After(s, key, desc, c)[i] in s
  {
    var rest := After(s[1..], key, desc, c);
    if Before(desc, c, key(s[0])) {
      if i > 0 { AfterIn(s[1..], key, desc, c, i - 1); }
    } else {
      AfterIn(s[1..], key, desc, c, i);
    }
  }

  lemma {:induction false} AfterDistinct<T>(s: seq<T>, key: T -> Key, desc: bool, c: Key)
    requires DistinctKeys(s, key)
    ensures DistinctKeys(After(s, key, desc, c), key)
  {
    if s != [] {
      var rest := After(s[1..], key, desc, c);
      AfterDistinct(s[1..], key, desc, c);
      forall j | 0 <= j < |rest| ensures key(rest[j]) != key(s[0]) { AfterIn(s[1..], key, desc, c, j); }
    }
  }

  /** A client follows the cursors while rows newer than each cursor are stored between its requests. */
  function WalkWhileGrowing<T>(table: seq<T>, key: T -> Key, cursor: Option<Key>, limit: nat, arriving: seq<seq<T>>): seq<T>
    requires limit > 0
    decreases |arriving|
  {
    var page := Cut(From(Whole(table, key, true, None, None), key, true, cursor), key, limit);
    if page.next == None || arriving == [] then page.items
    else page.items + WalkWhileGrowing(table + arriving[0], key, page.next, limit, arriving[1..])
  }

  /** What is stored after each request of that walk is newer than the cursor the request returned. */
  ghost predicate ArrivesNewer<T>(table: seq<T>, key: T -> Key, cursor: Option<Key>, limit: nat, arriving: seq<seq<T>>)
    requires limit > 0
    decreases |arriving|
  {
    var page := Cut(From(Whole(table, key, true, None, None), key, true, cursor), key, limit);
    page.next.Some? && arriving != [] ==>
      && (forall i :: 0 <= i < |arriving[0]| ==> Before(true, key(arriving[0][i]), page.next.value))
      && DistinctKeys(table + arriving[0], key)
      && ArrivesNewer(table + arriving[0], key, page.next, limit, arriving[1..])
  }

  lemma {:induction false} ScopedAll<T>(s: seq<T>, key: T -> Key)
    ensures Scoped(s, key, None, None) == s
  {
    if s != [] { ScopedAll(s[1..], key); }
  }

  /** Newer rows do not change what is past the cursor. */
  lemma NewerRowsDoNotDisturb<T>(table: seq<T>, arriving: seq<T>, key: T -> Key, desc: bool, cursor: Key)
    requires forall i :: 0 <= i < |arriving| ==> Before(desc, key(arriving[i]), cursor)
    ensures From(Whole(table + arriving, key, desc, None, None), key, desc, Some(cursor)) ==
            From(Whole(table, key, desc, None, None), key, desc, Some(cursor))
  {
    ScopedAll(table, key);
    ScopedAll(table + arriving, key);
    AfterSorted(table, key, desc, cursor);
    AfterSorted(table + arriving, key, desc, cursor);
    AfterConcat(table, arriving, key, desc, cursor);
    AfterNone(arriving, key, desc, cursor);
    assert After(table + arriving, key, desc, cursor) == After(table, key, desc, cursor);
  }

  /** Enough requests return the rows that were past the first cursor: none lost, repeated or added. */
  lemma {:induction false} GrowingWalkIsWhole<T>(table: seq<T>, key: T -> Key, cursor: Option<Key>, limit: nat, arriving: seq<seq<T>>)
    requires limit > 0 && DistinctKeys(table, key) && ArrivesNewer(table, key, cursor, limit, arriving)
    requires |From(Whole(table, key, true, None, None), key, true, cursor)| <= |arriving|
    ensures WalkWhileGrowing(table, key, cursor, limit, arriving) == From(Whole(table, key, true, None, None), key, true, cursor)
    decreases |arriving|
  {
    var whole := Whole(table, key, true, None, None);
    var page := Cut(From(whole, key, true, cursor), key, limit);
    WholeIsStrict(table, key, true, None, None);
    NextIffRowsRemain(whole, key, true, cursor, limit);
    if page.next.Some? {
      NewerRowsDoNotDisturb(table, arriving[0], key, true, page.next.value);
      GrowingWalkIsWhole(table + arriving[0], key, page.next, limit, arriving[1..]);
    }
  }
}
