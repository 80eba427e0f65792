/** The folded candles read off the table: which rows a candle covers, what it takes from them, and where it stands. */
module CandleTable {
  import opened Prelude
  import opened CandleFold
  import Keyset

  // ---- Stretches of the table -----------------------------------------------------------------

  /** Where the rows from an instant on begin. */
  lemma FirstFrom(rows: seq<Row>, t: int) returns (i: nat)
    requires Ordered(rows)
    ensures i <= |rows| && (forall k :: 0 <= k < i ==> rows[k].time < t) && (forall k :: i <= k < |rows| ==> t <= rows[k].time)
  {
    i := 0;
    while i < |rows| && rows[i].time < t
      invariant i <= |rows| && forall k :: 0 <= k < i ==> rows[k].time < t
    {
      i := i + 1;
    }
  }

  /** The rows of an inclusive start and an exclusive end are one stretch. */
  lemma Stretch(rows: seq<Row>, from: int, to: int) returns (i: nat, j: nat)
    requires Ordered(rows)
    ensures i <= j <= |rows| && forall k :: 0 <= k < |rows| ==> (from <= rows[k].time < to <==> i <= k < j)
  {
    i := FirstFrom(rows, from);
    j := FirstFrom(rows, to);
    if j < i { j := i; }
  }

  lemma {:induction false} WindowIsSlice(rows: seq<Row>, start: int, end: int, i: nat, j: nat)
    requires i <= j <= |rows| && forall k :: 0 <= k < |rows| ==> (start <= rows[k].time < end <==> i <= k < j)
    ensures Window(rows, start, end) == rows[i..j]
  {
    if rows != [] {
      var rest := rows[1..];
      assert forall k :: 0 <= k < |rest| ==> rest[k] == rows[k + 1];
      var i', j' := if i > 0 then i - 1 else 0, if j > 0 then j - 1 else 0;
      WindowIsSlice(rest, start, end, i', j');
      if i == 0 < j { assert rows[i..j] == [rows[0]] + rest[i'..j']; }
    }
  }

  lemma NumberIff(t: int, size: nat, m: int)
    requires size > 0
    ensures Number(t, size) == m <==> m * size <= t < m * size + size
  {
    assert t == t / size * size + t % size;
    Apart(t / size, m, size);
    Apart(m, t / size, size);
  }

  /** The rows of the window that lie in a bucket are one stretch of the table. */
  lemma BucketStretch(table: seq<Row>, size: nat, start: int, end: int, m: int) returns (i: nat, j: nat)
    requires size > 0 && Ordered(table)
    ensures i <= j <= |table| && InBucket(Window(table, start, end), size, m) == table[i..j]
    ensures forall k :: 0 <= k < |table| ==>
              (i <= k < j <==> start <= table[k].time < end && m * size <= table[k].time < m * size + size)
  {
    var a, b := Stretch(table, start, end);
    WindowIsSlice(table, start, end, a, b);
    var raw, lo, hi := table[a..b], m * size, m * size + size;
    var p, q := Stretch(raw, lo, hi);
    hide Ordered, Window, InBucket, Number;
    forall k | 0 <= k < |raw| ensures Number(raw[k].time, size) == m <==> p <= k < q { NumberIff(raw[k].time, size, m); }
    BucketIsSlice(raw, size, m, p, q);
    i, j := a + p, a + q;
    SliceOfSlice(table, a, b, p, q);
    Nested(table, start, end, lo, hi, a, b, p, q);
  }

  lemma SliceOfSlice(table: seq<Row>, a: nat, b: nat, p: nat, q: nat)
    requires a <= b <= |table| && p <= q <= b - a
    ensures table[a..b][p..q] == table[a + p..a + q]
  {
    var inner, direct := table[a..b][p..q], table[a + p..a + q];
    forall k | 0 <= k < |inner| ensures inner[k] == direct[k] { assert inner[k] == table[a..b][p + k]; }
  }

  /** A stretch of a stretch. */
  lemma Nested(table: seq<Row>, start: int, end: int, lo: int, hi: int, a: nat, b: nat, p: nat, q: nat)
    requires a <= b <= |table| && p <= q <= b - a
    requires forall k :: 0 <= k < |table| ==> (start <= table[k].time < end <==> a <= k < b)
    requires forall k :: 0 <= k < b - a ==> (lo <= table[a..b][k].time < hi <==> p <= k < q)
    ensures forall k :: 0 <= k < |table| ==> (a + p <= k < a + q <==> start <= table[k].time < end && lo <= table[k].time < hi)
  {
    forall k | 0 <= k < |table| ensures a + p <= k < a + q <==> start <= table[k].time < end && lo <= table[k].time < hi {
      if a <= k < b { assert table[a..b][k - a] == table[k]; }
    }
  }

  // ---- One candle -----------------------------------------------------------------------------

  /** The volume of the rows from i up to j. */
  function Traded(table: seq<Row>, i: nat, j: nat): real
    requires i <= j <= |table|
  {
    if i == j then 0.0 else Traded(table, i, j - 1) + table[j - 1].volume
  }

  lemma {:induction false} VolumeIsTraded(table: seq<Row>, i: nat, j: nat)
    requires i <= j <= |table|
    ensures Volume(table[i..j]) == Traded(table, i, j)
  {
    if i < j {
      VolumeIsTraded(table, i, j - 1);
      assert table[i..j] == table[i..j - 1] + [table[j - 1]];
      VolumeConcat(table[i..j - 1], [table[j - 1]]);
      assert Volume([table[j - 1]]) == table[j - 1].volume + Volume([]);
    }
  }

  /** high is the greatest and low the least of the rows' own. */
  ghost predicate Spans(rows: seq<Row>, low: real, high: real)
  {
    && (forall r | r in rows :: low <= r.low && r.high <= high)
    && (exists r | r in rows :: r.low == low) && (exists r | r in rows :: r.high == high)
  }

  lemma {:induction false} ExtremesSpan(rows: seq<Row>)
    requires rows != []
    ensures Spans(rows, MinLow(rows), MaxHigh(rows))
  {
    assert rows[0] in rows;
    if |rows| > 1 {
      var rest := rows[1..];
      ExtremesSpan(rest);
      assert rows == [rows[0]] + rest;
      var lo :| lo in rest && lo.low == MinLow(rest);
      var hi :| hi in rest && hi.high == MaxHigh(rest);
      assert lo in rows && hi in rows;
    }
  }

  /** x is the greatest (or least) yield the rows report, or zero if they report none. */
  ghost predicate YieldOf(rows: seq<Row>, x: real, greatest: bool)
  {
    var f := (r: Row) => if greatest then r.highYtm else r.lowYtm;
    && (forall r | r in rows && f(r).Some? :: if greatest then f(r).value <= x else x <= f(r).value)
    && ((exists r | r in rows :: f(r) == Some(x)) || (x == 0.0 && forall r | r in rows :: f(r) == None))
  }

  lemma {:induction false} MaxYtmIs(rows: seq<Row>)
    ensures match MaxYtm(rows)
            case None => forall r | r in rows :: r.highYtm == None
            case Some(x) => (forall r | r in rows && r.highYtm.Some? :: r.highYtm.value <= x) && exists r | r in rows :: r.highYtm == Some(x)
  {
    if rows != [] {
      var rest := rows[1..];
      MaxYtmIs(rest);
      assert rows == [rows[0]] + rest;
      assert rows[0] in rows;
      if MaxYtm(rest).Some? {
        var r :| r in rest && r.highYtm == MaxYtm(rest);
        assert r in rows;
      }
    }
  }

  lemma {:induction false} MinYtmIs(rows: seq<Row>)
    ensures match MinYtm(rows)
            case None => forall r | r in rows :: r.lowYtm == None
            case Some(x) => (forall r | r in rows && r.lowYtm.Some? :: x <= r.lowYtm.value) && exists r | r in rows :: r.lowYtm == Some(x)
  {
    if rows != [] {
      var rest := rows[1..];
      MinYtmIs(rest);
      assert rows == [rows[0]] + rest;
      assert rows[0] in rows;
      if MinYtm(rest).Some? {
        var r :| r in rest && r.lowYtm == MinYtm(rest);
        assert r in rows;
      }
    }
  }

  /** A candle over the rows i up to j: first open, last close, the extremes between, the volume of all. */
  ghost predicate Covers(c: Candle, table: seq<Row>, i: nat, j: nat)
    requires i < j <= |table|
  {
    var first, last := table[i], table[j - 1];
    && c.open == first.open && c.close == last.close && c.volume == Traded(table, i, j)
    && c.openYtm == (if first.openYtm.Some? then first.openYtm.value else 0.0)
    && c.closeYtm == (if last.closeYtm.Some? then last.closeYtm.value else 0.0)
    && Spans(table[i..j], c.low, c.high)
    && YieldOf(table[i..j], c.highYtm, true) && YieldOf(table[i..j], c.lowYtm, false)
  }

  lemma PopulatedCovers(table: seq<Row>, i: nat, j: nat, at: int)
    requires i < j <= |table|
    ensures Covers(Populated(at, Aggregate(table[i..j])), table, i, j)
  {
    var rows := table[i..j];
    VolumeIsTraded(table, i, j);
    ExtremesSpan(rows);
    YieldsAre(rows);
    hide MaxHigh, MinLow, MaxYtm, MinYtm, Volume, Traded, Spans, YieldOf;
  }

  lemma YieldsAre(rows: seq<Row>)
    ensures YieldOf(rows, Coalesce(MaxYtm(rows)), true) && YieldOf(rows, Coalesce(MinYtm(rows)), false)
  {
    MaxYtmIs(rows);
    MinYtmIs(rows);
  }

  /**
  Candle n covers exactly the table's rows in [start, end) and in its own bucket, one stretch of the table; if there
  are none it is flat at the previous candle's close, with no volume.
   */
  lemma CandleOfRows(table: seq<Row>, size: nat, start: int, end: int, n: nat) returns (i: nat, j: nat)
    requires size > 0 && Ordered(table) && n < |Query(table, size, start, end)|
    ensures var c := Query(table, size, start, end)[n];
            && i <= j <= |table|
            && (forall k :: 0 <= k < |table| ==>
                  (i <= k < j <==> start <= table[k].time < end && c.start <= table[k].time < c.start + size))
            && (i < j ==> Covers(c, table, i, j))
            && (i == j ==> n > 0 && var p := Query(table, size, start, end)[n - 1];
                           c == Candle(c.start, p.close, p.close, p.close, p.close, 0.0,
                                       p.closeYtm, p.closeYtm, p.closeYtm, p.closeYtm))
  {
    var raw, out := Window(table, start, end), Query(table, size, start, end);
    QueryShape(table, size, start, end);
    var m := Number(raw[0].time, size) + n;
    assert RowAt(raw, size, Number(start, size), m) == Some(out[n]);
    i, j := BucketStretch(table, size, start, end, m);
    StartNumber(m, size);
    if i < j {
      PopulatedCovers(table, i, j, m * size);
    } else {
      assert out[n].start == m * size;
      FlatFill(table, size, start, end, n);
    }
    hide Query, Window, InBucket, Aggregate, Latest, Covers;
  }

  // ---- The grid -------------------------------------------------------------------------------

  lemma StartAt(raw: seq<Row>, size: nat, lo: int, m: int)
    requires size > 0 && RowAt(raw, size, lo, m).Some?
    ensures RowAt(raw, size, lo, m).value.start == m * size
  {
    hide Latest, InBucket, Aggregate;
  }

  lemma ShiftedStart(first: int, n: int, size: nat)
    requires size > 0
    ensures (first + n) * size == first * size + n * size && (first + n) * size % size == 0 && (first + 0) * size == first * size
  {
    var m := first + n;
    StartNumber(m, size);
    assert m * size == m * size / size * size + m * size % size;
  }

  /** Starts are multiples of the size, one size apart. */
  lemma StartsOnGrid(table: seq<Row>, size: nat, start: int, end: int, n: nat)
    requires size > 0 && Ordered(table) && n < |Query(table, size, start, end)|
    ensures var out := Query(table, size, start, end);
            out[n].start % size == 0 && out[n].start == out[0].start + n * size
  {
    var raw, out := Window(table, start, end), Query(table, size, start, end);
    QueryShape(table, size, start, end);
    var first := Number(raw[0].time, size);
    assert RowAt(raw, size, Number(start, size), first + n) == Some(out[n]);
    assert RowAt(raw, size, Number(start, size), first + 0) == Some(out[0]);
    StartAt(raw, size, Number(start, size), first + n);
    StartAt(raw, size, Number(start, size), first + 0);
    hide RowAt, Query, Window;
    ShiftedStart(first, n, size);
  }

  /** No rows in the window, no candles; otherwise from the bucket of the first row to the bucket of the last instant. */
  lemma GridEnds(table: seq<Row>, size: nat, start: int, end: int)
    requires size > 0 && Ordered(table)
    ensures var out := Query(table, size, start, end);
            && (out == [] <==> forall r | r in table :: !(start <= r.time < end))
            && (out != [] ==>
                  && out[|out| - 1].start <= end - 1 < out[|out| - 1].start + size
                  && exists k :: 0 <= k < |table| && start <= table[k].time < end
                                 && out[0].start <= table[k].time < out[0].start + size)
  {
    var raw, out := Window(table, start, end), Query(table, size, start, end);
    var a, b := Stretch(table, start, end);
    WindowIsSlice(table, start, end, a, b);
    QueryShape(table, size, start, end);
    RowsOnGrid(table, size, start, end);
    hide Query, Window, Ordered;
    if raw != [] {
      assert raw[0] == table[a] && table[a] in table;
      EndStarts(raw, out, size, start, end);
    }
  }

  lemma EndStarts(raw: seq<Row>, out: seq<Candle>, size: nat, start: int, end: int)
    requires size > 0 && raw != [] && Number(raw[0].time, size) <= Number(end - 1, size)
    requires var first := Number(raw[0].time, size);
             |out| == Number(end - 1, size) + 1 - first && Gapless(out, raw, size, Number(start, size), first)
    ensures out != [] && out[0].start <= raw[0].time < out[0].start + size
    ensures out[|out| - 1].start <= end - 1 < out[|out| - 1].start + size
  {
    var first, hi, lo := Number(raw[0].time, size), Number(end - 1, size), Number(start, size);
    assert RowAt(raw, size, lo, first + 0) == Some(out[0]) && RowAt(raw, size, lo, first + (|out| - 1)) == Some(out[|out| - 1]);
    StartAt(raw, size, lo, first);
    StartAt(raw, size, lo, hi);
    NumberIff(raw[0].time, size, first);
    NumberIff(end - 1, size, hi);
    hide Number, RowAt, Gapless;
  }

  /** The bar lengths: consecutive candles of a folded series are 5 minutes, 15 minutes, 1 hour, 4 hours or a day apart. */
  lemma BarLengths(table: seq<Row>, r: Resolution, start: int, end: int, n: nat)
    requires r.M5? || r.M15? || r.H1? || r.H4? || r.D1?
    requires Ordered(table) && n + 1 < |Series(table, r, start, end)|
    ensures var s := Series(table, r, start, end);
            s[n + 1].start - s[n].start ==
              match r
              case M5 => 5 * 60 * 1_000_000
              case M15 => 15 * 60 * 1_000_000
              case H1 => 60 * 60 * 1_000_000
              case H4 => 4 * 60 * 60 * 1_000_000
              case _ => 24 * 60 * 60 * 1_000_000
  {
    var size := Seconds(r) * 1_000_000;
    StartsOnGrid(table, size, start, end, n);
    StartsOnGrid(table, size, start, end, n + 1);
    assert (n + 1) * size == n * size + size;
  }

  /** One-minute candles are the window's rows, one each, in order. */
  lemma MinutesAreRows(table: seq<Row>, start: int, end: int, n: nat) returns (k: nat)
    requires Ordered(table) && n < |Series(table, M1, start, end)|
    ensures var c := Series(table, M1, start, end)[n];
            && k < |table| && start <= table[k].time < end && c.start == table[k].time
            && k >= n && (forall h :: 0 <= h < k - n ==> table[h].time < start)
            && c.open == table[k].open && c.high == table[k].high && c.low == table[k].low && c.close == table[k].close
            && c.volume == table[k].volume && c.openYtm == Coalesce(table[k].openYtm) && c.highYtm == Coalesce(table[k].highYtm)
            && c.lowYtm == Coalesce(table[k].lowYtm) && c.closeYtm == Coalesce(table[k].closeYtm)
  {
    var a, b := Stretch(table, start, end);
    WindowIsSlice(table, start, end, a, b);
    PassThroughAt(table[a..b], n);
    k := a + n;
    assert table[a..b][n] == table[k];
  }

  lemma {:induction false} PassThroughAt(rows: seq<Row>, n: nat)
    requires n < |PassThrough(rows)|
    ensures |PassThrough(rows)| == |rows|
    ensures var c, r := PassThrough(rows)[n], rows[n];
            && c.start == r.time && c.open == r.open && c.high == r.high && c.low == r.low && c.close == r.close && c.volume == r.volume
            && c.openYtm == Coalesce(r.openYtm) && c.highYtm == Coalesce(r.highYtm)
            && c.lowYtm == Coalesce(r.lowYtm) && c.closeYtm == Coalesce(r.closeYtm)
  {
    PassThroughStarts(rows);
    if n > 0 { PassThroughAt(rows[1..], n - 1); }
  }

  /** The loading loop's first cursor loses nothing after the start of year 1. */
  lemma LoadsAll(table: seq<Row>, r: Resolution, start: int, end: int)
    requires Seconds(r) > 0 && forall c | c in Series(table, r, start, end) :: c.start > -62_135_596_800_000_000
    ensures Keyset.After(Series(table, r, start, end), StartKey, false, ZERO) == Series(table, r, start, end)
  {
    var s := Series(table, r, start, end);
    forall i | 0 <= i < |s| ensures Keyset.Before(false, ZERO, StartKey(s[i])) { assert s[i] in s; }
    Keyset.AfterAll(s, StartKey, false, ZERO);
  }
}
