/**
Folding stored one-minute candles into larger buckets. `Select` follows the SQL: a grid of buckets, one
aggregate each, a join with the latest populated predecessor for the empty ones. `Fold` is one pass over the
rows. Times are microseconds since the epoch; a bucket is named by its number, and starts at number × size.
 */
module CandleFold {
  import opened Prelude
  import opened Keyset

  /** One stored minute; yields are NULL on rows from before they were recorded. */
  datatype Row = Row(time: int, open: real, high: real, low: real, close: real, volume: real,
                     openYtm: Option<real>, highYtm: Option<real>, lowYtm: Option<real>, closeYtm: Option<real>)

  datatype Candle = Candle(start: int, open: real, high: real, low: real, close: real, volume: real,
                           openYtm: real, highYtm: real, lowYtm: real, closeYtm: real)

  datatype Agg = Agg(open: real, high: real, low: real, close: real, volume: real,
                     openYtm: Option<real>, highYtm: Option<real>, lowYtm: Option<real>, closeYtm: Option<real>)

  function Number(t: int, size: nat): int
    requires size > 0
  {
    t / size
  }

  // ---- Aggregates ---------------------------------------------------------------------------

  function Coalesce(x: Option<real>): real
  {
    if x.Some? then x.value else 0.0
  }

  function MaxHigh(rows: seq<Row>): real
    requires rows != []
  {
    if |rows| == 1 then rows[0].high
    else
      var rest := MaxHigh(rows[1..]);
      if rows[0].high > rest then rows[0].high else rest
  }

  function MinLow(rows: seq<Row>): real
    requires rows != []
  {
    if |rows| == 1 then rows[0].low
    else
      var rest := MinLow(rows[1..]);
      if rows[0].low < rest then rows[0].low else rest
  }

  /** The aggregates skip NULL. */
  function MaxYtm(rows: seq<Row>): Option<real>
  {
    if rows == [] then None
    else
      var rest, x := MaxYtm(rows[1..]), rows[0].highYtm;
      if x == None || (rest.Some? && rest.value >= x.value) then rest else x
  }

  function MinYtm(rows: seq<Row>): Option<real>
  {
    if rows == [] then None
    else
      var rest, x := MinYtm(rows[1..]), rows[0].lowYtm;
      if x == None || (rest.Some? && rest.value <= x.value) then rest else x
  }

  function Volume(rows: seq<Row>): real
  {
    if rows == [] then 0.0 else rows[0].volume + Volume(rows[1..])
  }

  function Aggregate(rows: seq<Row>): Agg
    requires rows != []
  {
    var first, last := rows[0], rows[|rows| - 1];
    Agg(first.open, MaxHigh(rows), MinLow(rows), last.close, Volume(rows),
        first.openYtm, MaxYtm(rows), MinYtm(rows), last.closeYtm)
  }

  function Populated(start: int, a: Agg): Candle
  {
    Candle(start, a.open, a.high, a.low, a.close, a.volume,
           Coalesce(a.openYtm), Coalesce(a.highYtm), Coalesce(a.lowYtm), Coalesce(a.closeYtm))
  }

  function Flat(start: int, price: real, ytm: real): Candle
  {
    Candle(start, price, price, price, price, 0.0, ytm, ytm, ytm, ytm)
  }

  // ---- The query, as the SQL describes it ---------------------------------------------------

  function Window(rows: seq<Row>, start: int, end: int): seq<Row>
  {
    if rows == [] then []
    else
      var rest := Window(rows[1..], start, end);
      if start <= rows[0].time < end then [rows[0]] + rest else rest
  }

  function InBucket(raw: seq<Row>, size: nat, m: int): seq<Row>
    requires size > 0
  {
    if raw == [] then []
    else
      var rest := InBucket(raw[1..], size, m);
      if Number(raw[0].time, size) == m then [raw[0]] + rest else rest
  }

  /** The aggregate of the latest populated bucket before m, from lo on. */
  function Latest(raw: seq<Row>, size: nat, lo: int, m: int): Option<Agg>
    requires size > 0
    decreases m - lo
  {
    if m <= lo then None
    else
      var rows := InBucket(raw, size, m - 1);
      if rows != [] then Some(Aggregate(rows)) else Latest(raw, size, lo, m - 1)
  }

  function RowAt(raw: seq<Row>, size: nat, lo: int, m: int): Option<Candle>
    requires size > 0
  {
    var rows, p := InBucket(raw, size, m), Latest(raw, size, lo, m);
    if rows != [] then Some(Populated(m * size, Aggregate(rows)))
    else if p.Some? then Some(Flat(m * size, p.value.close, Coalesce(p.value.closeYtm)))
    else None
  }

  /** Buckets m to hi in order, less those with no data and no predecessor. */
  function Select(raw: seq<Row>, size: nat, lo: int, m: int, hi: int): seq<Candle>
    requires size > 0
    decreases hi + 1 - m
  {
    if m > hi then []
    else
      var rest, row := Select(raw, size, lo, m + 1, hi), RowAt(raw, size, lo, m);
      if row.Some? then [row.value] + rest else rest
  }

  /** The query without cursor and limit: the grid runs from the window's first instant to its last. */
  function Query(table: seq<Row>, size: nat, start: int, end: int): seq<Candle>
    requires size > 0
  {
    var lo := Number(start, size);
    Select(Window(table, start, end), size, lo, lo, Number(end - 1, size))
  }

  // ---- The same in one pass -----------------------------------------------------------------

  /** How many leading rows fall in bucket m or before. */
  function Span(rows: seq<Row>, size: nat, m: int): (n: nat)
    requires size > 0
    ensures n <= |rows| && (n < |rows| ==> Number(rows[n].time, size) > m)
    ensures forall i :: 0 <= i < n ==> Number(rows[i].time, size) <= m
  {
    if rows == [] || Number(rows[0].time, size) > m then 0 else 1 + Span(rows[1..], size, m)
  }

  function Fold(rows: seq<Row>, size: nat, m: int, hi: int, carry: Option<Agg>): seq<Candle>
    requires size > 0
    decreases hi + 1 - m
  {
    if m > hi then []
    else
      var n := Span(rows, size, m);
      if n > 0 then
        var a := Aggregate(rows[..n]);
        [Populated(m * size, a)] + Fold(rows[n..], size, m + 1, hi, Some(a))
      else if carry.Some? then
        [Flat(m * size, carry.value.close, Coalesce(carry.value.closeYtm))] + Fold(rows, size, m + 1, hi, carry)
      else Fold(rows, size, m + 1, hi, carry)
  }

  /** The primary key orders a book's rows. */
  ghost predicate Ordered(rows: seq<Row>)
  {
    forall i, j :: 0 <= i < j < |rows| ==> rows[i].time < rows[j].time
  }

  /** Different multiples of the size are at least the size apart. */
  lemma Apart(a: int, b: int, size: nat)
    requires size > 0
    ensures a > b ==> a * size >= b * size + size
  {
    assert a * size == b * size + (a - b) * size;
    if a > b { assert (a - b) * size == size + (a - b - 1) * size; }
  }

  lemma NumberMonotone(t: int, u: int, size: nat)
    requires size > 0 && t <= u
    ensures Number(t, size) <= Number(u, size)
  {
    assert t == t / size * size + t % size && u == u / size * size + u % size;
    Apart(t / size, u / size, size);
  }

  lemma {:induction false} BucketIsSlice(raw: seq<Row>, size: nat, m: int, i: nat, j: nat)
    requires size > 0 && i <= j <= |raw|
    requires forall k :: 0 <= k < |raw| ==> (Number(raw[k].time, size) == m <==> i <= k < j)
    ensures InBucket(raw, size, m) == raw[i..j]
  {
    if raw != [] {
      var rest := raw[1..];
      assert forall k :: 0 <= k < |rest| ==> rest[k] == raw[k + 1];
      var i', j' := if i > 0 then i - 1 else 0, if j > 0 then j - 1 else 0;
      BucketIsSlice(rest, size, m, i', j');
      if i == 0 < j { assert raw[i..j] == [raw[0]] + rest[i'..j']; }
    }
  }

  ghost predicate NumbersFrom(raw: seq<Row>, size: nat, i: nat, m: int)
    requires size > 0
  {
    && (forall k :: 0 <= k < i && k < |raw| ==> Number(raw[k].time, size) < m)
    && (forall k :: i <= k < |raw| ==> Number(raw[k].time, size) >= m)
  }

  lemma SpanIsBucket(raw: seq<Row>, size: nat, m: int, i: nat)
    requires size > 0 && Ordered(raw) && i <= |raw| && NumbersFrom(raw, size, i, m)
    ensures var n := Span(raw[i..], size, m);
            && InBucket(raw, size, m) == raw[i..][..n] && raw[i..][n..] == raw[i + n..]
            && NumbersFrom(raw, size, i + n, m + 1)
  {
    var rows := raw[i..];
    var n := Span(rows, size, m);
    assert forall k :: i <= k < |raw| ==> raw[k] == rows[k - i];
    forall k | i + n <= k < |raw| ensures Number(raw[k].time, size) > m {
      assert rows[n] == raw[i + n];
      NumberMonotone(raw[i + n].time, raw[k].time, size);
    }
    BucketIsSlice(raw, size, m, i, i + n);
    assert raw[i..i + n] == rows[..n];
  }

  lemma FoldStep(raw: seq<Row>, rows: seq<Row>, size: nat, lo: int, m: int, hi: int)
    requires size > 0 && lo <= m <= hi && InBucket(raw, size, m) == rows[..Span(rows, size, m)]
    requires Fold(rows[Span(rows, size, m)..], size, m + 1, hi, Latest(raw, size, lo, m + 1)) == Select(raw, size, lo, m + 1, hi)
    ensures Fold(rows, size, m, hi, Latest(raw, size, lo, m)) == Select(raw, size, lo, m, hi)
  {
    assert rows[0..] == rows;
  }

  /** The predecessor join computes what one pass carrying the last populated aggregate computes. */
  lemma {:induction false} FoldIsSelect(raw: seq<Row>, size: nat, lo: int, m: int, hi: int, i: nat)
    requires size > 0 && Ordered(raw) && i <= |raw| && lo <= m && NumbersFrom(raw, size, i, m)
    ensures Fold(raw[i..], size, m, hi, Latest(raw, size, lo, m)) == Select(raw, size, lo, m, hi)
    decreases hi + 1 - m
  {
    hide Ordered, NumbersFrom, Latest, InBucket, Number, Span, RowAt, Aggregate;
    if m <= hi {
      hide Fold, Select;
      SpanIsBucket(raw, size, m, i);
      var n := Span(raw[i..], size, m);
      FoldIsSelect(raw, size, lo, m + 1, hi, i + n);
      FoldStep(raw, raw[i..], size, lo, m, hi);
    }
  }

  // ---- What the folded series is ------------------------------------------------------------

  lemma {:induction false} WindowMember(rows: seq<Row>, start: int, end: int, k: nat)
    requires k < |Window(rows, start, end)|
    ensures var r := Window(rows, start, end)[k]; r in rows && start <= r.time < end
  {
    if !(start <= rows[0].time < end) {
      WindowMember(rows[1..], start, end, k);
    } else if k > 0 {
      WindowMember(rows[1..], start, end, k - 1);
    }
  }

  lemma {:induction false} WindowRows(rows: seq<Row>, start: int, end: int)
    requires Ordered(rows)
    ensures Ordered(Window(rows, start, end))
  {
    if rows != [] {
      WindowRows(rows[1..], start, end);
      var rest := Window(rows[1..], start, end);
      forall k | 0 <= k < |rest| ensures rows[0].time < rest[k].time { WindowMember(rows[1..], start, end, k); }
    }
  }

  /** Every row of the window falls in a bucket of the grid. */
  lemma RowsOnGrid(table: seq<Row>, size: nat, start: int, end: int)
    requires size > 0 && Ordered(table)
    ensures var raw := Window(table, start, end);
            Ordered(raw) && forall k :: 0 <= k < |raw| ==> Number(start, size) <= Number(raw[k].time, size) <= Number(end - 1, size)
  {
    var raw := Window(table, start, end);
    WindowRows(table, start, end);
    forall k | 0 <= k < |raw| ensures Number(start, size) <= Number(raw[k].time, size) <= Number(end - 1, size) {
      WindowMember(table, start, end, k);
      NumberMonotone(start, raw[k].time, size);
      NumberMonotone(raw[k].time, end - 1, size);
    }
  }

  /** The whole query is one left-to-right fold that starts with nothing to carry. */
  lemma QueryIsFold(table: seq<Row>, size: nat, start: int, end: int)
    requires size > 0 && Ordered(table)
    ensures Query(table, size, start, end) ==
            Fold(Window(table, start, end), size, Number(start, size), Number(end - 1, size), None)
  {
    var raw, lo := Window(table, start, end), Number(start, size);
    RowsOnGrid(table, size, start, end);
    FoldIsSelect(raw, size, lo, lo, Number(end - 1, size), 0);
    assert raw[0..] == raw;
  }

  function TotalVolume(out: seq<Candle>): real
  {
    if out == [] then 0.0 else out[0].volume + TotalVolume(out[1..])
  }

  lemma {:induction false} VolumeConcat(a: seq<Row>, b: seq<Row>)
    ensures Volume(a + b) == Volume(a) + Volume(b)
  {
    if a == [] {
      assert a + b == b;
    } else {
      VolumeConcat(a[1..], b);
      assert (a + b)[1..] == a[1..] + b;
    }
  }

  /** All rows lie in buckets m to hi, in order. */
  ghost predicate Within(rows: seq<Row>, size: nat, m: int, hi: int)
    requires size > 0
  {
    && (forall k :: 0 <= k < |rows| ==> m <= Number(rows[k].time, size) <= hi)
    && (forall j, k :: 0 <= j < k < |rows| ==> Number(rows[j].time, size) <= Number(rows[k].time, size))
  }

  lemma SpanLeaves(rows: seq<Row>, size: nat, m: int, hi: int)
    requires size > 0 && Within(rows, size, m, hi)
    ensures var n := Span(rows, size, m); Within(rows[n..], size, m + 1, hi) && Volume(rows[..n]) + Volume(rows[n..]) == Volume(rows)
  {
    var n := Span(rows, size, m);
    assert rows == rows[..n] + rows[n..];
    VolumeConcat(rows[..n], rows[n..]);
  }

  lemma VolumeCons(c: Candle, rest: seq<Candle>)
    ensures TotalVolume([c] + rest) == c.volume + TotalVolume(rest)
  {
    assert ([c] + rest)[1..] == rest;
  }

  lemma {:induction false} FoldVolume(rows: seq<Row>, size: nat, m: int, hi: int, carry: Option<Agg>)
    requires size > 0 && Within(rows, size, m, hi)
    ensures TotalVolume(Fold(rows, size, m, hi, carry)) == Volume(rows)
    decreases hi + 1 - m
  {
    if m <= hi {
      var n := Span(rows, size, m);
      SpanLeaves(rows, size, m, hi);
      if n > 0 {
        var a := Aggregate(rows[..n]);
        FoldVolume(rows[n..], size, m + 1, hi, Some(a));
        VolumeCons(Populated(m * size, a), Fold(rows[n..], size, m + 1, hi, Some(a)));
      } else {
        assert rows[n..] == rows;
        FoldVolume(rows, size, m + 1, hi, carry);
        if carry.Some? {
          VolumeCons(Flat(m * size, carry.value.close, Coalesce(carry.value.closeYtm)), Fold(rows, size, m + 1, hi, carry));
        }
      }
    }
  }

  /** Folding neither loses nor invents volume. */
  lemma VolumeConserved(table: seq<Row>, size: nat, start: int, end: int)
    requires size > 0 && Ordered(table)
    ensures TotalVolume(Query(table, size, start, end)) == Volume(Window(table, start, end))
  {
    var raw := Window(table, start, end);
    RowsOnGrid(table, size, start, end);
    QueryIsFold(table, size, start, end);
    forall j, k | 0 <= j < k < |raw| ensures Number(raw[j].time, size) <= Number(raw[k].time, size) {
      NumberMonotone(raw[j].time, raw[k].time, size);
    }
    FoldVolume(raw, size, Number(start, size), Number(end - 1, size), None);
  }

  lemma {:induction false} NoRows(raw: seq<Row>, size: nat, m: int)
    requires size > 0
    ensures InBucket(raw, size, m) == [] <==> forall k :: 0 <= k < |raw| ==> Number(raw[k].time, size) != m
    ensures forall k :: 0 <= k < |InBucket(raw, size, m)| ==> InBucket(raw, size, m)[k] in raw
  {
    if raw != [] {
      NoRows(raw[1..], size, m);
      var rest := InBucket(raw[1..], size, m);
      assert forall k :: 0 <= k < |rest| ==> rest[k] in raw[1..];
      assert forall k :: 0 < k < |raw| ==> raw[k] == raw[1..][k - 1];
    }
  }

  /** A predecessor exists exactly past the first populated bucket. */
  lemma {:induction false} LatestExists(raw: seq<Row>, size: nat, lo: int, m: int)
    requires size > 0 && Ordered(raw) && forall k :: 0 <= k < |raw| ==> lo <= Number(raw[k].time, size)
    ensures Latest(raw, size, lo, m).Some? <==> raw != [] && Number(raw[0].time, size) < m
    decreases m - lo
  {
    if m > lo {
      NoRows(raw, size, m - 1);
      LatestExists(raw, size, lo, m - 1);
      if raw != [] && InBucket(raw, size, m - 1) != [] {
        var k :| 0 <= k < |raw| && Number(raw[k].time, size) == m - 1;
        NumberMonotone(raw[0].time, raw[k].time, size);
      }
    }
  }

  /** Entry i is the row of bucket first + i, which starts at that bucket's first instant. */
  ghost predicate Gapless(out: seq<Candle>, raw: seq<Row>, size: nat, lo: int, first: int)
    requires size > 0
  {
    forall i :: 0 <= i < |out| ==> RowAt(raw, size, lo, first + i) == Some(out[i])
  }

  lemma RowExists(raw: seq<Row>, size: nat, lo: int, m: int)
    requires size > 0 && Ordered(raw) && raw != [] && forall k :: 0 <= k < |raw| ==> lo <= Number(raw[k].time, size)
    ensures Number(raw[0].time, size) <= m ==> RowAt(raw, size, lo, m).Some?
  {
    LatestExists(raw, size, lo, m);
    NoRows(raw, size, m);
  }

  lemma SelectCons(raw: seq<Row>, size: nat, lo: int, m: int, hi: int)
    requires size > 0 && m <= hi && RowAt(raw, size, lo, m).Some?
    requires var rest := Select(raw, size, lo, m + 1, hi); |rest| == hi - m && Gapless(rest, raw, size, lo, m + 1)
    ensures var out := Select(raw, size, lo, m, hi); |out| == hi + 1 - m && Gapless(out, raw, size, lo, m)
  {
    var rest, out := Select(raw, size, lo, m + 1, hi), Select(raw, size, lo, m, hi);
    forall i | 0 <= i < |out| ensures RowAt(raw, size, lo, m + i) == Some(out[i]) {
      if i > 0 { assert RowAt(raw, size, lo, m + 1 + (i - 1)) == Some(rest[i - 1]); }
    }
  }

  lemma {:induction false} SelectFrom(raw: seq<Row>, size: nat, lo: int, m: int, hi: int)
    requires size > 0 && Ordered(raw) && raw != [] && Number(raw[0].time, size) <= m <= hi + 1
    requires forall k :: 0 <= k < |raw| ==> lo <= Number(raw[k].time, size)
    ensures var out := Select(raw, size, lo, m, hi); |out| == hi + 1 - m && Gapless(out, raw, size, lo, m)
    decreases hi + 1 - m
  {
    if m <= hi {
      SelectFrom(raw, size, lo, m + 1, hi);
      RowExists(raw, size, lo, m);
      SelectCons(raw, size, lo, m, hi);
    }
  }

  lemma {:induction false} SelectLeading(raw: seq<Row>, size: nat, lo: int, m: int, hi: int)
    requires size > 0 && Ordered(raw) && raw != [] && m <= Number(raw[0].time, size) <= hi + 1
    requires forall k :: 0 <= k < |raw| ==> lo <= Number(raw[k].time, size)
    ensures Select(raw, size, lo, m, hi) == Select(raw, size, lo, Number(raw[0].time, size), hi)
    decreases hi + 1 - m
  {
    if m < Number(raw[0].time, size) {
      SelectLeading(raw, size, lo, m + 1, hi);
      LatestExists(raw, size, lo, m);
      NoRows(raw, size, m);
      forall k | 0 <= k < |raw| ensures Number(raw[k].time, size) != m { NumberMonotone(raw[0].time, raw[k].time, size); }
    }
  }

  /** No data, no candles; otherwise one candle per bucket from the first populated one to the end of the grid. */
  lemma QueryShape(table: seq<Row>, size: nat, start: int, end: int)
    requires size > 0 && Ordered(table)
    ensures var raw := Window(table, start, end);
            var out := Query(table, size, start, end);
            if raw == [] then out == []
            else
              var first := Number(raw[0].time, size);
              |out| == Number(end - 1, size) + 1 - first && Gapless(out, raw, size, Number(start, size), first)
  {
    var raw, lo, hi := Window(table, start, end), Number(start, size), Number(end - 1, size);
    RowsOnGrid(table, size, start, end);
    if raw == [] {
      NothingSelected(size, lo, lo, hi);
    } else {
      SelectLeading(raw, size, lo, lo, hi);
      SelectFrom(raw, size, lo, Number(raw[0].time, size), hi);
    }
  }

  lemma {:induction false} NothingSelected(size: nat, lo: int, m: int, hi: int)
    requires size > 0
    ensures Select([], size, lo, m, hi) == []
    decreases hi + 1 - m
  {
    if m <= hi {
      LatestExists([], size, lo, m);
      NothingSelected(size, lo, m + 1, hi);
    }
  }

  /** An empty bucket reports no movement: every price is the previous candle's close, every yield its close yield. */
  lemma FlatFill(table: seq<Row>, size: nat, start: int, end: int, i: nat)
    requires size > 0 && Ordered(table) && i < |Query(table, size, start, end)|
    requires InBucket(Window(table, start, end), size, Query(table, size, start, end)[i].start / size) == []
    ensures i > 0 && var out := Query(table, size, start, end); out[i] == Flat(out[i].start, out[i - 1].close, out[i - 1].closeYtm)
  {
    var raw, lo := Window(table, start, end), Number(start, size);
    var out := Query(table, size, start, end);
    QueryShape(table, size, start, end);
    var m := Number(raw[0].time, size) + i;
    assert RowAt(raw, size, lo, m) == Some(out[i]);
    StartNumber(m, size);
    NoRows(raw, size, m);
    assert i > 0;
    RowsOnGrid(table, size, start, end);
    assert RowAt(raw, size, lo, m - 1) == Some(out[i - 1]);
  }

  lemma StartNumber(m: int, size: nat)
    requires size > 0
    ensures m * size / size == m
  {
    assert m * size == m * size / size * size + m * size % size;
    Apart(m, m * size / size, size);
    Apart(m * size / size, m, size);
  }

  predicate PriceOk(open: real, high: real, low: real, close: real)
  {
    low <= open <= high && low <= close <= high
  }

  ghost predicate RowsOk(rows: seq<Row>)
  {
    forall k :: 0 <= k < |rows| ==> PriceOk(rows[k].open, rows[k].high, rows[k].low, rows[k].close)
  }

  lemma {:induction false} Extremes(rows: seq<Row>, k: nat)
    requires k < |rows|
    ensures MinLow(rows) <= rows[k].low && rows[k].high <= MaxHigh(rows)
  {
    if k > 0 { Extremes(rows[1..], k - 1); }
  }

  lemma AggregateOk(rows: seq<Row>)
    requires rows != [] && RowsOk(rows)
    ensures var a := Aggregate(rows); PriceOk(a.open, a.high, a.low, a.close)
  {
    Extremes(rows, 0);
    Extremes(rows, |rows| - 1);
  }

  lemma {:induction false} BucketOk(raw: seq<Row>, size: nat, m: int)
    requires size > 0 && RowsOk(raw)
    ensures RowsOk(InBucket(raw, size, m))
  {
    if raw != [] { BucketOk(raw[1..], size, m); }
  }

  lemma {:induction false} WindowOk(rows: seq<Row>, start: int, end: int)
    requires RowsOk(rows)
    ensures RowsOk(Window(rows, start, end))
  {
    if rows != [] { WindowOk(rows[1..], start, end); }
  }

  /** Open and close stay between low and high. */
  lemma PricesStayInRange(table: seq<Row>, size: nat, start: int, end: int, i: nat)
    requires size > 0 && Ordered(table) && RowsOk(table) && i < |Query(table, size, start, end)|
    ensures var c := Query(table, size, start, end)[i]; PriceOk(c.open, c.high, c.low, c.close)
  {
    var raw, out := Window(table, start, end), Query(table, size, start, end);
    QueryShape(table, size, start, end);
    var m := Number(raw[0].time, size) + i;
    assert RowAt(raw, size, Number(start, size), m) == Some(out[i]);
    WindowOk(table, start, end);
    BucketOk(raw, size, m);
    if InBucket(raw, size, m) != [] { AggregateOk(InBucket(raw, size, m)); }
  }

  // ---- Loading page by page -----------------------------------------------------------------

  datatype Resolution = M1 | M5 | M15 | H1 | H4 | D1 | Other(name: string)

  /** Zero for an unknown name. */
  function Seconds(r: Resolution): nat
  {
    match r
    case M1 => 60
    case M5 => 300
    case M15 => 900
    case H1 => 3600
    case H4 => 14400
    case D1 => 86400
    case Other(_) => 0
  }

  function PassThrough(rows: seq<Row>): seq<Candle>
  {
    if rows == [] then []
    else
      var r := rows[0];
      [Candle(r.time, r.open, r.high, r.low, r.close, r.volume,
              Coalesce(r.openYtm), Coalesce(r.highYtm), Coalesce(r.lowYtm), Coalesce(r.closeYtm))] + PassThrough(rows[1..])
  }

  /** One minute is passed through; anything longer is folded. */
  function Series(table: seq<Row>, r: Resolution, start: int, end: int): seq<Candle>
    requires Seconds(r) > 0
  {
    if Seconds(r) <= 60 then PassThrough(Window(table, start, end)) else Query(table, Seconds(r) * 1_000_000, start, end)
  }

  function StartKey(c: Candle): Key
  {
    Key(c.start, 0)
  }

  /** The zero time, 1 January of year 1. */
  const ZERO := Key(-62_135_596_800_000_000, 0)

  lemma {:induction false} PassThroughStarts(rows: seq<Row>)
    ensures |PassThrough(rows)| == |rows|
    ensures forall k :: 0 <= k < |rows| ==> PassThrough(rows)[k].start == rows[k].time
  {
    if rows != [] { PassThroughStarts(rows[1..]); }
  }

  lemma QueryStartsIncrease(table: seq<Row>, size: nat, start: int, end: int, i: nat, j: nat)
    requires size > 0 && Ordered(table) && i < j < |Query(table, size, start, end)|
    ensures Query(table, size, start, end)[i].start < Query(table, size, start, end)[j].start
  {
    var raw, out := Window(table, start, end), Query(table, size, start, end);
    QueryShape(table, size, start, end);
    var first := Number(raw[0].time, size);
    assert RowAt(raw, size, Number(start, size), first + i) == Some(out[i]);
    assert RowAt(raw, size, Number(start, size), first + j) == Some(out[j]);
    Apart(first + j, first + i, size);
  }

  lemma StartsIncrease(table: seq<Row>, r: Resolution, start: int, end: int, i: nat, j: nat)
    requires Seconds(r) > 0 && Ordered(table) && i < j < |Series(table, r, start, end)|
    ensures Series(table, r, start, end)[i].start < Series(table, r, start, end)[j].start
  {
    if Seconds(r) <= 60 {
      WindowRows(table, start, end);
      PassThroughStarts(Window(table, start, end));
    } else {
      QueryStartsIncrease(table, Seconds(r) * 1_000_000, start, end, i, j);
    }
  }

  method QueryCandlePage(table: seq<Row>, r: Resolution, since: int, until: int, cursor: Key, limit: nat) returns (rows: seq<Candle>)
    requires Seconds(r) > 0
    ensures rows == Take(After(Series(table, r, since, until), StartKey, false, cursor), limit)
  {
    rows := Take(After(Series(table, r, since, until), StartKey, false, cursor), limit);
  }

  /** Every candle of the series from year 1 on, once and in order, whatever the page size. */
  method LoadCandlesBucketed(table: seq<Row>, r: Resolution, since: int, until: int, maxRows: nat) returns (result: Result<seq<Candle>>)
    requires maxRows > 0 && Ordered(table)
    ensures result == if Seconds(r) == 0 then Err else Ok(After(Series(table, r, since, until), StartKey, false, ZERO))
  {
    if Seconds(r) == 0 { return Err; }
    ghost var series := Series(table, r, since, until);
    ghost var all := Left(series, StartKey, Some(ZERO), maxRows);
    SeriesWalk(table, r, since, until, maxRows);
    var out, cursor := [], ZERO;
    while true
      invariant out + Left(series, StartKey, Some(cursor), maxRows) == all
      decreases |After(series, StartKey, false, cursor)|
    {
      var rows := QueryCandlePage(table, r, since, until, cursor, maxRows);
      StreamStep(series, StartKey, Some(cursor), maxRows, out, rows);
      if |rows| == 0 {
        assert out + rows == out;
        return Ok(out);
      }
      out := out + rows;
      if |rows| < maxRows { return Ok(out); }
      cursor := StartKey(rows[|rows| - 1]);
    }
  }

  /** Starts are distinct, so walking the series by pages yields it all. */
  lemma SeriesWalk(table: seq<Row>, r: Resolution, start: int, end: int, n: nat)
    requires Seconds(r) > 0 && Ordered(table) && n > 0
    ensures var s := After(Series(table, r, start, end), StartKey, false, ZERO); Walk(s, StartKey, false, n) == s
  {
    var series := Series(table, r, start, end);
    var s := After(series, StartKey, false, ZERO);
    forall i, j | 0 <= i < j < |series| ensures series[i].start < series[j].start { StartsIncrease(table, r, start, end, i, j); }
    AfterOrdered(series, StartKey, false, ZERO);
    AfterDistinct(series, StartKey, false, ZERO);
    DistinctCutsClean(s, StartKey, n);
    WalkIsWholeIff(s, StartKey, false, n);
  }
}
