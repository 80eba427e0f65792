/** Laws of every replay, for every strategy: cash conservation, entry balances and the timeline. */
module ReplayLaws {
  import opened Prelude
  import opened Replay

  function TotalPnl<V>(closed: seq<ClosedTrade<V>>): real
  {
    if closed == [] then 0.0 else TotalPnl(closed[..|closed| - 1]) + closed[|closed| - 1].pnl
  }

  lemma TotalPnlSnoc<V>(closed: seq<ClosedTrade<V>>, c: ClosedTrade<V>)
    ensures TotalPnl(closed + [c]) == TotalPnl(closed) + c.pnl
  {
    assert (closed + [c])[..|closed|] == closed;
  }

  // ---- Cash ---------------------------------------------------------------------------------

  /** Cash plus the open position at its entry price. */
  function BookValue<V>(s: Sim<V>): real
  {
    match s.open
    case None => s.balance
    case Some(pos) => AfterExit(s.balance, pos.signal, pos.price, pos.quantity)
  }

  /** The entry balance of the k-th close is the capital plus all earlier profit and loss. */
  ghost predicate Chained<V>(capital: real, closed: seq<ClosedTrade<V>>)
  {
    forall k :: 0 <= k < |closed| ==> closed[k].entry.entryBalance == capital + TotalPnl(closed[..k])
  }

  ghost predicate CashInv<V>(capital: real, s: Sim<V>)
  {
    && BookValue(s) == capital + TotalPnl(s.closed)
    && Chained(capital, s.closed)
    && (s.open.Some? ==> s.open.value.entryBalance == capital + TotalPnl(s.closed) && s.open.value.signal != Hold)
  }

  lemma CloseKeepsCash<V>(capital: real, s: Sim<V>, at: int, x: Exit)
    requires CashInv(capital, s) && s.open.Some?
    ensures CashInv(capital, CloseAt(s, at, x))
  {
    var c := Closed(s.open.value, at, x);
    TotalPnlSnoc(s.closed, c);
    var all := s.closed + [c];
    assert all[..|s.closed|] == s.closed;
    assert forall k :: 0 <= k < |s.closed| ==> all[..k] == s.closed[..k] && all[k] == s.closed[k];
  }

  lemma {:induction false} TicksKeepCash<V>(capital: real, p: Policy<V>, bar: Bar, v: V, s: Sim<V>, window: seq<Tick>)
    requires CashInv(capital, s)
    ensures CashInv(capital, OnTicks(p, bar, v, s, window))
    decreases |window|
  {
    if s.open.Some? && window != [] {
      match p.tickExit(v, s.open.value, bar, window[0])
      case Some(x) => CloseKeepsCash(capital, s, window[0].time, x);
      case None => TicksKeepCash(capital, p, bar, v, s, window[1..]);
    }
  }

  lemma DecisionKeepsCash<V>(p: Policy<V>, tape: Tape, i: nat, v: V, s: Sim<V>)
    requires i < |tape.bars| && CashInv(p.capital, s) && AtClose(p, tape, i, v, s).Ok?
    ensures CashInv(p.capital, AtClose(p, tape, i, v, s).value)
  {
    if s.open.Some? {
      match p.barExit(v, s.open.value, tape.bars[i], Covered(p, tape, i))
      case Some(x) => CloseKeepsCash(p.capital, s, CloseTime(p, tape, i), x);
      case None =>
    }
  }

  /**
  At every bar boundary of every replay, cash plus the open position at cost is the capital plus the
  closed profit and loss, and each entry balance is the capital plus all profit and loss before it.
   */
  lemma {:induction false} CashConserved<V>(p: Policy<V>, tape: Tape, n: nat)
    requires n <= |tape.bars| && After(p, tape, n).Ok?
    ensures CashInv(p.capital, After(p, tape, n).value)
  {
    if n > 0 {
      CashConserved(p, tape, n - 1);
      var s, i := After(p, tape, n - 1).value, n - 1;
      var v := p.update(tape.bars[..i + 1], Ingested(tape.trades, CloseTime(p, tape, i))).value;
      DecisionKeepsCash(p, tape, i, v, s);
      TicksKeepCash(p.capital, p, tape.bars[i], v, AtClose(p, tape, i, v, s).value,
                    Window(tape.ticks, CloseTime(p, tape, i), WindowEnd(p, tape, i)));
    }
  }

  /** Every reported close of a finished replay carries the equity it was opened with. */
  lemma OutcomeChained<V>(p: Policy<V>, tape: Tape)
    requires Simple(p, tape).Ok?
    ensures Chained(p.capital, Simple(p, tape).value.closed)
  {
    CashConserved(p, tape, |tape.bars|);
    var s := After(p, tape, |tape.bars|).value;
    if s.open.Some? && tape.bars != [] {
      var n := |tape.bars| - 1;
      CloseKeepsCash(p.capital, s, CloseTime(p, tape, n), Exit(tape.bars[n].close, p.forcedReason, true));
    }
  }

  // ---- Timeline -----------------------------------------------------------------------------

  ghost predicate TradesOrdered<V>(closed: seq<ClosedTrade<V>>)
  {
    && (forall k :: 0 <= k < |closed| ==> closed[k].entry.time <= closed[k].closeTime)
    && (forall k :: 0 <= k < |closed| - 1 ==> closed[k].closeTime <= closed[k + 1].entry.time)
  }

  ghost predicate RecordsOrdered(records: seq<TradeRecord>)
  {
    forall j, k :: 0 <= j < k < |records| ==> records[j].time <= records[k].time
  }

  /** Nothing recorded so far is later than `now`. */
  ghost predicate NotAfter<V>(s: Sim<V>, now: int)
  {
    && (s.closed != [] ==> s.closed[|s.closed| - 1].closeTime <= now)
    && (forall k :: 0 <= k < |s.records| ==> s.records[k].time <= now)
  }

  /** The bar of an entry starts at or after `tradeFrom`, and the entry is not after `tradeTo`. */
  ghost predicate InBounds<V>(p: Policy<V>, openTime: int)
  {
    && (p.tradeFrom.Some? ==> p.tradeFrom.value + p.resolution <= openTime)
    && (p.tradeTo.Some? ==> openTime <= p.tradeTo.value)
  }

  ghost predicate TimeInv<V>(p: Policy<V>, s: Sim<V>, now: int)
  {
    && TradesOrdered(s.closed) && RecordsOrdered(s.records)
    && NotAfter(s, now)
    && (forall k :: 0 <= k < |s.closed| ==> InBounds(p, s.closed[k].entry.time))
    && (s.open.Some? ==>
          s.open.value.time <= now && NotAfter(s, s.open.value.time) && InBounds(p, s.open.value.time))
  }

  lemma CloseKeepsTime<V>(p: Policy<V>, s: Sim<V>, now: int, at: int, x: Exit)
    requires TimeInv(p, s, now) && s.open.Some? && s.open.value.time <= at
    ensures TimeInv(p, CloseAt(s, at, x), at)
  {
    var r := CloseAt(s, at, x);
    var n := |s.closed|;
    assert forall k :: 0 <= k < n ==> r.closed[k] == s.closed[k];
    assert forall k :: 0 <= k < |s.records| ==> r.records[k] == s.records[k];
  }

  lemma {:induction false} TicksKeepTime<V>(p: Policy<V>, bar: Bar, v: V, s: Sim<V>, window: seq<Tick>, now: int, end: int)
    requires TimeInv(p, s, now) && now <= end
    requires forall k :: 0 <= k < |window| ==> now <= window[k].time <= end
    ensures TimeInv(p, OnTicks(p, bar, v, s, window), end)
    decreases |window|
  {
    if s.open.Some? && window != [] {
      match p.tickExit(v, s.open.value, bar, window[0])
      case Some(x) => CloseKeepsTime(p, s, now, window[0].time, x);
      case None => TicksKeepTime(p, bar, v, s, window[1..], now, end);
    }
  }

  lemma {:induction false} WindowTimes(ticks: seq<Tick>, from: int, to: int)
    ensures forall k :: 0 <= k < |Window(ticks, from, to)| ==> from < Window(ticks, from, to)[k].time <= to
  {
    if ticks != [] { WindowTimes(ticks[..|ticks| - 1], from, to); }
  }

  lemma DecisionKeepsTime<V>(p: Policy<V>, tape: Tape, i: nat, v: V, s: Sim<V>, before: int)
    requires i < |tape.bars| && before <= CloseTime(p, tape, i)
    requires TimeInv(p, s, before) && AtClose(p, tape, i, v, s).Ok?
    ensures TimeInv(p, AtClose(p, tape, i, v, s).value, CloseTime(p, tape, i))
  {
    var close := CloseTime(p, tape, i);
    assert TimeInv(p, s, close);
    if s.open.Some? {
      match p.barExit(v, s.open.value, tape.bars[i], Covered(p, tape, i))
      case Some(x) => CloseKeepsTime(p, s, close, close, x);
      case None =>
    } else if MayEnter(p, tape, i, v) && AtClose(p, tape, i, v, s).value.open.Some? {
      EntryKeepsTime(p, s, Record(AtClose(p, tape, i, v, s).value.open.value), close);
    }
  }

  lemma EntryKeepsTime<V>(p: Policy<V>, s: Sim<V>, r: TradeRecord, close: int)
    requires TimeInv(p, s, close) && r.time == close
    ensures RecordsOrdered(s.records + [r])
    ensures forall k :: 0 <= k <= |s.records| ==> (s.records + [r])[k].time <= close
  {
  }

  /** The clock after n bars. */
  function Clock<V>(p: Policy<V>, tape: Tape, n: nat): int
    requires 0 < n <= |tape.bars|
  {
    WindowEnd(p, tape, n - 1)
  }

  /** Along every replay of increasing bars no trade or record goes back in time. */
  lemma {:induction false} TimelineKept<V>(p: Policy<V>, tape: Tape, n: nat)
    requires 0 < n <= |tape.bars| && BarsIncreasing(tape.bars) && After(p, tape, n).Ok?
    ensures TimeInv(p, After(p, tape, n).value, Clock(p, tape, n))
  {
    var i := n - 1;
    var s, close := After(p, tape, i).value, CloseTime(p, tape, i);
    if i > 0 { TimelineKept(p, tape, i); }
    var before := if i > 0 then Clock(p, tape, i) else close;
    var v := p.update(tape.bars[..i + 1], Ingested(tape.trades, close)).value;
    DecisionKeepsTime(p, tape, i, v, s, before);
    var end := WindowEnd(p, tape, i);
    assert close <= end;
    WindowTimes(tape.ticks, close, end);
    TicksKeepTime(p, tape.bars[i], v, AtClose(p, tape, i, v, s).value, Window(tape.ticks, close, end), close, end);
  }

  /** An entry never comes after the last bar's close. */
  lemma {:induction false} OpenedByClose<V>(p: Policy<V>, tape: Tape, n: nat)
    requires 0 < n <= |tape.bars| && BarsIncreasing(tape.bars) && After(p, tape, n).Ok?
    ensures var s := After(p, tape, n).value; s.open.Some? ==> s.open.value.time <= CloseTime(p, tape, n - 1)
  {
    var i := n - 1;
    if i > 0 { OpenedByClose(p, tape, i); }
    var s := After(p, tape, i).value;
    var v := p.update(tape.bars[..i + 1], Ingested(tape.trades, CloseTime(p, tape, i))).value;
    var window := Window(tape.ticks, CloseTime(p, tape, i), WindowEnd(p, tape, i));
    TicksKeepOpen(p, tape.bars[i], v, AtClose(p, tape, i, v, s).value, window);
  }

  lemma {:induction false} TicksKeepOpen<V>(p: Policy<V>, bar: Bar, v: V, s: Sim<V>, window: seq<Tick>)
    ensures var r := OnTicks(p, bar, v, s, window); r.open.Some? ==> r == s
    decreases |window|
  {
    if s.open.Some? && window != [] && p.tickExit(v, s.open.value, bar, window[0]) == None {
      TicksKeepOpen(p, bar, v, s, window[1..]);
    }
  }

  /**
  Every finished replay: Open_k <= Close_k <= Open_{k+1}, record times never decrease, and with a
  positive bar length every entry lies in (tradeFrom, tradeTo].
   */
  lemma OutcomeOrdered<V>(p: Policy<V>, tape: Tape)
    requires BarsIncreasing(tape.bars) && Simple(p, tape).Ok?
    ensures var o := Simple(p, tape).value;
            && TradesOrdered(o.closed) && RecordsOrdered(o.records)
            && forall k :: 0 <= k < |o.closed| ==>
                 && (p.tradeFrom.Some? && p.resolution > 0 ==> p.tradeFrom.value < o.closed[k].entry.time)
                 && (p.tradeTo.Some? ==> o.closed[k].entry.time <= p.tradeTo.value)
  {
    if tape.bars != [] {
      var n := |tape.bars|;
      var s := After(p, tape, n).value;
      TimelineKept(p, tape, n);
      OpenedByClose(p, tape, n);
      if s.open.Some? {
        var x := Exit(tape.bars[n - 1].close, p.forcedReason, true);
        CloseKeepsTime(p, s, Clock(p, tape, n), CloseTime(p, tape, n - 1), x);
        var o := Simple(p, tape).value;
        assert forall k :: 0 <= k < |o.closed| ==> InBounds(p, o.closed[k].entry.time);
      }
    }
  }

  // ---- Tick coverage ------------------------------------------------------------------------

  ghost predicate InWindow<V>(p: Policy<V>, tape: Tape, i: int, time: int)
  {
    0 <= i < |tape.bars| && CloseTime(p, tape, i) < time <= WindowEnd(p, tape, i)
  }

  /** The tick windows of a replay split the time after the first close: every instant is in exactly one. */
  lemma WindowsPartition<V>(p: Policy<V>, tape: Tape, time: int) returns (i: nat)
    requires BarsIncreasing(tape.bars) && tape.bars != []
    requires CloseTime(p, tape, 0) < time <= WindowEnd(p, tape, |tape.bars| - 1)
    ensures InWindow(p, tape, i, time) && forall j | InWindow(p, tape, j, time) :: j == i
  {
    i := 0;
    while WindowEnd(p, tape, i) < time
      invariant i < |tape.bars| && CloseTime(p, tape, i) < time
      decreases |tape.bars| - i
    {
      i := i + 1;
    }
    forall j | InWindow(p, tape, j, time) ensures j == i {
      if j < i { EndsBeforeClose(p, tape, j, i); }
      if i < j { EndsBeforeClose(p, tape, i, j); }
    }
  }

  lemma EndsBeforeClose<V>(p: Policy<V>, tape: Tape, i: nat, j: nat)
    requires BarsIncreasing(tape.bars) && i < j < |tape.bars|
    ensures WindowEnd(p, tape, i) <= CloseTime(p, tape, j)
  {
  }

  // ---- Exits --------------------------------------------------------------------------------

  /** Every way a position can be closed satisfies `good`. */
  ghost predicate ExitsSatisfy<V(!new)>(p: Policy<V>, good: (Position<V>, real, Reason) -> bool)
  {
    && (forall v, pos, bar, covered :: p.barExit(v, pos, bar, covered).Some? ==>
          var x := p.barExit(v, pos, bar, covered).value; good(pos, x.price, x.reason))
    && (forall v, pos, bar, tick :: p.tickExit(v, pos, bar, tick).Some? ==>
          var x := p.tickExit(v, pos, bar, tick).value; good(pos, x.price, x.reason))
    && (forall pos, price :: good(pos, price, p.forcedReason))
  }

  ghost predicate AllGood<V>(closed: seq<ClosedTrade<V>>, good: (Position<V>, real, Reason) -> bool)
  {
    forall c | c in closed ::
      good(c.entry, c.exitPrice, c.reason) && c.pnl == Pnl(c.entry.signal, c.entry.price, c.exitPrice, c.entry.quantity)
  }

  lemma {:induction false} TicksKeepGood<V(!new)>(p: Policy<V>, good: (Position<V>, real, Reason) -> bool,
                                                 bar: Bar, v: V, s: Sim<V>, window: seq<Tick>)
    requires ExitsSatisfy(p, good) && AllGood(s.closed, good)
    ensures AllGood(OnTicks(p, bar, v, s, window).closed, good)
    decreases |window|
  {
    if s.open.Some? && window != [] && p.tickExit(v, s.open.value, bar, window[0]) == None {
      TicksKeepGood(p, good, bar, v, s, window[1..]);
    }
  }

  lemma {:induction false} ExitsGood<V(!new)>(p: Policy<V>, tape: Tape, good: (Position<V>, real, Reason) -> bool, n: nat)
    requires n <= |tape.bars| && ExitsSatisfy(p, good) && After(p, tape, n).Ok?
    ensures AllGood(After(p, tape, n).value.closed, good)
  {
    if n > 0 {
      ExitsGood(p, tape, good, n - 1);
      var s, i := After(p, tape, n - 1).value, n - 1;
      var v := p.update(tape.bars[..i + 1], Ingested(tape.trades, CloseTime(p, tape, i))).value;
      TicksKeepGood(p, good, tape.bars[i], v, AtClose(p, tape, i, v, s).value,
                    Window(tape.ticks, CloseTime(p, tape, i), WindowEnd(p, tape, i)));
    }
  }

  /** What holds of every single exit holds of every closed trade of every replay. */
  lemma OutcomeGood<V(!new)>(p: Policy<V>, tape: Tape, good: (Position<V>, real, Reason) -> bool)
    requires ExitsSatisfy(p, good) && Simple(p, tape).Ok?
    ensures AllGood(Simple(p, tape).value.closed, good)
  {
    ExitsGood(p, tape, good, |tape.bars|);
  }

  /** Closed trades and entries balance: every close records the quantity and price of its own entry. */
  ghost predicate Paired<V>(s: Sim<V>)
  {
    && |s.records| == 2 * |s.closed| + (if s.open.Some? then 1 else 0)
    && (s.open.Some? ==> s.records[|s.records| - 1] == Record(s.open.value))
    && forall k :: 0 <= k < |s.closed| ==>
         && s.records[2 * k] == Record(s.closed[k].entry)
         && s.records[2 * k + 1].time == s.closed[k].closeTime
         && s.records[2 * k + 1].price == s.closed[k].exitPrice
         && s.records[2 * k + 1].quantity == s.closed[k].entry.quantity
  }

  ghost predicate AlwaysRecords<V(!new)>(p: Policy<V>)
  {
    && (forall v, pos, bar, covered :: p.barExit(v, pos, bar, covered).Some? ==>
          p.barExit(v, pos, bar, covered).value.recorded)
    && (forall v, pos, bar, tick :: p.tickExit(v, pos, bar, tick).Some? ==> p.tickExit(v, pos, bar, tick).value.recorded)
  }

  lemma {:induction false} TicksKeepPaired<V(!new)>(p: Policy<V>, bar: Bar, v: V, s: Sim<V>, window: seq<Tick>)
    requires AlwaysRecords(p) && Paired(s)
    ensures Paired(OnTicks(p, bar, v, s, window))
    decreases |window|
  {
    if s.open.Some? && window != [] && p.tickExit(v, s.open.value, bar, window[0]) == None {
      TicksKeepPaired(p, bar, v, s, window[1..]);
    }
  }

  /** A strategy that records its exits leaves exactly one entry row and one exit row per closed trade, in order. */
  lemma {:induction false} RecordsPaired<V(!new)>(p: Policy<V>, tape: Tape, n: nat)
    requires n <= |tape.bars| && AlwaysRecords(p) && After(p, tape, n).Ok?
    ensures Paired(After(p, tape, n).value)
  {
    if n > 0 {
      RecordsPaired(p, tape, n - 1);
      var s, i := After(p, tape, n - 1).value, n - 1;
      var v := p.update(tape.bars[..i + 1], Ingested(tape.trades, CloseTime(p, tape, i))).value;
      TicksKeepPaired(p, tape.bars[i], v, AtClose(p, tape, i, v, s).value,
                      Window(tape.ticks, CloseTime(p, tape, i), WindowEnd(p, tape, i)));
    }
  }

  /** The same for a finished replay, the forced close included. */
  lemma OutcomePaired<V(!new)>(p: Policy<V>, tape: Tape)
    requires AlwaysRecords(p) && Simple(p, tape).Ok?
    ensures var o := Simple(p, tape).value;
            |o.records| == 2 * |o.closed| &&
            forall k :: 0 <= k < |o.closed| ==>
              && o.records[2 * k] == Record(o.closed[k].entry)
              && o.records[2 * k + 1].time == o.closed[k].closeTime
              && o.records[2 * k + 1].price == o.closed[k].exitPrice
              && o.records[2 * k + 1].quantity == o.closed[k].entry.quantity
  {
    RecordsPaired(p, tape, |tape.bars|);
  }

  // ---- Sizing -------------------------------------------------------------------------------

  /** A long entry never spends more than the budget it was given. */
  lemma LongEntryAffordable(balance: real, size: real, price: real)
    requires price > 0.0 && size <= 1.0 && balance >= 0.0
    ensures AfterEntry(balance, Buy, price, WholeBonds(balance, size, price)) >= 0.0
  {
    var budget := balance * size;
    assert budget <= balance;
    assert (budget / price).Floor as real * price <= budget;
  }

  /** The number of bonds is positive iff the budget buys at least one, and negative iff the budget is negative. */
  lemma EntrySign(balance: real, size: real, price: real)
    requires price > 0.0
    ensures WholeBonds(balance, size, price) > 0.0 <==> balance * size >= price
    ensures WholeBonds(balance, size, price) < 0.0 <==> balance * size < 0.0
  {
    var budget := balance * size;
    assert budget / price >= 1.0 <==> budget >= price;
    assert budget / price < 0.0 <==> budget < 0.0;
  }
}
