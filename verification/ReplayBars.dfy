/** What one bar of a replay does, in terms of its decision, its ticks and the two states alone. */
module ReplayBars {
  import opened Prelude
  import opened Replay

  // ---- Windows and tapes --------------------------------------------------------------------

  /** A window has exactly the ticks of its time span. */
  lemma {:induction false} WindowIff(ticks: seq<Tick>, from: int, to: int, tick: Tick)
    ensures tick in Window(ticks, from, to) <==> tick in ticks && from < tick.time <= to
  {
    if ticks != [] {
      var n := |ticks| - 1;
      WindowIff(ticks[..n], from, to, tick);
      assert ticks == ticks[..n] + [ticks[n]];
    }
  }

  lemma {:induction false} WindowIs(ticks: seq<Tick>, from: int, to: int, i: nat, j: nat)
    requires i <= j <= |ticks| && forall k :: 0 <= k < |ticks| ==> (from < ticks[k].time <= to <==> i <= k < j)
    ensures Window(ticks, from, to) == ticks[i..j]
  {
    if ticks != [] {
      var n := |ticks| - 1;
      WindowIs(ticks[..n], from, to, if i < n then i else n, if j < n then j else n);
      if i <= n < j { assert ticks[..n][i..n] + [ticks[n]] == ticks[i..j]; }
    }
  }

  lemma FirstAfter(ticks: seq<Tick>, t: int, lo: nat) returns (i: nat)
    requires TicksSorted(ticks) && lo <= |ticks| && forall k :: 0 <= k < lo ==> ticks[k].time <= t
    ensures lo <= i <= |ticks| && (forall k :: 0 <= k < i ==> ticks[k].time <= t) && (forall k :: i <= k < |ticks| ==> ticks[k].time > t)
  {
    i := lo;
    while i < |ticks| && ticks[i].time <= t
      invariant lo <= i <= |ticks| && forall k :: 0 <= k < i ==> ticks[k].time <= t
    {
      i := i + 1;
    }
  }

  /** On a sorted tape it is one unbroken stretch of it: everything before is too early, everything after too late. */
  lemma WindowIsStretch(ticks: seq<Tick>, from: int, to: int) returns (i: nat, j: nat)
    requires TicksSorted(ticks) && from <= to
    ensures i <= j <= |ticks| && Window(ticks, from, to) == ticks[i..j]
    ensures (forall k :: 0 <= k < i ==> ticks[k].time <= from) && (forall k :: j <= k < |ticks| ==> ticks[k].time > to)
  {
    i := FirstAfter(ticks, from, 0);
    j := FirstAfter(ticks, to, i);
    WindowIs(ticks, from, to, i, j);
  }

  /** The trades ingested by a cutoff are exactly those up to it, in order. */
  lemma {:induction false} IngestedIsPrefix(trades: seq<MarketTrade>, cutoff: int) returns (n: nat)
    requires TradesSorted(trades)
    ensures n <= |trades| && Ingested(trades, cutoff) == trades[..n]
    ensures (forall k :: 0 <= k < n ==> trades[k].time <= cutoff) && (forall k :: n <= k < |trades| ==> trades[k].time > cutoff)
  {
    if trades == [] {
      n := 0;
    } else {
      var m := |trades| - 1;
      n := IngestedIsPrefix(trades[..m], cutoff);
      if trades[m].time <= cutoff {
        assert m > 0 ==> trades[m - 1].time <= trades[m].time;
        n := m + 1;
      }
    }
  }

  /** Bar i counts as covered exactly when some tick lies after the previous close and up to its own. */
  lemma CoveredIff<V>(p: Policy<V>, tape: Tape, i: nat)
    requires i < |tape.bars|
    ensures Covered(p, tape, i) <==>
            i > 0 && exists tick | tick in tape.ticks ::
                       tape.bars[i - 1].time + p.resolution < tick.time <= tape.bars[i].time + p.resolution
  {
    if i > 0 {
      var from, to := tape.bars[i - 1].time + p.resolution, tape.bars[i].time + p.resolution;
      var window := Window(tape.ticks, from, to);
      if window != [] {
        assert window[0] in window;
        WindowIff(tape.ticks, from, to, window[0]);
      }
      forall tick | tick in tape.ticks && from < tick.time <= to ensures window != [] { WindowIff(tape.ticks, from, to, tick); }
    }
  }

  // ---- Bars ---------------------------------------------------------------------------------

  /** The decision after bar i, if there is one. */
  function DecisionAt<V>(p: Policy<V>, tape: Tape, i: nat): Result<V>
    requires i < |tape.bars|
  {
    p.update(tape.bars[..i + 1], Ingested(tape.trades, tape.bars[i].time + p.resolution))
  }

  /** The ticks replayed after bar i. */
  function TicksAfter<V>(p: Policy<V>, tape: Tape, i: nat): seq<Tick>
    requires i < |tape.bars|
  {
    Window(tape.ticks, tape.bars[i].time + p.resolution,
           if i + 1 < |tape.bars| then tape.bars[i + 1].time + p.resolution else tape.bars[i].time + 2 * p.resolution)
  }

  /** From m, the state after bar i's close decision, r is the state its ticks leave. */
  ghost predicate TicksApplied<V>(p: Policy<V>, tape: Tape, i: nat, v: V, m: Sim<V>, r: Sim<V>)
    requires i < |tape.bars|
  {
    var window := TicksAfter(p, tape, i);
    if m.open == None || Quiet(p, v, m.open.value, tape.bars[i], window, |window|) then r == m
    else exists k :: ClosedByTick(p, v, tape.bars[i], m, r, window, k)
  }

  /** The bar may open: a signal the strategy allows, from TradeFrom on, closing by TradeTo. */
  predicate Wants<V>(p: Policy<V>, tape: Tape, i: nat, v: V)
    requires i < |tape.bars|
  {
    && p.signal(v) != Hold && p.allows(v)
    && (p.tradeFrom == None || p.tradeFrom.value <= tape.bars[i].time)
    && (p.tradeTo == None || tape.bars[i].time + p.resolution <= p.tradeTo.value)
  }

  /** How many bonds the budget is worth at a price. */
  function Worth(balance: real, size: real, price: real): real
    requires price != 0.0
  {
    balance * size / price
  }

  /** q is x rounded down to a whole number. */
  predicate WholePart(q: real, x: real)
  {
    q == q.Floor as real && q <= x < q + 1.0
  }

  /** m is s with a position opened at bar i's close, paid for or received for. */
  ghost predicate OpenedFrom<V>(p: Policy<V>, tape: Tape, i: nat, v: V, s: Sim<V>, m: Sim<V>)
    requires i < |tape.bars|
  {
    && m.open.Some? && m.closed == s.closed
    && var pos := m.open.value;
       && pos.time == tape.bars[i].time + p.resolution && pos.signal == p.signal(v) && pos.price == tape.bars[i].close
       && pos.view == v && pos.entryBalance == s.balance
       && pos.price != 0.0 && pos.quantity != 0.0 && WholePart(pos.quantity, Worth(s.balance, p.size(v), pos.price))
       && m.balance == s.balance - Flow(pos.signal, pos.price, pos.quantity)
       && m.records == s.records + [TradeRecord(pos.time, pos.signal, pos.price, pos.quantity, s.balance)]
  }

  lemma FloorBuys(balance: real, size: real, price: real)
    requires price != 0.0
    ensures var quantity := WholeBonds(balance, size, price);
            && WholePart(quantity, Worth(balance, size, price))
            && (quantity == 0.0 <==> 0.0 <= Worth(balance, size, price) < 1.0)
  {
    var n := (balance * size / price).Floor;
    assert n as real <= Worth(balance, size, price) < n as real + 1.0;
  }

  lemma Enters<V>(p: Policy<V>, tape: Tape, i: nat, v: V, s: Sim<V>)
    requires i < |tape.bars| && tape.bars[i].close != 0.0
    ensures var m := Enter(p, tape, i, v, s);
            if 0.0 <= Worth(s.balance, p.size(v), tape.bars[i].close) < 1.0 then m == Ok(s)
            else m.Ok? && OpenedFrom(p, tape, i, v, s, m.value)
  {
    FloorBuys(s.balance, p.size(v), tape.bars[i].close);
    hide WholeBonds, Worth, WholePart;
  }

  /** From flat, the close decision fails on a zero price, and opens iff the budget is not worth a fraction of one bond. */
  lemma FlatClose<V>(p: Policy<V>, tape: Tape, i: nat, v: V, s: Sim<V>)
    requires i < |tape.bars| && s.open == None
    ensures AtClose(p, tape, i, v, s).Ok? <==> (Wants(p, tape, i, v) ==> tape.bars[i].close != 0.0)
    ensures AtClose(p, tape, i, v, s).Ok? ==>
              var m := AtClose(p, tape, i, v, s).value;
              if Wants(p, tape, i, v) && !(0.0 <= Worth(s.balance, p.size(v), tape.bars[i].close) < 1.0)
              then OpenedFrom(p, tape, i, v, s, m) else m == s
  {
    assert Wants(p, tape, i, v) == MayEnter(p, tape, i, v);
    hide Wants, MayEnter, Worth;
    if Wants(p, tape, i, v) && tape.bars[i].close != 0.0 { Enters(p, tape, i, v, s); }
    hide OpenedFrom;
  }

  lemma TicksDecide<V>(p: Policy<V>, tape: Tape, i: nat, v: V, m: Sim<V>, r: Sim<V>)
    requires i < |tape.bars| && r == OnTicks(p, tape.bars[i], v, m, TicksAfter(p, tape, i))
    ensures TicksApplied(p, tape, i, v, m, r)
  {
    if m.open.Some? { FirstExitCloses(p, v, tape.bars[i], m, TicksAfter(p, tape, i), r); }
  }

  /** One bar: its decision, its close decision, its ticks. */
  lemma Steps<V>(p: Policy<V>, tape: Tape, i: nat, s: Sim<V>)
    requires i < |tape.bars| && After(p, tape, i) == Ok(s)
    ensures After(p, tape, i + 1).Ok? <==> DecisionAt(p, tape, i).Ok? && AtClose(p, tape, i, DecisionAt(p, tape, i).value, s).Ok?
    ensures After(p, tape, i + 1).Ok? ==>
              var v := DecisionAt(p, tape, i).value;
              TicksApplied(p, tape, i, v, AtClose(p, tape, i, v, s).value, After(p, tape, i + 1).value)
  {
    if After(p, tape, i + 1).Ok? {
      var v := DecisionAt(p, tape, i).value;
      TicksDecide(p, tape, i, v, AtClose(p, tape, i, v, s).value, After(p, tape, i + 1).value);
    }
  }

  /**
  A bar that starts with an open position: the bar exit, told whether ticks covered the bar, closes it at the bar's
  close time; otherwise its ticks decide.
   */
  lemma HeldBar<V>(p: Policy<V>, tape: Tape, i: nat, s: Sim<V>)
    requires i < |tape.bars| && After(p, tape, i) == Ok(s) && s.open.Some?
    ensures After(p, tape, i + 1).Ok? <==> DecisionAt(p, tape, i).Ok?
    ensures After(p, tape, i + 1).Ok? ==>
              var v, r := DecisionAt(p, tape, i).value, After(p, tape, i + 1).value;
              match p.barExit(v, s.open.value, tape.bars[i], Covered(p, tape, i))
              case Some(x) => ClosedFrom(s, r, tape.bars[i].time + p.resolution, x)
              case None => TicksApplied(p, tape, i, v, s, r)
  {
    Steps(p, tape, i, s);
    if DecisionAt(p, tape, i).Ok? {
      var exit := p.barExit(DecisionAt(p, tape, i).value, s.open.value, tape.bars[i], Covered(p, tape, i));
      if exit.Some? { CloseIsClosedFrom(s, tape.bars[i].time + p.resolution, exit.value); }
    }
  }

  lemma FlatTicks<V>(p: Policy<V>, tape: Tape, i: nat, v: V, s: Sim<V>, m: Sim<V>, r: Sim<V>)
    requires i < |tape.bars| && s.open == None && TicksApplied(p, tape, i, v, m, r)
    ensures m == s ==> r == s
  {
  }

  /**
  A bar that starts flat: an error iff the update fails or it wants to open at a zero price; otherwise it opens iff
  it wants to and the budget is not worth a fraction of one bond, and its ticks decide from there.
   */
  lemma FlatBar<V>(p: Policy<V>, tape: Tape, i: nat, s: Sim<V>)
    requires i < |tape.bars| && After(p, tape, i) == Ok(s) && s.open == None
    ensures After(p, tape, i + 1).Ok? <==>
              DecisionAt(p, tape, i).Ok? && (Wants(p, tape, i, DecisionAt(p, tape, i).value) ==> tape.bars[i].close != 0.0)
    ensures After(p, tape, i + 1).Ok? ==>
              var v, r := DecisionAt(p, tape, i).value, After(p, tape, i + 1).value;
              if Wants(p, tape, i, v) && !(0.0 <= Worth(s.balance, p.size(v), tape.bars[i].close) < 1.0)
              then exists m :: OpenedFrom(p, tape, i, v, s, m) && TicksApplied(p, tape, i, v, m, r)
              else r == s
  {
    hide Wants, OpenedFrom, AtClose, After, DecisionAt, TicksApplied, Worth;
    Steps(p, tape, i, s);
    if DecisionAt(p, tape, i).Ok? {
      var v := DecisionAt(p, tape, i).value;
      FlatClose(p, tape, i, v, s);
      if After(p, tape, i + 1).Ok? {
        var m, r := AtClose(p, tape, i, v, s).value, After(p, tape, i + 1).value;
        FlatTicks(p, tape, i, v, s, m, r);
        assert TicksApplied(p, tape, i, v, m, r);
      }
    }
  }

  /** A position still open after bar i was exited by no tick in its window. */
  lemma StillOpen<V>(p: Policy<V>, tape: Tape, i: nat, tick: Tick)
    requires i < |tape.bars| && After(p, tape, i + 1).Ok? && After(p, tape, i + 1).value.open.Some?
    requires tick in tape.ticks && tape.bars[i].time + p.resolution < tick.time
    requires tick.time <= if i + 1 < |tape.bars| then tape.bars[i + 1].time + p.resolution else tape.bars[i].time + 2 * p.resolution
    ensures DecisionAt(p, tape, i).Ok?
    ensures p.tickExit(DecisionAt(p, tape, i).value, After(p, tape, i + 1).value.open.value, tape.bars[i], tick) == None
  {
    var s, r := After(p, tape, i).value, After(p, tape, i + 1).value;
    Steps(p, tape, i, s);
    var v, window := DecisionAt(p, tape, i).value, TicksAfter(p, tape, i);
    StaysQuiet(p, tape, i, v, AtClose(p, tape, i, v, s).value, r);
    WindowIff(tape.ticks, tape.bars[i].time + p.resolution,
              if i + 1 < |tape.bars| then tape.bars[i + 1].time + p.resolution else tape.bars[i].time + 2 * p.resolution, tick);
    var k :| 0 <= k < |window| && window[k] == tick;
  }

  lemma StaysQuiet<V>(p: Policy<V>, tape: Tape, i: nat, v: V, m: Sim<V>, r: Sim<V>)
    requires i < |tape.bars| && TicksApplied(p, tape, i, v, m, r) && r.open.Some?
    ensures r == m && Quiet(p, v, r.open.value, tape.bars[i], TicksAfter(p, tape, i), |TicksAfter(p, tape, i)|)
  {
  }

  /** The end: a position left open is closed for good at the last bar's close, with the forced reason. */
  lemma EndCloses<V>(p: Policy<V>, tape: Tape)
    ensures Simple(p, tape).Ok? <==> After(p, tape, |tape.bars|).Ok?
    ensures Simple(p, tape).Ok? ==>
              var s, o := After(p, tape, |tape.bars|).value, Simple(p, tape).value;
              match s.open
              case None => o == Outcome(s.closed, s.records)
              case Some(pos) =>
                tape.bars != [] &&
                var last := tape.bars[|tape.bars| - 1];
                var at := last.time + p.resolution;
                && o.closed == s.closed + [ClosedTrade(pos, at, last.close, Gain(pos, last.close), p.forcedReason)]
                && o.records == s.records + [TradeRecord(at, pos.signal, last.close, pos.quantity, 0.0)]
  {
    if After(p, tape, |tape.bars|).Ok? && tape.bars != [] {
      var s, last := After(p, tape, |tape.bars|).value, tape.bars[|tape.bars| - 1];
      if s.open.Some? { CloseIsClosedFrom(s, last.time + p.resolution, Exit(last.close, p.forcedReason, true)); }
    }
  }

  /** Cash in numbers: flat it is the capital and all gains; a long has paid its cost, a short has received it. */
  lemma CashInNumbers<V>(p: Policy<V>, tape: Tape, n: nat)
    requires n <= |tape.bars| && After(p, tape, n).Ok?
    ensures var s := After(p, tape, n).value;
            s.balance == p.capital + TotalGain(s.closed)
                         - (if s.open == None then 0.0 else Flow(s.open.value.signal, s.open.value.price, s.open.value.quantity))
    ensures forall c | c in After(p, tape, n).value.closed :: c.pnl == Gain(c.entry, c.exitPrice)
  {
    NumbersKept(p, tape, n);
  }

  function TotalGain<V>(closed: seq<ClosedTrade<V>>): real
  {
    if closed == [] then 0.0
    else TotalGain(closed[..|closed| - 1]) + Gain(closed[|closed| - 1].entry, closed[|closed| - 1].exitPrice)
  }

  lemma GainFlow<V>(pos: Position<V>, exit: real)
    ensures Gain(pos, exit) == Flow(pos.signal, exit, pos.quantity) - Flow(pos.signal, pos.price, pos.quantity)
  {
    assert (exit - pos.price) * pos.quantity == exit * pos.quantity - pos.price * pos.quantity;
    assert (pos.price - exit) * pos.quantity == pos.price * pos.quantity - exit * pos.quantity;
  }

  ghost predicate Numbers<V>(capital: real, s: Sim<V>)
  {
    && s.balance == capital + TotalGain(s.closed)
                    - (if s.open == None then 0.0 else Flow(s.open.value.signal, s.open.value.price, s.open.value.quantity))
    && forall c | c in s.closed :: c.pnl == Gain(c.entry, c.exitPrice)
  }

  lemma CloseKeepsNumbers<V>(capital: real, s: Sim<V>, r: Sim<V>, at: int, x: Exit)
    requires Numbers(capital, s) && ClosedFrom(s, r, at, x)
    ensures Numbers(capital, r)
  {
    GainFlow(s.open.value, x.price);
    hide Gain, Flow;
    assert r.closed[..|s.closed|] == s.closed;
  }

  lemma TicksKeepNumbers<V>(p: Policy<V>, tape: Tape, i: nat, v: V, m: Sim<V>, r: Sim<V>)
    requires i < |tape.bars| && Numbers(p.capital, m) && TicksApplied(p, tape, i, v, m, r)
    ensures Numbers(p.capital, r)
  {
    if r != m {
      var k :| ClosedByTick(p, v, tape.bars[i], m, r, TicksAfter(p, tape, i), k);
      var tick := TicksAfter(p, tape, i)[k];
      CloseKeepsNumbers(p.capital, m, r, tick.time, p.tickExit(v, m.open.value, tape.bars[i], tick).value);
    }
  }

  lemma HeldKeepsNumbers<V>(p: Policy<V>, tape: Tape, i: nat, s: Sim<V>)
    requires i < |tape.bars| && After(p, tape, i) == Ok(s) && After(p, tape, i + 1).Ok? && s.open.Some? && Numbers(p.capital, s)
    ensures Numbers(p.capital, After(p, tape, i + 1).value)
  {
    hide After, Numbers, ClosedFrom, TicksApplied;
    HeldBar(p, tape, i, s);
    var v, r := DecisionAt(p, tape, i).value, After(p, tape, i + 1).value;
    match p.barExit(v, s.open.value, tape.bars[i], Covered(p, tape, i))
    case Some(x) => CloseKeepsNumbers(p.capital, s, r, tape.bars[i].time + p.resolution, x);
    case None => TicksKeepNumbers(p, tape, i, v, s, r);
  }

  lemma OpenKeepsNumbers<V>(p: Policy<V>, tape: Tape, i: nat, v: V, s: Sim<V>, m: Sim<V>)
    requires i < |tape.bars| && s.open == None && OpenedFrom(p, tape, i, v, s, m) && Numbers(p.capital, s)
    ensures Numbers(p.capital, m)
  {
    hide Worth, WholePart;
  }

  lemma FlatKeepsNumbers<V>(p: Policy<V>, tape: Tape, i: nat, s: Sim<V>)
    requires i < |tape.bars| && After(p, tape, i) == Ok(s) && After(p, tape, i + 1).Ok? && s.open == None && Numbers(p.capital, s)
    ensures Numbers(p.capital, After(p, tape, i + 1).value)
  {
    hide After, Numbers, OpenedFrom, TicksApplied, Worth, Wants;
    FlatBar(p, tape, i, s);
    var v, r := DecisionAt(p, tape, i).value, After(p, tape, i + 1).value;
    if r != s {
      var m :| OpenedFrom(p, tape, i, v, s, m) && TicksApplied(p, tape, i, v, m, r);
      OpenKeepsNumbers(p, tape, i, v, s, m);
      TicksKeepNumbers(p, tape, i, v, m, r);
    }
  }

  lemma {:induction false} NumbersKept<V>(p: Policy<V>, tape: Tape, n: nat)
    requires n <= |tape.bars| && After(p, tape, n).Ok?
    ensures Numbers(p.capital, After(p, tape, n).value)
  {
    if n > 0 {
      var i := n - 1;
      NumbersKept(p, tape, i);
      var s := After(p, tape, i).value;
      hide After, Numbers;
      if s.open.Some? { HeldKeepsNumbers(p, tape, i, s); } else { FlatKeepsNumbers(p, tape, i, s); }
    }
  }
}
