/**
The backtest replay loop that the breakout and mean-reversion backtesters share: bars, market trades
and price ticks merged with lazy cursors, one open position at a time. A strategy is a parameter.

`Simple` says what a replay means with no cursor and no flag; `Run` is the loop as written.
 */
module Replay {
  import opened Prelude

  datatype Signal = Hold | Buy | Sell

  /** `time` is the bar's start. */
  datatype Bar = Bar(time: int, open: real, high: real, low: real, close: real,
                     highYTM: real, lowYTM: real, benchmark: real)

  datatype Tick = Tick(time: int, price: real, ytm: Option<real>)

  datatype MarketTrade = MarketTrade(time: int, price: real, quantity: real, side: string)

  /** An entry record, with what the strategy knew (`view`) when the position was opened. */
  datatype Position<V> = Position(time: int, signal: Signal, price: real, quantity: real, entryBalance: real, view: V)

  datatype Reason = StopLoss | TakeProfit | Reversal | StrategyExit | ForceClose

  /** `recorded` says whether the exit also appends a trade record. */
  datatype Exit = Exit(price: real, reason: Reason, recorded: bool)

  datatype TradeRecord = TradeRecord(time: int, signal: Signal, price: real, quantity: real, entryBalance: real)

  /** A closed trade keeps its whole entry. */
  datatype ClosedTrade<V> = ClosedTrade(entry: Position<V>, closeTime: int, exitPrice: real, pnl: real, reason: Reason)

  /**
  A strategy over its own view type: `update` is its decision after a history of closed bars and
  ingested trades, and may fail. Exits may depend on the view, the position and one bar or tick;
  `barExit` is told whether ticks already covered the bar.
   */
  datatype Policy<!V> = Policy(
    capital: real,
    resolution: nat,
    tradeFrom: Option<int>,
    tradeTo: Option<int>,
    update: (seq<Bar>, seq<MarketTrade>) -> Result<V>,
    signal: V -> Signal,
    size: V -> real,
    allows: V -> bool,
    barExit: (V, Position<V>, Bar, bool) -> Option<Exit>,
    tickExit: (V, Position<V>, Bar, Tick) -> Option<Exit>,
    forcedReason: Reason)

  datatype Tape = Tape(bars: seq<Bar>, trades: seq<MarketTrade>, ticks: seq<Tick>)

  datatype Sim<V> = Sim(balance: real, open: Option<Position<V>>, closed: seq<ClosedTrade<V>>, records: seq<TradeRecord>)

  datatype Outcome<V> = Outcome(closed: seq<ClosedTrade<V>>, records: seq<TradeRecord>)

  // ---- Cash flows ---------------------------------------------------------------------------

  function Pnl(signal: Signal, entryPrice: real, exitPrice: real, quantity: real): real
  {
    match signal
    case Buy => exitPrice * quantity - entryPrice * quantity
    case Sell => entryPrice * quantity - exitPrice * quantity
    case Hold => 0.0
  }

  /** Cash after paying for a long entry, or receiving for a short one. */
  function AfterEntry(balance: real, signal: Signal, price: real, quantity: real): real
  {
    match signal
    case Buy => balance - price * quantity
    case Sell => balance + price * quantity
    case Hold => balance
  }

  function AfterExit(balance: real, signal: Signal, price: real, quantity: real): real
  {
    match signal
    case Buy => balance + price * quantity
    case Sell => balance - price * quantity
    case Hold => balance
  }

  function Record<V>(pos: Position<V>): TradeRecord
  {
    TradeRecord(pos.time, pos.signal, pos.price, pos.quantity, pos.entryBalance)
  }

  function Closed<V>(pos: Position<V>, at: int, x: Exit): ClosedTrade<V>
  {
    ClosedTrade(pos, at, x.price, Pnl(pos.signal, pos.price, x.price, pos.quantity), x.reason)
  }

  function CloseAt<V>(s: Sim<V>, at: int, x: Exit): Sim<V>
    requires s.open.Some?
  {
    var pos := s.open.value;
    Sim(AfterExit(s.balance, pos.signal, x.price, pos.quantity), None,
        s.closed + [Closed(pos, at, x)],
        if x.recorded then s.records + [TradeRecord(at, pos.signal, x.price, pos.quantity, 0.0)] else s.records)
  }

  // ---- The meaning of a replay --------------------------------------------------------------

  function CloseTime<V>(p: Policy<V>, tape: Tape, i: nat): int
    requires i < |tape.bars|
  {
    tape.bars[i].time + p.resolution
  }

  /** The end of the tick window after bar i: the next close, or one more bar length after the last. */
  function WindowEnd<V>(p: Policy<V>, tape: Tape, i: nat): int
    requires i < |tape.bars|
  {
    if i + 1 < |tape.bars| then CloseTime(p, tape, i + 1) else tape.bars[i].time + 2 * p.resolution
  }

  /** The ticks with from < time <= to. */
  function Window(ticks: seq<Tick>, from: int, to: int): seq<Tick>
  {
    if ticks == [] then []
    else
      var rest, t := Window(ticks[..|ticks| - 1], from, to), ticks[|ticks| - 1];
      if from < t.time <= to then rest + [t] else rest
  }

  /** The trades with time <= cutoff. */
  function Ingested(trades: seq<MarketTrade>, cutoff: int): seq<MarketTrade>
  {
    if trades == [] then []
    else
      var rest, t := Ingested(trades[..|trades| - 1], cutoff), trades[|trades| - 1];
      if t.time <= cutoff then rest + [t] else rest
  }

  /** Ticks cover bar i: some tick lies in (close of bar i-1, close of bar i]. */
  predicate Covered<V>(p: Policy<V>, tape: Tape, i: nat)
    requires i < |tape.bars|
  {
    i > 0 && Window(tape.ticks, CloseTime(p, tape, i - 1), CloseTime(p, tape, i)) != []
  }

  predicate MayEnter<V>(p: Policy<V>, tape: Tape, i: nat, v: V)
    requires i < |tape.bars|
  {
    && p.signal(v) != Hold
    && p.allows(v)
    && (p.tradeFrom.Some? ==> tape.bars[i].time >= p.tradeFrom.value)
    && (p.tradeTo.Some? ==> CloseTime(p, tape, i) <= p.tradeTo.value)
  }

  function WholeBonds(balance: real, size: real, price: real): real
    requires price != 0.0
  {
    (balance * size / price).Floor as real
  }

  /** Opens at the bar's close with the whole bonds the budget buys; a zero price is an error, zero bonds a skip. */
  function Enter<V>(p: Policy<V>, tape: Tape, i: nat, v: V, s: Sim<V>): Result<Sim<V>>
    requires i < |tape.bars|
  {
    var price := tape.bars[i].close;
    if price == 0.0 then Err
    else
      var quantity := WholeBonds(s.balance, p.size(v), price);
      if quantity == 0.0 then Ok(s)
      else
        var pos := Position(CloseTime(p, tape, i), p.signal(v), price, quantity, s.balance, v);
        Ok(Sim(AfterEntry(s.balance, pos.signal, price, quantity), Some(pos), s.closed, s.records + [Record(pos)]))
  }

  /** Bar i's close decision: leave an open position, or enter from flat. Never both. */
  function AtClose<V>(p: Policy<V>, tape: Tape, i: nat, v: V, s: Sim<V>): Result<Sim<V>>
    requires i < |tape.bars|
  {
    if s.open.Some? then
      match p.barExit(v, s.open.value, tape.bars[i], Covered(p, tape, i))
      case Some(x) => Ok(CloseAt(s, CloseTime(p, tape, i), x))
      case None => Ok(s)
    else if MayEnter(p, tape, i, v) then Enter(p, tape, i, v, s)
    else Ok(s)
  }

  /** The first tick of a window that exits, if any, closes the position at its own time. */
  function OnTicks<V>(p: Policy<V>, bar: Bar, v: V, s: Sim<V>, window: seq<Tick>): Sim<V>
    decreases |window|
  {
    if s.open == None || window == [] then s
    else
      match p.tickExit(v, s.open.value, bar, window[0])
      case Some(x) => CloseAt(s, window[0].time, x)
      case None => OnTicks(p, bar, v, s, window[1..])
  }

  function Bar1<V>(p: Policy<V>, tape: Tape, i: nat, s: Sim<V>): Result<Sim<V>>
    requires i < |tape.bars|
  {
    match p.update(tape.bars[..i + 1], Ingested(tape.trades, CloseTime(p, tape, i)))
    case Err => Err
    case Ok(v) =>
      match AtClose(p, tape, i, v, s)
      case Err => Err
      case Ok(m) =>
        Ok(OnTicks(p, tape.bars[i], v, m, Window(tape.ticks, CloseTime(p, tape, i), WindowEnd(p, tape, i))))
  }

  /** The state after the first n bars. */
  function After<V>(p: Policy<V>, tape: Tape, n: nat): Result<Sim<V>>
    requires n <= |tape.bars|
  {
    if n == 0 then Ok(Sim(p.capital, None, [], []))
    else
      match After(p, tape, n - 1)
      case Err => Err
      case Ok(s) => Bar1(p, tape, n - 1, s)
  }

  /** A position left at the end is closed at the last bar's close price and time. */
  function Finish<V>(p: Policy<V>, tape: Tape, s: Sim<V>): Outcome<V>
  {
    if s.open == None || tape.bars == [] then Outcome(s.closed, s.records)
    else
      var n := |tape.bars| - 1;
      var done := CloseAt(s, CloseTime(p, tape, n), Exit(tape.bars[n].close, p.forcedReason, true));
      Outcome(done.closed, done.records)
  }

  function Simple<V>(p: Policy<V>, tape: Tape): Result<Outcome<V>>
  {
    match After(p, tape, |tape.bars|)
    case Err => Err
    case Ok(s) => Ok(Finish(p, tape, s))
  }

  // ---- What ticks do, in numbers ------------------------------------------------------------

  /** The state after closing the open position at a time, for an exit's price and reason. */
  ghost predicate ClosedFrom<V>(s: Sim<V>, r: Sim<V>, at: int, x: Exit)
  {
    && s.open.Some? && r.open == None
    && var pos := s.open.value;
       && r.closed == s.closed + [ClosedTrade(pos, at, x.price, Gain(pos, x.price), x.reason)]
       && r.balance == s.balance + Flow(pos.signal, x.price, pos.quantity)
       && r.records == if x.recorded then s.records + [TradeRecord(at, pos.signal, x.price, pos.quantity, 0.0)] else s.records
  }

  /** A long gains what the price rises, a short what it falls. */
  function Gain<V>(pos: Position<V>, exit: real): real
  {
    if pos.signal == Buy then (exit - pos.price) * pos.quantity
    else if pos.signal == Sell then (pos.price - exit) * pos.quantity
    else 0.0
  }

  /** Closing a long sells its quantity, closing a short buys it back. */
  function Flow(signal: Signal, price: real, quantity: real): real
  {
    if signal == Buy then price * quantity else if signal == Sell then -(price * quantity) else 0.0
  }

  lemma CloseIsClosedFrom<V>(s: Sim<V>, at: int, x: Exit)
    requires s.open.Some?
    ensures ClosedFrom(s, CloseAt(s, at, x), at, x)
  {
    GainIsPnl(s.open.value, x.price);
    hide Gain, Pnl;
  }

  lemma GainIsPnl<V>(pos: Position<V>, exit: real)
    ensures Gain(pos, exit) == Pnl(pos.signal, pos.price, exit, pos.quantity)
  {
    Distribute(exit, pos.price, pos.quantity);
    Distribute(pos.price, exit, pos.quantity);
  }

  lemma Distribute(a: real, b: real, q: real)
    ensures (a - b) * q == a * q - b * q
  {
  }

  /** None of the first n ticks of the window exits the position. */
  ghost predicate Quiet<V>(p: Policy<V>, v: V, pos: Position<V>, bar: Bar, window: seq<Tick>, n: int)
    requires n <= |window|
  {
    forall k :: 0 <= k < n ==> p.tickExit(v, pos, bar, window[k]) == None
  }

  /** Tick k is the first that exits the position, and r is the state closed by it, at its time. */
  ghost predicate ClosedByTick<V>(p: Policy<V>, v: V, bar: Bar, s: Sim<V>, r: Sim<V>, window: seq<Tick>, k: int)
  {
    && 0 <= k < |window| && s.open.Some? && Quiet(p, v, s.open.value, bar, window, k)
    && var x := p.tickExit(v, s.open.value, bar, window[k]);
       x.Some? && ClosedFrom(s, r, window[k].time, x.value)
  }

  lemma QuietShift<V>(p: Policy<V>, v: V, pos: Position<V>, bar: Bar, window: seq<Tick>, n: nat)
    requires n < |window| && p.tickExit(v, pos, bar, window[0]) == None
    ensures Quiet(p, v, pos, bar, window[1..], n) <==> Quiet(p, v, pos, bar, window, n + 1)
  {
    var rest := window[1..];
    if Quiet(p, v, pos, bar, rest, n) {
      forall k | 0 <= k < n + 1 ensures p.tickExit(v, pos, bar, window[k]) == None {
        if k > 0 { assert window[k] == rest[k - 1]; }
      }
    }
    if Quiet(p, v, pos, bar, window, n + 1) {
      forall k | 0 <= k < n ensures p.tickExit(v, pos, bar, rest[k]) == None { assert rest[k] == window[k + 1]; }
    }
  }

  /** Over a window an open position either survives every tick unchanged or is closed by the first that exits it. */
  lemma {:induction false} FirstExitCloses<V>(p: Policy<V>, v: V, bar: Bar, s: Sim<V>, window: seq<Tick>, r: Sim<V>)
    requires s.open.Some? && r == OnTicks(p, bar, v, s, window)
    ensures if Quiet(p, v, s.open.value, bar, window, |window|) then r == s
            else exists k :: ClosedByTick(p, v, bar, s, r, window, k)
    decreases |window|
  {
    if window != [] {
      var pos := s.open.value;
      match p.tickExit(v, pos, bar, window[0])
      case Some(x) =>
        CloseIsClosedFrom(s, window[0].time, x);
        assert ClosedByTick(p, v, bar, s, r, window, 0);
      case None =>
        var rest := window[1..];
        FirstExitCloses(p, v, bar, s, rest, r);
        QuietShift(p, v, pos, bar, window, |rest|);
        assert |rest| + 1 == |window|;
        if !Quiet(p, v, pos, bar, rest, |rest|) {
          var k :| ClosedByTick(p, v, bar, s, r, rest, k);
          QuietShift(p, v, pos, bar, window, k);
          assert window[k + 1] == rest[k];
          assert ClosedByTick(p, v, bar, s, r, window, k + 1);
        }
    }
  }

  // ---- The loop -----------------------------------------------------------------------------

  ghost predicate TicksSorted(ticks: seq<Tick>)
  {
    forall i, j :: 0 <= i < j < |ticks| ==> ticks[i].time <= ticks[j].time
  }

  ghost predicate TradesSorted(trades: seq<MarketTrade>)
  {
    forall i, j :: 0 <= i < j < |trades| ==> trades[i].time <= trades[j].time
  }

  ghost predicate BarsIncreasing(bars: seq<Bar>)
  {
    forall i, j :: 0 <= i < j < |bars| ==> bars[i].time < bars[j].time
  }

  ghost predicate Ordered(tape: Tape)
  {
    BarsIncreasing(tape.bars) && TradesSorted(tape.trades) && TicksSorted(tape.ticks)
  }

  lemma WindowSnoc(ticks: seq<Tick>, k: nat, from: int, to: int)
    requires k < |ticks|
    ensures Window(ticks[..k + 1], from, to) ==
            if from < ticks[k].time <= to then Window(ticks[..k], from, to) + [ticks[k]] else Window(ticks[..k], from, to)
  {
    assert ticks[..k + 1][..k] == ticks[..k];
  }

  /** Ticks after `to` add nothing to the window. */
  lemma {:induction false} WindowPrefix(ticks: seq<Tick>, k: nat, from: int, to: int)
    requires k <= |ticks| && forall j :: k <= j < |ticks| ==> ticks[j].time > to
    ensures Window(ticks, from, to) == Window(ticks[..k], from, to)
    decreases |ticks| - k
  {
    if k < |ticks| {
      WindowSnoc(ticks, k, from, to);
      WindowPrefix(ticks, k + 1, from, to);
    } else {
      assert ticks[..k] == ticks;
    }
  }

  lemma {:induction false} WindowEmpty(ticks: seq<Tick>, from: int, to: int)
    requires forall j :: 0 <= j < |ticks| ==> ticks[j].time <= from
    ensures Window(ticks, from, to) == []
  {
    if ticks != [] { WindowEmpty(ticks[..|ticks| - 1], from, to); }
  }

  lemma {:induction false} IngestedAll(trades: seq<MarketTrade>, k: nat, cutoff: int)
    requires k <= |trades|
    requires forall j :: 0 <= j < |trades| ==> (trades[j].time <= cutoff <==> j < k)
    ensures Ingested(trades, cutoff) == trades[..k]
  {
    if trades != [] {
      var n := |trades| - 1;
      IngestedAll(trades[..n], if k > n then n else k, cutoff);
      assert k <= n ==> trades[..n][..k] == trades[..k];
      assert k > n ==> trades[..n] + [trades[n]] == trades[..k];
    }
  }

  /**
  Advances the lazy cursor. If it has not passed a tick after `from`, the result is exactly the
  window, however many ticks were left unread while no position was open.
   */
  method TickWindow(ticks: seq<Tick>, idx: nat, from: int, to: int) returns (out: seq<Tick>, next: nat)
    requires idx <= |ticks| && TicksSorted(ticks)
    requires forall k :: 0 <= k < idx ==> ticks[k].time <= from
    ensures out == Window(ticks, from, to)
    ensures idx <= next <= |ticks|
    ensures forall k :: 0 <= k < next ==> ticks[k].time <= to || ticks[k].time <= from
  {
    out, next := [], idx;
    WindowEmpty(ticks[..idx], from, to);
    while next < |ticks| && ticks[next].time <= to
      invariant idx <= next <= |ticks|
      invariant out == Window(ticks[..next], from, to)
      invariant forall k :: 0 <= k < next ==> ticks[k].time <= to || ticks[k].time <= from
    {
      WindowSnoc(ticks, next, from, to);
      if from < ticks[next].time {
        out := out + [ticks[next]];
      }
      next := next + 1;
    }
    WindowPrefix(ticks, next, from, to);
  }

  /** Advances the trade cursor over every trade up to the cutoff. */
  method IngestTradesUpTo(trades: seq<MarketTrade>, idx: nat, cutoff: int) returns (next: nat)
    requires idx <= |trades| && TradesSorted(trades)
    requires forall k :: 0 <= k < idx ==> trades[k].time <= cutoff
    ensures idx <= next <= |trades|
    ensures trades[..next] == Ingested(trades, cutoff)
    ensures forall k :: 0 <= k < next ==> trades[k].time <= cutoff
  {
    next := idx;
    while next < |trades| && trades[next].time <= cutoff
      invariant idx <= next <= |trades|
      invariant forall k :: 0 <= k < next ==> trades[k].time <= cutoff
    {
      next := next + 1;
    }
    IngestedAll(trades, next, cutoff);
  }

  /** Bar i's close decision, with the flag the loop carries in place of `Covered`. */
  method CloseDecision<V>(p: Policy<V>, tape: Tape, i: nat, v: V, s: Sim<V>, hadTicks: bool) returns (r: Result<Sim<V>>)
    requires i < |tape.bars|
    requires s.open.Some? ==> hadTicks == Covered(p, tape, i)
    ensures r == AtClose(p, tape, i, v, s)
  {
    var bar, close := tape.bars[i], tape.bars[i].time + p.resolution;
    var balance, open, closed, records := s.balance, s.open, s.closed, s.records;
    if open.Some? {
      var exit := p.barExit(v, open.value, bar, hadTicks);
      if exit.Some? {
        var pos, x := open.value, exit.value;
        if x.recorded {
          records := records + [TradeRecord(close, pos.signal, x.price, pos.quantity, 0.0)];
        }
        balance := AfterExit(balance, pos.signal, x.price, pos.quantity);
        closed := closed + [Closed(pos, close, x)];
        open := None;
      }
    } else if p.signal(v) != Hold && p.allows(v) &&
              (p.tradeFrom.Some? ==> bar.time >= p.tradeFrom.value) && (p.tradeTo.Some? ==> close <= p.tradeTo.value) {
      if bar.close == 0.0 { return Err; }
      var quantity := WholeBonds(balance, p.size(v), bar.close);
      if quantity == 0.0 { return Ok(s); }
      var pos := Position(close, p.signal(v), bar.close, quantity, balance, v);
      records := records + [Record(pos)];
      open := Some(pos);
      balance := AfterEntry(balance, pos.signal, pos.price, quantity);
    }
    return Ok(Sim(balance, open, closed, records));
  }

  /** Replays a tick window against the open position until one tick exits. */
  method ReplayTicks<V>(p: Policy<V>, bar: Bar, v: V, s: Sim<V>, window: seq<Tick>) returns (r: Sim<V>)
    requires s.open.Some?
    ensures r == OnTicks(p, bar, v, s, window)
    ensures if Quiet(p, v, s.open.value, bar, window, |window|) then r == s
            else exists k :: ClosedByTick(p, v, bar, s, r, window, k)
  {
    FirstExitCloses(p, v, bar, s, window, OnTicks(p, bar, v, s, window));
    var pos := s.open.value;
    for k := 0 to |window|
      invariant OnTicks(p, bar, v, s, window[k..]) == OnTicks(p, bar, v, s, window)
    {
      var exit := p.tickExit(v, pos, bar, window[k]);
      if exit.Some? {
        return CloseAt(s, window[k].time, exit.value);
      }
    }
    return s;
  }

  /** The cursors lag behind bar i's close, and the flag is right whenever it will be read. */
  ghost predicate Ready<V>(p: Policy<V>, tape: Tape, i: nat, s: Sim<V>, tradeIdx: nat, tickIdx: nat, hadTicks: bool)
  {
    && tradeIdx <= |tape.trades| && tickIdx <= |tape.ticks|
    && (i < |tape.bars| ==>
          && (forall k :: 0 <= k < tradeIdx ==> tape.trades[k].time <= CloseTime(p, tape, i))
          && (forall k :: 0 <= k < tickIdx ==> tape.ticks[k].time <= CloseTime(p, tape, i))
          && (s.open.Some? ==> hadTicks == Covered(p, tape, i)))
  }

  /** The tick half of an iteration: the cursor moves, and the flag is renewed, only while a position is open. */
  method TickPhase<V>(p: Policy<V>, tape: Tape, i: nat, v: V, s: Sim<V>, tickIdx: nat, hadTicks: bool)
    returns (r: Sim<V>, tickNext: nat, hadNext: bool)
    requires BarsIncreasing(tape.bars) && TicksSorted(tape.ticks) && i < |tape.bars| && tickIdx <= |tape.ticks|
    requires forall k :: 0 <= k < tickIdx ==> tape.ticks[k].time <= CloseTime(p, tape, i)
    ensures r == OnTicks(p, tape.bars[i], v, s, Window(tape.ticks, CloseTime(p, tape, i), WindowEnd(p, tape, i)))
    ensures tickNext <= |tape.ticks|
    ensures forall k :: 0 <= k < tickNext ==> tape.ticks[k].time <= WindowEnd(p, tape, i)
    ensures r.open.Some? && i + 1 < |tape.bars| ==> hadNext == Covered(p, tape, i + 1)
  {
    r, tickNext, hadNext := s, tickIdx, hadTicks;
    var close := tape.bars[i].time + p.resolution;
    assert close <= WindowEnd(p, tape, i);
    if s.open.Some? {
      var end := tape.bars[i].time + 2 * p.resolution;
      if i + 1 < |tape.bars| {
        end := tape.bars[i + 1].time + p.resolution;
      }
      var window;
      window, tickNext := TickWindow(tape.ticks, tickIdx, close, end);
      hadNext := |window| > 0;
      r := ReplayTicks(p, tape.bars[i], v, s, window);
    }
  }

  /** One iteration. The tick cursor moves only if a position is open after the close decision. */
  method ReplayBar<V>(p: Policy<V>, tape: Tape, i: nat, s: Sim<V>, tradeIdx: nat, tickIdx: nat, hadTicks: bool)
    returns (r: Result<Sim<V>>, tradeNext: nat, tickNext: nat, hadNext: bool)
    requires Ordered(tape) && i < |tape.bars| && Ready(p, tape, i, s, tradeIdx, tickIdx, hadTicks)
    ensures r == Bar1(p, tape, i, s)
    ensures r.Ok? ==> Ready(p, tape, i + 1, r.value, tradeNext, tickNext, hadNext)
  {
    var bars := tape.bars;
    var close := bars[i].time + p.resolution;
    tickNext, hadNext := tickIdx, hadTicks;
    tradeNext := IngestTradesUpTo(tape.trades, tradeIdx, close);
    var update := p.update(bars[..i + 1], tape.trades[..tradeNext]);
    if update.Err? { return Err, tradeNext, tickNext, hadNext; }
    var v := update.value;
    r := CloseDecision(p, tape, i, v, s, hadTicks);
    if r.Err? { return; }
    var after;
    after, tickNext, hadNext := TickPhase(p, tape, i, v, r.value, tickIdx, hadTicks);
    assert i + 1 < |bars| ==> close < CloseTime(p, tape, i + 1);
    r := Ok(after);
  }

  /** The replay loop; it agrees with `Simple` on every ordered tape. */
  method Run<V>(p: Policy<V>, tape: Tape) returns (r: Result<Outcome<V>>)
    requires Ordered(tape)
    ensures r == Simple(p, tape)
  {
    var bars := tape.bars;
    var s: Sim<V> := Sim(p.capital, None, [], []);
    var tradeIdx, tickIdx := 0, 0;
    var prevWindowHadTicks := false;
    for i := 0 to |bars|
      invariant After(p, tape, i) == Ok(s)
      invariant Ready(p, tape, i, s, tradeIdx, tickIdx, prevWindowHadTicks)
    {
      var next;
      next, tradeIdx, tickIdx, prevWindowHadTicks := ReplayBar(p, tape, i, s, tradeIdx, tickIdx, prevWindowHadTicks);
      if next.Err? {
        ErrorSticks(p, tape, i + 1);
        return Err;
      }
      s := next.value;
    }
    if s.open.Some? && |bars| > 0 {
      var pos, last := s.open.value, bars[|bars| - 1];
      var x := Exit(last.close, p.forcedReason, true);
      return Ok(Outcome(s.closed + [Closed(pos, last.time + p.resolution, x)],
                        s.records + [TradeRecord(last.time + p.resolution, pos.signal, x.price, pos.quantity, 0.0)]));
    }
    return Ok(Outcome(s.closed, s.records));
  }

  lemma {:induction false} ErrorSticks<V>(p: Policy<V>, tape: Tape, n: nat)
    requires n <= |tape.bars| && After(p, tape, n) == Err
    ensures Simple(p, tape) == Err
    decreases |tape.bars| - n
  {
    if n < |tape.bars| { ErrorSticks(p, tape, n + 1); }
  }
}
