/**
The breakout strategy's exits: the stop-loss and take-profit bands, the live tick check, the
bar-extreme check that stands in for it, and the breakout replay as an instance of the shared loop.
 */
module Breakout {
  import opened Prelude
  import opened Replay
  import Entries = ReplayEntries
  import Laws = ReplayLaws

  /** Band widths in ATR units; a width that is not positive disables the band. */
  datatype Config = Config(stopLossATR: real, takeProfitATR: real)

  datatype View = View(signal: Signal, size: real, atr: real)

  // ---- Bands --------------------------------------------------------------------------------

  function BandLevel(entryPrice: real, entryATR: real, multiplier: real, wantAbove: bool): Option<real>
  {
    if multiplier <= 0.0 then None
    else if wantAbove then Some(entryPrice + multiplier * entryATR)
    else Some(entryPrice - multiplier * entryATR)
  }

  /** None when the band is disabled. */
  function ExitPriceCrosses(entryPrice: real, entryATR: real, multiplier: real, price: real, wantAbove: bool): Option<bool>
  {
    match BandLevel(entryPrice, entryATR, multiplier, wantAbove)
    case None => None
    case Some(level) => Some(if wantAbove then price >= level else price <= level)
  }

  /** The live loop's check of one tick. */
  function LiveCheckSLTP(signal: Signal, entryPrice: real, entryATR: real, price: real, cfg: Config): Option<Reason>
  {
    if entryATR == 0.0 || signal == Hold then None
    else if cfg.stopLossATR > 0.0
         && ExitPriceCrosses(entryPrice, entryATR, cfg.stopLossATR, price, signal == Sell) == Some(true) then Some(StopLoss)
    else if cfg.takeProfitATR > 0.0
         && ExitPriceCrosses(entryPrice, entryATR, cfg.takeProfitATR, price, signal == Buy) == Some(true) then Some(TakeProfit)
    else None
  }

  predicate IsStopBandHit(pos: Position<View>, price: real, cfg: Config)
  {
    cfg.stopLossATR > 0.0
    && ExitPriceCrosses(pos.price, pos.view.atr, cfg.stopLossATR, price, pos.signal == Sell) == Some(true)
  }

  predicate IsTPBandHit(pos: Position<View>, price: real, cfg: Config)
  {
    cfg.takeProfitATR > 0.0
    && ExitPriceCrosses(pos.price, pos.view.atr, cfg.takeProfitATR, price, pos.signal == Buy) == Some(true)
  }

  /** Long: the worse of level and open; short: likewise, upwards. */
  function StopFill(signal: Signal, level: real, open: real): real
  {
    if signal == Buy then if open < level then open else level
    else if open > level then open else level
  }

  function TPFill(signal: Signal, level: real, open: real): real
  {
    if signal == Buy then if open > level then open else level
    else if open < level then open else level
  }

  predicate IsReversal(open: Signal, current: Signal)
  {
    open != current && current != Hold
  }

  function LevelOf(pos: Position<View>, multiplier: real, wantAbove: bool): real
  {
    match BandLevel(pos.price, pos.view.atr, multiplier, wantAbove)
    case Some(level) => level
    case None => 0.0
  }

  /** One bar's exits by its extremes: stop-loss, then take-profit, then reversal. */
  function ExitForBar(pos: Position<View>, bar: Bar, signal: Signal, cfg: Config): Option<Exit>
  {
    var adverse, favorable := if pos.signal == Sell then bar.high else bar.low,
                              if pos.signal == Sell then bar.low else bar.high;
    if IsStopBandHit(pos, adverse, cfg) then
      Some(Exit(StopFill(pos.signal, LevelOf(pos, cfg.stopLossATR, pos.signal == Sell), bar.open), StopLoss, false))
    else if IsTPBandHit(pos, favorable, cfg) then
      Some(Exit(TPFill(pos.signal, LevelOf(pos, cfg.takeProfitATR, pos.signal == Buy), bar.open), TakeProfit, false))
    else if IsReversal(pos.signal, signal) then Some(Exit(bar.close, Reversal, true))
    else None
  }

  function BarExit(cfg: Config, v: View, pos: Position<View>, bar: Bar, covered: bool): Option<Exit>
  {
    if covered then if IsReversal(pos.signal, v.signal) then Some(Exit(bar.close, Reversal, true)) else None
    else ExitForBar(pos, bar, v.signal, cfg)
  }

  function TickExit(cfg: Config, pos: Position<View>, tick: Tick): Option<Exit>
  {
    match LiveCheckSLTP(pos.signal, pos.price, pos.view.atr, tick.price, cfg)
    case Some(reason) => Some(Exit(tick.price, reason, false))
    case None => None
  }

  /** The breakout backtest: what it decides after each bar (`update`) is a parameter. */
  function BreakoutPolicy(cfg: Config, initialBalance: real, leverage: real, resolution: nat,
                          tradeFrom: Option<int>, tradeTo: Option<int>,
                          update: (seq<Bar>, seq<MarketTrade>) -> Result<View>): Policy<View>
  {
    Policy(initialBalance * leverage, resolution, tradeFrom, tradeTo, update,
           (v: View) => v.signal, (v: View) => v.size, (v: View) => true,
           (v: View, pos: Position<View>, bar: Bar, covered: bool) => BarExit(cfg, v, pos, bar, covered),
           (v: View, pos: Position<View>, bar: Bar, tick: Tick) => TickExit(cfg, pos, tick),
           StrategyExit)
  }

  // ---- Bar extremes against live ticks ------------------------------------------------------

  ghost predicate WellFormed(bar: Bar)
  {
    bar.low <= bar.open <= bar.high
  }

  ghost predicate Traded(bar: Bar, price: real)
  {
    bar.low <= price <= bar.high
  }

  ghost function Live(pos: Position<View>, price: real, cfg: Config): Option<Reason>
  {
    LiveCheckSLTP(pos.signal, pos.price, pos.view.atr, price, cfg)
  }

  /** With a positive ATR the bar check stops iff some price the bar traded would have stopped live. */
  lemma BarStopIffLiveStop(pos: Position<View>, bar: Bar, signal: Signal, cfg: Config)
    requires pos.signal != Hold && pos.view.atr > 0.0 && WellFormed(bar)
    ensures (var x := ExitForBar(pos, bar, signal, cfg); x.Some? && x.value.reason == StopLoss) <==>
            exists price :: Traded(bar, price) && Live(pos, price, cfg) == Some(StopLoss)
  {
    var adverse := if pos.signal == Sell then bar.high else bar.low;
    assert Traded(bar, adverse);
    assert IsStopBandHit(pos, adverse, cfg) ==> Live(pos, adverse, cfg) == Some(StopLoss);
  }

  /** It takes profit iff no traded price would have stopped and some would have taken profit. */
  lemma BarProfitIffLiveProfit(pos: Position<View>, bar: Bar, signal: Signal, cfg: Config)
    requires pos.signal != Hold && pos.view.atr > 0.0 && WellFormed(bar)
    ensures (var x := ExitForBar(pos, bar, signal, cfg); x.Some? && x.value.reason == TakeProfit) <==>
            (forall price :: Traded(bar, price) ==> Live(pos, price, cfg) != Some(StopLoss))
            && exists price :: Traded(bar, price) && Live(pos, price, cfg) == Some(TakeProfit)
  {
    BarStopIffLiveStop(pos, bar, signal, cfg);
    var favorable := if pos.signal == Sell then bar.low else bar.high;
    assert Traded(bar, favorable);
    forall price | Traded(bar, price) && Live(pos, price, cfg) == Some(TakeProfit)
      ensures IsTPBandHit(pos, favorable, cfg)
    {
    }
    if IsTPBandHit(pos, favorable, cfg) {
      assert Live(pos, favorable, cfg).Some?;
    }
  }

  /** At a zero entry ATR, which no replayed position has, the live check is off and the bar check stops at the entry price. */
  lemma ZeroATRDisagrees(pos: Position<View>, bar: Bar, signal: Signal, cfg: Config)
    requires pos.signal != Hold && pos.view.atr == 0.0 && WellFormed(bar)
    ensures forall price :: Live(pos, price, cfg) == None
    ensures (var x := ExitForBar(pos, bar, signal, cfg); x.Some? && x.value.reason == StopLoss) <==>
            cfg.stopLossATR > 0.0 && if pos.signal == Buy then bar.low <= pos.price else bar.high >= pos.price
  {
    assert cfg.stopLossATR * 0.0 == 0.0;
  }

  /** A band exit fills at a price the bar traded, gap or no gap. */
  lemma BandFillIsTraded(pos: Position<View>, bar: Bar, signal: Signal, cfg: Config)
    requires pos.signal != Hold && WellFormed(bar)
    requires var x := ExitForBar(pos, bar, signal, cfg); x.Some? && x.value.reason != Reversal
    ensures Traded(bar, ExitForBar(pos, bar, signal, cfg).value.price)
  {
  }

  // ---- Profit and loss of band exits --------------------------------------------------------

  /** The exit price is at or beyond the stop level, or at or beyond the take-profit level, as its reason says. */
  ghost predicate BeyondBand(cfg: Config, pos: Position<View>, price: real, reason: Reason)
  {
    && (reason == StopLoss && pos.signal == Buy ==> price <= pos.price - cfg.stopLossATR * pos.view.atr)
    && (reason == StopLoss && pos.signal == Sell ==> price >= pos.price + cfg.stopLossATR * pos.view.atr)
    && (reason == TakeProfit && pos.signal == Buy ==> price >= pos.price + cfg.takeProfitATR * pos.view.atr)
    && (reason == TakeProfit && pos.signal == Sell ==> price <= pos.price - cfg.takeProfitATR * pos.view.atr)
  }

  lemma ExitsBeyondBand(cfg: Config, initialBalance: real, leverage: real, resolution: nat, tradeFrom: Option<int>,
                        tradeTo: Option<int>, update: (seq<Bar>, seq<MarketTrade>) -> Result<View>)
    ensures Laws.ExitsSatisfy(BreakoutPolicy(cfg, initialBalance, leverage, resolution, tradeFrom, tradeTo, update),
                              (pos, price, reason) => BeyondBand(cfg, pos, price, reason))
  {
    forall v: View, pos, bar, covered | BarExit(cfg, v, pos, bar, covered).Some?
      ensures var x := BarExit(cfg, v, pos, bar, covered).value; BeyondBand(cfg, pos, x.price, x.reason)
    {
      BarExitBeyondBand(cfg, v, pos, bar, covered);
    }
    forall pos, tick: Tick | TickExit(cfg, pos, tick).Some?
      ensures var x := TickExit(cfg, pos, tick).value; BeyondBand(cfg, pos, x.price, x.reason)
    {
      TickExitBeyondBand(cfg, pos, tick);
    }
  }

  lemma BarExitBeyondBand(cfg: Config, v: View, pos: Position<View>, bar: Bar, covered: bool)
    requires BarExit(cfg, v, pos, bar, covered).Some?
    ensures var x := BarExit(cfg, v, pos, bar, covered).value; BeyondBand(cfg, pos, x.price, x.reason)
  {
  }

  lemma TickExitBeyondBand(cfg: Config, pos: Position<View>, tick: Tick)
    requires TickExit(cfg, pos, tick).Some?
    ensures var x := TickExit(cfg, pos, tick).value; BeyondBand(cfg, pos, x.price, x.reason)
  {
  }

  lemma BandPnl(quantity: real, entry: real, exit: real, distance: real)
    ensures exit <= entry - distance && quantity >= 0.0 ==> Pnl(Buy, entry, exit, quantity) <= -(quantity * distance)
    ensures exit >= entry + distance && quantity >= 0.0 ==> Pnl(Buy, entry, exit, quantity) >= quantity * distance
    ensures exit >= entry + distance && quantity >= 0.0 ==> Pnl(Sell, entry, exit, quantity) <= -(quantity * distance)
    ensures exit <= entry - distance && quantity >= 0.0 ==> Pnl(Sell, entry, exit, quantity) >= quantity * distance
  {
    assert exit * quantity - entry * quantity == quantity * (exit - entry);
    if quantity >= 0.0 {
      MulMonotone(quantity, exit - entry, -distance);
      MulMonotone(quantity, distance, exit - entry);
    }
  }

  lemma MulMonotone(q: real, a: real, b: real)
    requires q >= 0.0
    ensures a <= b ==> q * a <= q * b
  {
  }

  lemma BeyondBandPays(cfg: Config, pos: Position<View>, price: real, reason: Reason)
    requires BeyondBand(cfg, pos, price, reason) && pos.signal != Hold && pos.quantity >= 0.0
    ensures var pnl := Pnl(pos.signal, pos.price, price, pos.quantity);
            && (reason == StopLoss ==> pnl <= -(pos.quantity * (cfg.stopLossATR * pos.view.atr)))
            && (reason == TakeProfit ==> pnl >= pos.quantity * (cfg.takeProfitATR * pos.view.atr))
  {
    BandPnl(pos.quantity, pos.price, price, cfg.stopLossATR * pos.view.atr);
    BandPnl(pos.quantity, pos.price, price, cfg.takeProfitATR * pos.view.atr);
  }

  ghost function LevelAt(cfg: Config, pos: Position<View>): real
  {
    if pos.signal == Buy then pos.price - cfg.stopLossATR * pos.view.atr else pos.price + cfg.stopLossATR * pos.view.atr
  }

  ghost function ProfitLevelAt(cfg: Config, pos: Position<View>): real
  {
    if pos.signal == Buy then pos.price + cfg.takeProfitATR * pos.view.atr else pos.price - cfg.takeProfitATR * pos.view.atr
  }

  lemma SignOfProduct(quantity: real, beyond: real)
    requires beyond >= 0.0
    ensures quantity * beyond >= 0.0 <==> quantity >= 0.0 || beyond == 0.0
  {
  }

  /** A stop loses at least quantity x multiple x ATR iff the quantity is not negative or the fill is on the level. */
  lemma StopPnlBoundIff(cfg: Config, pos: Position<View>, price: real)
    requires pos.signal != Hold && BeyondBand(cfg, pos, price, StopLoss)
    ensures Pnl(pos.signal, pos.price, price, pos.quantity) <= -(pos.quantity * (cfg.stopLossATR * pos.view.atr)) <==>
            pos.quantity >= 0.0 || price == LevelAt(cfg, pos)
  {
    var d := cfg.stopLossATR * pos.view.atr;
    var beyond := if pos.signal == Buy then pos.price - d - price else price - pos.price - d;
    assert Pnl(pos.signal, pos.price, price, pos.quantity) + pos.quantity * d == -(pos.quantity * beyond);
    SignOfProduct(pos.quantity, beyond);
  }

  /** A take-profit gains at least quantity x multiple x ATR under the same condition. */
  lemma ProfitPnlBoundIff(cfg: Config, pos: Position<View>, price: real)
    requires pos.signal != Hold && BeyondBand(cfg, pos, price, TakeProfit)
    ensures Pnl(pos.signal, pos.price, price, pos.quantity) >= pos.quantity * (cfg.takeProfitATR * pos.view.atr) <==>
            pos.quantity >= 0.0 || price == ProfitLevelAt(cfg, pos)
  {
    var d := cfg.takeProfitATR * pos.view.atr;
    var beyond := if pos.signal == Buy then price - pos.price - d else pos.price - d - price;
    assert Pnl(pos.signal, pos.price, price, pos.quantity) - pos.quantity * d == pos.quantity * beyond;
    SignOfProduct(pos.quantity, beyond);
  }

  /** The closed trades of a breakout replay that finished. */
  ghost function ClosedTrades(cfg: Config, initialBalance: real, leverage: real, resolution: nat, tradeFrom: Option<int>,
                              tradeTo: Option<int>, update: (seq<Bar>, seq<MarketTrade>) -> Result<View>, tape: Tape)
    : seq<ClosedTrade<View>>
  {
    match Simple(BreakoutPolicy(cfg, initialBalance, leverage, resolution, tradeFrom, tradeTo, update), tape)
    case Ok(o) => o.closed
    case Err => []
  }

  /** The exit is beyond its band, and its profit and loss is that of the position. */
  lemma ClosedBeyondBand(cfg: Config, initialBalance: real, leverage: real, resolution: nat, tradeFrom: Option<int>,
                         tradeTo: Option<int>, update: (seq<Bar>, seq<MarketTrade>) -> Result<View>, tape: Tape, k: nat)
    requires k < |ClosedTrades(cfg, initialBalance, leverage, resolution, tradeFrom, tradeTo, update, tape)|
    ensures var c := ClosedTrades(cfg, initialBalance, leverage, resolution, tradeFrom, tradeTo, update, tape)[k];
            && BeyondBand(cfg, c.entry, c.exitPrice, c.reason)
            && c.pnl == Pnl(c.entry.signal, c.entry.price, c.exitPrice, c.entry.quantity)
  {
    var p := BreakoutPolicy(cfg, initialBalance, leverage, resolution, tradeFrom, tradeTo, update);
    var good := (pos: Position<View>, price: real, reason: Reason) => BeyondBand(cfg, pos, price, reason);
    ExitsBeyondBand(cfg, initialBalance, leverage, resolution, tradeFrom, tradeTo, update);
    Laws.OutcomeGood(p, tape, good);
    var c := Simple(p, tape).value.closed[k];
    assert c in Simple(p, tape).value.closed && good(c.entry, c.exitPrice, c.reason);
  }

  /** Not sized from negative equity: capital plus all profit and loss before the trade, times its size. */
  ghost predicate Solvent(capital: real, closed: seq<ClosedTrade<View>>, k: nat)
    requires k < |closed|
  {
    (capital + Laws.TotalPnl(closed[..k])) * closed[k].entry.view.size >= 0.0
  }

  lemma SolventIff(cfg: Config, initialBalance: real, leverage: real, resolution: nat, tradeFrom: Option<int>,
                   tradeTo: Option<int>, update: (seq<Bar>, seq<MarketTrade>) -> Result<View>, tape: Tape, k: nat)
    requires var closed := ClosedTrades(cfg, initialBalance, leverage, resolution, tradeFrom, tradeTo, update, tape);
             k < |closed| && closed[k].entry.price > 0.0
    ensures var closed := ClosedTrades(cfg, initialBalance, leverage, resolution, tradeFrom, tradeTo, update, tape);
            && (Solvent(initialBalance * leverage, closed, k) <==> closed[k].entry.quantity >= 0.0)
            && closed[k].entry.signal != Hold
  {
    var p := BreakoutPolicy(cfg, initialBalance, leverage, resolution, tradeFrom, tradeTo, update);
    Entries.NegativeQuantityIff(p, tape, k);
  }

  /**
  Every stop-loss of every replay loses at least quantity x multiple x ATR, and every take-profit gains at least
  that, whether a tick or a bar extreme closed it, exactly when the trade was not sized from negative equity or
  filled exactly on its level.
   */
  lemma BandExitsPayTheirBandIff(cfg: Config, initialBalance: real, leverage: real, resolution: nat, tradeFrom: Option<int>,
                                 tradeTo: Option<int>, update: (seq<Bar>, seq<MarketTrade>) -> Result<View>, tape: Tape, k: nat)
    requires var closed := ClosedTrades(cfg, initialBalance, leverage, resolution, tradeFrom, tradeTo, update, tape);
             k < |closed| && closed[k].entry.price > 0.0
    ensures var closed := ClosedTrades(cfg, initialBalance, leverage, resolution, tradeFrom, tradeTo, update, tape);
            var c, solvent := closed[k], Solvent(initialBalance * leverage, closed, k);
            && (c.reason == StopLoss ==>
                  (c.pnl <= -(c.entry.quantity * (cfg.stopLossATR * c.entry.view.atr)) <==>
                   solvent || c.exitPrice == LevelAt(cfg, c.entry)))
            && (c.reason == TakeProfit ==>
                  (c.pnl >= c.entry.quantity * (cfg.takeProfitATR * c.entry.view.atr) <==>
                   solvent || c.exitPrice == ProfitLevelAt(cfg, c.entry)))
  {
    hide ClosedTrades, Solvent, Pnl, BeyondBand, LevelAt, ProfitLevelAt;
    ClosedBeyondBand(cfg, initialBalance, leverage, resolution, tradeFrom, tradeTo, update, tape, k);
    SolventIff(cfg, initialBalance, leverage, resolution, tradeFrom, tradeTo, update, tape, k);
    var c := ClosedTrades(cfg, initialBalance, leverage, resolution, tradeFrom, tradeTo, update, tape)[k];
    if c.reason == StopLoss { StopPnlBoundIff(cfg, c.entry, c.exitPrice); }
    if c.reason == TakeProfit { ProfitPnlBoundIff(cfg, c.entry, c.exitPrice); }
  }

  lemma ClosedHaveASide(cfg: Config, initialBalance: real, leverage: real, resolution: nat, tradeFrom: Option<int>,
                        tradeTo: Option<int>, update: (seq<Bar>, seq<MarketTrade>) -> Result<View>, tape: Tape, k: nat)
    requires k < |ClosedTrades(cfg, initialBalance, leverage, resolution, tradeFrom, tradeTo, update, tape)|
    ensures ClosedTrades(cfg, initialBalance, leverage, resolution, tradeFrom, tradeTo, update, tape)[k].entry.signal != Hold
  {
    var p := BreakoutPolicy(cfg, initialBalance, leverage, resolution, tradeFrom, tradeTo, update);
    var entry := ClosedTrades(cfg, initialBalance, leverage, resolution, tradeFrom, tradeTo, update, tape)[k].entry;
    Entries.OutcomeTraced(p, tape);
    assert Entries.Opened(p, tape, entry);
  }

  /** For a trade with a non-negative quantity both bounds hold outright. */
  lemma BandExitsPayTheirBand(cfg: Config, initialBalance: real, leverage: real, resolution: nat, tradeFrom: Option<int>,
                              tradeTo: Option<int>, update: (seq<Bar>, seq<MarketTrade>) -> Result<View>, tape: Tape, k: nat)
    requires k < |ClosedTrades(cfg, initialBalance, leverage, resolution, tradeFrom, tradeTo, update, tape)|
    ensures var c := ClosedTrades(cfg, initialBalance, leverage, resolution, tradeFrom, tradeTo, update, tape)[k];
            c.entry.quantity >= 0.0 ==>
              && (c.reason == StopLoss ==> c.pnl <= -(c.entry.quantity * (cfg.stopLossATR * c.entry.view.atr)))
              && (c.reason == TakeProfit ==> c.pnl >= c.entry.quantity * (cfg.takeProfitATR * c.entry.view.atr))
  {
    hide ClosedTrades, Pnl, BeyondBand;
    ClosedBeyondBand(cfg, initialBalance, leverage, resolution, tradeFrom, tradeTo, update, tape, k);
    ClosedHaveASide(cfg, initialBalance, leverage, resolution, tradeFrom, tradeTo, update, tape, k);
    var c := ClosedTrades(cfg, initialBalance, leverage, resolution, tradeFrom, tradeTo, update, tape)[k];
    if c.entry.quantity >= 0.0 { BeyondBandPays(cfg, c.entry, c.exitPrice, c.reason); }
  }
}
