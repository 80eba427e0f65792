/** The breakout exits in numbers: how far the price has moved for or against the position, in units of its entry ATR. */
module BreakoutExits {
  import opened Prelude
  import opened Replay
  import opened Breakout
  import Bars = ReplayBars

  /** What one bond gains at a price: a long what it rises, a short what it falls. */
  function Move(pos: Position<View>, price: real): real
  {
    if pos.signal == Buy then price - pos.price else pos.price - price
  }

  /** The prices of a bar that are worst and best for the position. */
  function Worst(pos: Position<View>, bar: Bar): real
  {
    if pos.signal == Buy then bar.low else bar.high
  }

  function Best(pos: Position<View>, bar: Bar): real
  {
    if pos.signal == Buy then bar.high else bar.low
  }

  /** The price has moved the stop's distance or more against the position; a width that is not positive never stops. */
  predicate Stops(cfg: Config, pos: Position<View>, price: real)
  {
    cfg.stopLossATR > 0.0 && Move(pos, price) <= -(cfg.stopLossATR * pos.view.atr)
  }

  predicate Takes(cfg: Config, pos: Position<View>, price: real)
  {
    cfg.takeProfitATR > 0.0 && Move(pos, price) >= cfg.takeProfitATR * pos.view.atr
  }

  /** A tick exits at its own price: the stop first, then the take-profit; never at a zero ATR. */
  lemma TickExitInNumbers(cfg: Config, pos: Position<View>, tick: Tick)
    requires pos.signal != Hold
    ensures TickExit(cfg, pos, tick) ==
            if pos.view.atr == 0.0 then None
            else if Stops(cfg, pos, tick.price) then Some(Exit(tick.price, StopLoss, false))
            else if Takes(cfg, pos, tick.price) then Some(Exit(tick.price, TakeProfit, false))
            else None
  {
    BandInNumbers(cfg, pos, tick.price);
  }

  lemma BandInNumbers(cfg: Config, pos: Position<View>, price: real)
    requires pos.signal != Hold
    ensures IsStopBandHit(pos, price, cfg) <==> Stops(cfg, pos, price)
    ensures IsTPBandHit(pos, price, cfg) <==> Takes(cfg, pos, price)
  {
  }

  /** The decision turns against the position. */
  predicate Opposite(pos: Position<View>, v: View)
  {
    (pos.signal == Buy && v.signal == Sell) || (pos.signal == Sell && v.signal == Buy)
  }

  /** The fill is exactly on the band, or at the open if the bar opened beyond it. */
  ghost predicate FillsAt(pos: Position<View>, open: real, price: real, band: real, adverse: bool)
  {
    Move(pos, price) == if (if adverse then Move(pos, open) < band else Move(pos, open) > band) then Move(pos, open) else band
  }

  /**
  A bar without ticks: stopped if its worst price stops, else profit taken if its best price takes it, else reversed
  at the close. A bar with ticks can only be reversed.
   */
  lemma BarExitInNumbers(cfg: Config, v: View, pos: Position<View>, bar: Bar, covered: bool)
    requires pos.signal != Hold
    ensures match BarExit(cfg, v, pos, bar, covered)
            case Some(x) =>
              if !covered && Stops(cfg, pos, Worst(pos, bar))
              then x.reason == StopLoss && !x.recorded && FillsAt(pos, bar.open, x.price, -(cfg.stopLossATR * pos.view.atr), true)
              else if !covered && Takes(cfg, pos, Best(pos, bar))
              then x.reason == TakeProfit && !x.recorded && FillsAt(pos, bar.open, x.price, cfg.takeProfitATR * pos.view.atr, false)
              else Opposite(pos, v) && x == Exit(bar.close, Reversal, true)
            case None => !Opposite(pos, v) && (covered || (!Stops(cfg, pos, Worst(pos, bar)) && !Takes(cfg, pos, Best(pos, bar))))
  {
    BandInNumbers(cfg, pos, Worst(pos, bar));
    BandInNumbers(cfg, pos, Best(pos, bar));
    FillInNumbers(cfg, pos, bar.open);
    hide IsStopBandHit, IsTPBandHit, Stops, Takes, FillsAt, StopFill, TPFill, LevelOf;
  }

  lemma FillInNumbers(cfg: Config, pos: Position<View>, open: real)
    requires pos.signal != Hold
    ensures cfg.stopLossATR > 0.0 ==>
              FillsAt(pos, open, StopFill(pos.signal, LevelOf(pos, cfg.stopLossATR, pos.signal == Sell), open),
                      -(cfg.stopLossATR * pos.view.atr), true)
    ensures cfg.takeProfitATR > 0.0 ==>
              FillsAt(pos, open, TPFill(pos.signal, LevelOf(pos, cfg.takeProfitATR, pos.signal == Buy), open),
                      cfg.takeProfitATR * pos.view.atr, false)
  {
  }

  // ---- Breakout replays -----------------------------------------------------------------------

  /**
  A breakout position still open after bar i met no tick, up to the next close, that had moved the stop's distance
  against it or the take-profit's for it.
   */
  lemma OpenMetNoBand(cfg: Config, initialBalance: real, leverage: real, resolution: nat, tradeFrom: Option<int>, tradeTo: Option<int>,
                      update: (seq<Bar>, seq<MarketTrade>) -> Result<View>, tape: Tape, i: nat, tick: Tick)
    requires i + 1 < |tape.bars|
    requires var r := After(BreakoutPolicy(cfg, initialBalance, leverage, resolution, tradeFrom, tradeTo, update), tape, i + 1);
             r.Ok? && r.value.open.Some? && r.value.open.value.signal != Hold && r.value.open.value.view.atr != 0.0
    requires tick in tape.ticks && tape.bars[i].time + resolution < tick.time <= tape.bars[i + 1].time + resolution
    ensures var pos := After(BreakoutPolicy(cfg, initialBalance, leverage, resolution, tradeFrom, tradeTo, update),
                             tape, i + 1).value.open.value;
            !Stops(cfg, pos, tick.price) && !Takes(cfg, pos, tick.price)
  {
    var p := BreakoutPolicy(cfg, initialBalance, leverage, resolution, tradeFrom, tradeTo, update);
    var pos := After(p, tape, i + 1).value.open.value;
    Bars.StillOpen(p, tape, i, tick);
    TickExitInNumbers(cfg, pos, tick);
    assert p.tickExit(Bars.DecisionAt(p, tape, i).value, pos, tape.bars[i], tick) == TickExit(cfg, pos, tick);
  }

  /** A position left open at the end is closed at the last bar's close, as the strategy's own exit. */
  lemma EndsWithStrategyExit(cfg: Config, initialBalance: real, leverage: real, resolution: nat, tradeFrom: Option<int>,
                             tradeTo: Option<int>, update: (seq<Bar>, seq<MarketTrade>) -> Result<View>, tape: Tape)
    requires var r := After(BreakoutPolicy(cfg, initialBalance, leverage, resolution, tradeFrom, tradeTo, update), tape, |tape.bars|);
             r.Ok? && r.value.open.Some?
    ensures tape.bars != []
    ensures var p := BreakoutPolicy(cfg, initialBalance, leverage, resolution, tradeFrom, tradeTo, update);
            var s, last := After(p, tape, |tape.bars|).value, tape.bars[|tape.bars| - 1];
            var pos := s.open.value;
            Simple(p, tape).Ok? && Simple(p, tape).value.closed ==
              s.closed + [ClosedTrade(pos, last.time + resolution, last.close, Gain(pos, last.close), StrategyExit)]
  {
    Bars.EndCloses(BreakoutPolicy(cfg, initialBalance, leverage, resolution, tradeFrom, tradeTo, update), tape);
  }
}
