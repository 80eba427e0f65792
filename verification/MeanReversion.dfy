/** The mean-reversion backtest as an instance of the shared replay loop: exits are driven by spread z-scores. */
module MeanReversion {
  import opened Prelude
  import opened Replay
  import Laws = ReplayLaws

  /**
  What the strategy can answer between two bars: its decision, the entry gate, the z-score of a spread
  against the rolling window (None while it is not usable) and the exit rule.
   */
  datatype View = View(
    signal: Signal,
    size: real,
    zScore: real,
    allows: bool,
    zAgainstWindow: real -> Option<real>,
    shouldExit: (Signal, real) -> Option<Reason>)

  /** The yield extreme that hurts the position; a zero yield means it was not reported. */
  function AdverseExtreme(signal: Signal, bar: Bar): Option<real>
  {
    match signal
    case Buy => if bar.highYTM == 0.0 then None else Some(bar.highYTM)
    case Sell => if bar.lowYTM == 0.0 then None else Some(bar.lowYTM)
    case Hold => None
  }

  /** The exit at the bar's adverse extreme, if it reports one and its z-score exits. */
  function ExtremeExit(v: View, pos: Position<View>, bar: Bar): Option<Exit>
  {
    match AdverseExtreme(pos.signal, bar)
    case None => None
    case Some(ytm) =>
      match v.zAgainstWindow(ytm - bar.benchmark)
      case None => None
      case Some(z) =>
        match v.shouldExit(pos.signal, z)
        case None => None
        case Some(reason) => Some(Exit(if pos.signal == Buy then bar.low else bar.high, reason, true))
  }

  /** The bar's exit: its adverse extreme unless ticks covered the bar, else its close decision. */
  function BarExit(v: View, pos: Position<View>, bar: Bar, covered: bool): Option<Exit>
  {
    var extreme := if covered then None else ExtremeExit(v, pos, bar);
    if extreme.Some? then extreme
    else
      match v.shouldExit(pos.signal, v.zScore)
      case None => None
      case Some(reason) => Some(Exit(bar.close, reason, true))
  }

  function TickExit(v: View, pos: Position<View>, bar: Bar, tick: Tick): Option<Exit>
  {
    match tick.ytm
    case None => None
    case Some(ytm) =>
      match v.zAgainstWindow(ytm - bar.benchmark)
      case None => None
      case Some(z) =>
        match v.shouldExit(pos.signal, z)
        case None => None
        case Some(reason) => Some(Exit(tick.price, reason, true))
  }

  function MeanReversionPolicy(initialBalance: real, collateralWeight: real, leverage: real, resolution: nat,
                               tradeFrom: Option<int>, tradeTo: Option<int>,
                               update: (seq<Bar>, seq<MarketTrade>) -> Result<View>): Policy<View>
  {
    Policy(initialBalance * collateralWeight * leverage, resolution, tradeFrom, tradeTo, update,
           (v: View) => v.signal, (v: View) => v.size, (v: View) => v.allows,
           (v: View, pos: Position<View>, bar: Bar, covered: bool) => BarExit(v, pos, bar, covered),
           (v: View, pos: Position<View>, bar: Bar, tick: Tick) => TickExit(v, pos, bar, tick),
           ForceClose)
  }

  /** The spread is usable, and its z-score exits a position on this side for this reason. */
  ghost predicate ExitsOn(v: View, signal: Signal, spread: real, reason: Reason)
  {
    exists z :: v.zAgainstWindow(spread) == Some(z) && v.shouldExit(signal, z) == Some(reason)
  }

  /** A tick exits at its own price iff it reports a yield whose spread over the bar's benchmark exits. */
  lemma TickExitIff(v: View, pos: Position<View>, bar: Bar, tick: Tick, x: Exit)
    ensures TickExit(v, pos, bar, tick) == Some(x) <==>
            && tick.ytm.Some? && ExitsOn(v, pos.signal, tick.ytm.value - bar.benchmark, x.reason)
            && x.price == tick.price && x.recorded
  {
    if tick.ytm.Some? {
      var z := v.zAgainstWindow(tick.ytm.value - bar.benchmark);
      assert z.Some? ==> forall y :: v.zAgainstWindow(tick.ytm.value - bar.benchmark) == Some(y) ==> y == z.value;
    }
  }

  /** The bar had no ticks, reported the yield that hurts the position, and its spread exits. */
  ghost predicate HurtBy(v: View, pos: Position<View>, bar: Bar, covered: bool, reason: Reason)
  {
    var ytm := if pos.signal == Buy then bar.highYTM else bar.lowYTM;
    !covered && ytm != 0.0 && ExitsOn(v, pos.signal, ytm - bar.benchmark, reason)
  }

  /**
  A bar exits at its low (a long) or high (a short) iff its own worst yield exits and no tick covered it; failing
  that, at its close iff the decision's z-score exits.
   */
  lemma BarExitIff(v: View, pos: Position<View>, bar: Bar, covered: bool, x: Exit)
    requires pos.signal != Hold
    ensures BarExit(v, pos, bar, covered) == Some(x) <==>
            && x.recorded
            && if exists reason :: HurtBy(v, pos, bar, covered, reason)
               then HurtBy(v, pos, bar, covered, x.reason) && x.price == (if pos.signal == Buy then bar.low else bar.high)
               else v.shouldExit(pos.signal, v.zScore) == Some(x.reason) && x.price == bar.close
  {
    var ytm := if pos.signal == Buy then bar.highYTM else bar.lowYTM;
    if !covered && ytm != 0.0 {
      var z := v.zAgainstWindow(ytm - bar.benchmark);
      if z.Some? && v.shouldExit(pos.signal, z.value).Some? {
        var spread, y, reason := ytm - bar.benchmark, z.value, v.shouldExit(pos.signal, z.value).value;
        assert v.zAgainstWindow(spread) == Some(y) && v.shouldExit(pos.signal, y) == Some(reason);
        assert HurtBy(v, pos, bar, covered, reason);
      }
    }
  }

  /**
  The whole contract of a mean-reversion backtest on increasing bars: every round trip is on record as
  one entry row and one exit row, rows never go back in time, and each trade's entry balance is the
  capital plus the profit and loss of all trades before it.
   */
  lemma BacktestReport(initialBalance: real, collateralWeight: real, leverage: real, resolution: nat,
                       tradeFrom: Option<int>, tradeTo: Option<int>,
                       update: (seq<Bar>, seq<MarketTrade>) -> Result<View>, tape: Tape)
    requires BarsIncreasing(tape.bars)
    requires Simple(MeanReversionPolicy(initialBalance, collateralWeight, leverage, resolution,
                                        tradeFrom, tradeTo, update), tape).Ok?
    ensures var p := MeanReversionPolicy(initialBalance, collateralWeight, leverage, resolution, tradeFrom, tradeTo, update);
            var o := Simple(p, tape).value;
            && |o.records| == 2 * |o.closed|
            && Laws.RecordsOrdered(o.records) && Laws.TradesOrdered(o.closed)
            && Laws.Chained(initialBalance * collateralWeight * leverage, o.closed)
            && forall k :: 0 <= k < |o.closed| ==>
                 o.records[2 * k] == Record(o.closed[k].entry) && o.records[2 * k + 1].time == o.closed[k].closeTime
  {
    var p := MeanReversionPolicy(initialBalance, collateralWeight, leverage, resolution, tradeFrom, tradeTo, update);
    assert Laws.AlwaysRecords(p);
    Laws.OutcomePaired(p, tape);
    Laws.OutcomeOrdered(p, tape);
    Laws.OutcomeChained(p, tape);
  }

  lemma ProductOrder(quantity: real, low: real, high: real)
    requires low <= high
    ensures low * quantity <= high * quantity <==> quantity >= 0.0 || low == high
  {
    assert high * quantity - low * quantity == (high - low) * quantity;
  }

  /**
  An exit at a bar extreme does no better than the close decision it replaces, iff the quantity is not negative or
  the bar closed at that extreme. Only an entry on negative equity has a negative quantity.
   */
  lemma ExtremeFillIsWorst(v: View, pos: Position<View>, bar: Bar, x: Exit)
    requires pos.signal != Hold && bar.low <= bar.close <= bar.high
    requires BarExit(v, pos, bar, false) == Some(x) && ExtremeExit(v, pos, bar).Some?
    ensures Pnl(pos.signal, pos.price, x.price, pos.quantity) <= Pnl(pos.signal, pos.price, bar.close, pos.quantity) <==>
            pos.quantity >= 0.0 || x.price == bar.close
  {
    if pos.signal == Buy {
      ProductOrder(pos.quantity, x.price, bar.close);
    } else {
      ProductOrder(pos.quantity, bar.close, x.price);
    }
  }
}
