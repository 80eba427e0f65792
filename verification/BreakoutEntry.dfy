/**
The breakout strategy's decisions, fed by its bars: the true ranges in its ATR window guarantee that whatever it
signals on has a positive ATR, so on every position a replay holds the bar check and the live check agree.
 */
module BreakoutEntry {
  import opened Prelude
  import opened Replay
  import A = Arming
  import B = Breakout
  import Entries = ReplayEntries

  // ---- The ATR window -----------------------------------------------------------------------

  function Abs(x: real): real
  {
    if x < 0.0 then -x else x
  }

  /** The bar's range, widened to the previous close; a zero previous close is none. */
  function TrueRange(bar: Bar, prevClose: real): real
  {
    var hl := bar.high - bar.low;
    if prevClose == 0.0 then hl
    else
      var hp, lp := Abs(bar.high - prevClose), Abs(bar.low - prevClose);
      var m := if lp > hp then lp else hp;
      if m > hl then m else hl
  }

  function PrevClose(bars: seq<Bar>, i: nat): real
    requires i <= |bars|
  {
    if i == 0 then 0.0 else bars[i - 1].close
  }

  /** The sum of the last n true ranges. */
  function RangeSum(bars: seq<Bar>, n: nat): real
    requires n <= |bars|
    decreases n
  {
    if n == 0 then 0.0
    else TrueRange(bars[|bars| - 1], PrevClose(bars, |bars| - 1)) + RangeSum(bars[..|bars| - 1], n - 1)
  }

  /** The mean true range of a window, over the bars it holds so far. */
  function Atr(bars: seq<Bar>, window: nat): real
    requires bars != [] && window > 0
  {
    var n := if |bars| < window then |bars| else window;
    RangeSum(bars, n) / n as real
  }

  /** The true range is how far the bar and the close before it spread together. */
  lemma TrueRangeIsSpread(bar: Bar, prevClose: real)
    requires bar.low <= bar.high
    ensures var top, bottom := if prevClose != 0.0 && prevClose > bar.high then prevClose else bar.high,
                               if prevClose != 0.0 && prevClose < bar.low then prevClose else bar.low;
            TrueRange(bar, prevClose) == top - bottom
  {
  }

  /** The true ranges of bars i up to the end, oldest first. */
  function RangesFrom(bars: seq<Bar>, i: nat): real
    requires i <= |bars|
    decreases |bars| - i
  {
    if i == |bars| then 0.0 else TrueRange(bars[i], if i == 0 then 0.0 else bars[i - 1].close) + RangesFrom(bars, i + 1)
  }

  lemma {:induction false} RangesAppend(bars: seq<Bar>, i: nat)
    requires i < |bars|
    ensures RangesFrom(bars, i) ==
            RangesFrom(bars[..|bars| - 1], i) + TrueRange(bars[|bars| - 1], PrevClose(bars, |bars| - 1))
    decreases |bars| - i
  {
    var rest := bars[..|bars| - 1];
    if i < |rest| {
      RangesAppend(bars, i + 1);
    } else {
      assert RangesFrom(bars, i + 1) == 0.0;
    }
  }

  lemma {:induction false} SumIsRanges(bars: seq<Bar>, n: nat)
    requires n <= |bars|
    ensures RangeSum(bars, n) == RangesFrom(bars, |bars| - n)
    decreases n
  {
    if n > 0 {
      SumIsRanges(bars[..|bars| - 1], n - 1);
      RangesAppend(bars, |bars| - n);
    }
  }

  /** The ATR is the mean true range of the last bars, no more of them than the window holds. */
  lemma AtrIsMean(bars: seq<Bar>, window: nat)
    requires bars != [] && window > 0
    ensures |bars| <= window ==> Atr(bars, window) * |bars| as real == RangesFrom(bars, 0)
    ensures |bars| > window ==> Atr(bars, window) * window as real == RangesFrom(bars, |bars| - window)
  {
    SumIsRanges(bars, if |bars| < window then |bars| else window);
  }

  /** The volatility and volume windows, as functions of what they have seen, and the window sizes. */
  datatype Statistics = Statistics(shortVol: seq<Bar> -> real, longVol: seq<Bar> -> real, obv: seq<MarketTrade> -> real,
                                   longWindow: nat, atrWindow: nat)

  /** What the arming machine is given after the last bar of a history. */
  function LastInput(st: Statistics, bars: seq<Bar>, trades: seq<MarketTrade>): A.Input
    requires st.atrWindow > 0 && bars != []
  {
    A.Input(bars[|bars| - 1].close, |bars| >= st.longWindow, st.shortVol(bars), st.longVol(bars), Atr(bars, st.atrWindow),
            st.obv(trades))
  }

  /** And after each of its bars. */
  function Inputs(st: Statistics, bars: seq<Bar>, trades: seq<MarketTrade>): (xs: seq<A.Input>)
    requires st.atrWindow > 0
    ensures |xs| == |bars|
  {
    if bars == [] then [] else Inputs(st, bars[..|bars| - 1], trades) + [LastInput(st, bars, trades)]
  }

  /** The decision after a history, with the ATR it is recorded with. */
  function Decided(cfg: A.Config, st: Statistics, bars: seq<Bar>, trades: seq<MarketTrade>): Result<B.View>
    requires st.atrWindow > 0
  {
    if bars == [] then Err
    else
      var xs, n := Inputs(st, bars, trades), |bars| - 1;
      var d := A.Decide(cfg, A.Run(cfg, xs, n), xs[n]);
      Ok(B.View(d.signal, d.positionSize, xs[n].atr))
  }

  function UpdateOf(cfg: A.Config, st: Statistics): (seq<Bar>, seq<MarketTrade>) -> Result<B.View>
    requires st.atrWindow > 0
  {
    (bars, trades) => Decided(cfg, st, bars, trades)
  }

  lemma {:induction false} InputAt(st: Statistics, bars: seq<Bar>, trades: seq<MarketTrade>, k: nat)
    requires st.atrWindow > 0 && k < |bars|
    ensures Inputs(st, bars, trades)[k] == LastInput(st, bars[..k + 1], trades)
    decreases |bars|
  {
    hide LastInput;
    var n := |bars| - 1;
    if k < n {
      InputAt(st, bars[..n], trades, k);
      assert bars[..n][..k + 1] == bars[..k + 1];
    } else {
      assert bars[..k + 1] == bars;
    }
  }

  /** Each input holds its bar's close, is ready once the long window is full, and has the deviations and the ATR so far. */
  lemma InputInWords(st: Statistics, bars: seq<Bar>, trades: seq<MarketTrade>, k: nat)
    requires st.atrWindow > 0 && k < |bars|
    ensures var x := Inputs(st, bars, trades)[k];
            && x.close == bars[k].close && (x.ready <==> k + 1 >= st.longWindow) && x.atr == Atr(bars[..k + 1], st.atrWindow)
            && x.shortVol == st.shortVol(bars[..k + 1]) && x.longVol == st.longVol(bars[..k + 1]) && x.obv == st.obv(trades)
  {
    InputAt(st, bars, trades, k);
  }

  lemma NextIgnoresVolume(cfg: A.Config, s: A.State, x: A.Input, obv: real)
    ensures A.Next(cfg, s, x.(obv := obv)) == A.Next(cfg, s, x)
  {
  }

  /** The machine's state is the one its earlier updates left: volume, which comes later, never enters it. */
  lemma {:induction false} StateIsIncremental(cfg: A.Config, st: Statistics, bars: seq<Bar>, early: seq<MarketTrade>,
                                              late: seq<MarketTrade>, n: nat)
    requires st.atrWindow > 0 && n <= |bars|
    ensures A.Run(cfg, Inputs(st, bars, late), n) == A.Run(cfg, Inputs(st, bars[..n], early), n)
    decreases n
  {
    if n > 0 {
      hide Inputs, A.Next, Atr;
      StateIsIncremental(cfg, st, bars, early, late, n - 1);
      StateIsIncremental(cfg, st, bars[..n], early, early, n - 1);
      assert bars[..n][..n - 1] == bars[..n - 1] && bars[..n][..n] == bars[..n];
      InputAt(st, bars, late, n - 1);
      InputAt(st, bars[..n], early, n - 1);
      var x := Inputs(st, bars[..n], early)[n - 1];
      NextIgnoresVolume(cfg, A.Run(cfg, Inputs(st, bars[..n], early), n - 1), x, st.obv(late));
    }
  }

  // ---- A signal needs a move, and a move is in the range ------------------------------------

  /** Prices are positive and the close lies in the bar's range. */
  ghost predicate GoodBars(bars: seq<Bar>)
  {
    forall i :: 0 <= i < |bars| ==> bars[i].low <= bars[i].close <= bars[i].high && bars[i].close > 0.0
  }

  lemma TrueRangeCovers(bar: Bar, prevClose: real)
    requires bar.low <= bar.close <= bar.high
    ensures TrueRange(bar, prevClose) >= 0.0
    ensures prevClose != 0.0 ==> TrueRange(bar, prevClose) >= Abs(bar.close - prevClose)
  {
  }

  lemma {:induction false} RangeSumNonNegative(bars: seq<Bar>, n: nat)
    requires n <= |bars| && GoodBars(bars)
    ensures RangeSum(bars, n) >= 0.0
    ensures n > 0 ==> RangeSum(bars, n) >= TrueRange(bars[|bars| - 1], PrevClose(bars, |bars| - 1))
    decreases n
  {
    if n > 0 {
      RangeSumNonNegative(bars[..|bars| - 1], n - 1);
      TrueRangeCovers(bars[|bars| - 1], PrevClose(bars, |bars| - 1));
    }
  }

  lemma AtrPositive(bars: seq<Bar>, window: nat)
    requires bars != [] && window > 0 && GoodBars(bars)
    ensures Atr(bars, window) >= 0.0
    ensures |bars| > 1 && bars[|bars| - 1].close != bars[|bars| - 2].close ==> Atr(bars, window) > 0.0
  {
    var n := if |bars| < window then |bars| else window;
    RangeSumNonNegative(bars, n);
    TrueRangeCovers(bars[|bars| - 1], PrevClose(bars, |bars| - 1));
    Quotient(RangeSum(bars, n), n as real);
  }

  lemma Quotient(x: real, n: real)
    requires n > 0.0
    ensures (x >= 0.0 ==> x / n >= 0.0) && (x > 0.0 ==> x / n > 0.0)
  {
  }

  /** An announced breakout closed away from the previous close. */
  lemma EntryNeedsMove(cfg: A.Config, s: A.State, x: A.Input)
    requires cfg.atrMultiple >= 0.0 && x.atr >= 0.0
    ensures A.Decide(cfg, s, x).entry ==> x.ready && x.close != s.lastPrice
    ensures A.Decide(cfg, s, x).signal != Hold ==> A.Decide(cfg, s, x).entry
  {
    assert cfg.atrMultiple * x.atr >= 0.0;
  }

  /** With windows the configuration decoder admits, whatever signals has a positive ATR. */
  lemma SignalsHaveATR(cfg: A.Config, st: Statistics, bars: seq<Bar>, trades: seq<MarketTrade>)
    requires st.atrWindow > 0 && st.longWindow > 1 && cfg.atrMultiple >= 0.0 && bars != [] && GoodBars(bars)
    ensures Decided(cfg, st, bars, trades).value.signal != Hold ==> Decided(cfg, st, bars, trades).value.atr > 0.0
  {
    var xs, n := Inputs(st, bars, trades), |bars| - 1;
    AtrPositive(bars, st.atrWindow);
    A.AlwaysExplained(cfg, xs, n);
    EntryNeedsMove(cfg, A.Run(cfg, xs, n), xs[n]);
    if n > 0 {
      InputAt(st, bars, trades, n - 1);
    }
  }

  // ---- Whole replays ------------------------------------------------------------------------

  /** Every position a breakout replay holds was recorded with a positive ATR. */
  lemma PositionsHaveATR(bands: B.Config, cfg: A.Config, st: Statistics, initialBalance: real, leverage: real, resolution: nat,
                         tradeFrom: Option<int>, tradeTo: Option<int>, tape: Tape, n: nat)
    requires st.atrWindow > 0 && st.longWindow > 1 && cfg.atrMultiple >= 0.0 && GoodBars(tape.bars) && n <= |tape.bars|
    requires After(B.BreakoutPolicy(bands, initialBalance, leverage, resolution, tradeFrom, tradeTo, UpdateOf(cfg, st)), tape, n).Ok?
    ensures var s := After(B.BreakoutPolicy(bands, initialBalance, leverage, resolution, tradeFrom, tradeTo, UpdateOf(cfg, st)),
                           tape, n).value;
            s.open.Some? ==> s.open.value.view.atr > 0.0 && s.open.value.signal != Hold
  {
    var p := B.BreakoutPolicy(bands, initialBalance, leverage, resolution, tradeFrom, tradeTo, UpdateOf(cfg, st));
    Entries.EntriesTraced(p, tape, n);
    var s := After(p, tape, n).value;
    if s.open.Some? {
      assert Entries.Opened(p, tape, s.open.value);
      var i :| Entries.OpenedAt(p, tape, i, s.open.value);
      var seen := tape.bars[..i + 1];
      assert GoodBars(seen);
      SignalsHaveATR(cfg, st, seen, Ingested(tape.trades, CloseTime(p, tape, i)));
    }
  }

  /**
  So at every bar of every replay, with no condition on the ATR: the bar check of the open position stops iff some
  price the bar traded would have stopped live, and takes profit iff none would and some would have taken profit.
   */
  lemma BarCheckIsLiveCheck(bands: B.Config, cfg: A.Config, st: Statistics, initialBalance: real, leverage: real, resolution: nat,
                            tradeFrom: Option<int>, tradeTo: Option<int>, tape: Tape, n: nat, pos: Position<B.View>, signal: Signal)
    requires st.atrWindow > 0 && st.longWindow > 1 && cfg.atrMultiple >= 0.0 && GoodBars(tape.bars)
    requires n < |tape.bars| && B.WellFormed(tape.bars[n])
    requires var r := After(B.BreakoutPolicy(bands, initialBalance, leverage, resolution, tradeFrom, tradeTo, UpdateOf(cfg, st)), tape, n);
             r.Ok? && r.value.open == Some(pos)
    ensures var x := B.ExitForBar(pos, tape.bars[n], signal, bands);
            && (x.Some? && x.value.reason == StopLoss <==>
                exists price :: B.Traded(tape.bars[n], price) && B.Live(pos, price, bands) == Some(StopLoss))
            && (x.Some? && x.value.reason == TakeProfit <==>
                (forall price :: B.Traded(tape.bars[n], price) ==> B.Live(pos, price, bands) != Some(StopLoss))
                && exists price :: B.Traded(tape.bars[n], price) && B.Live(pos, price, bands) == Some(TakeProfit))
  {
    PositionsHaveATR(bands, cfg, st, initialBalance, leverage, resolution, tradeFrom, tradeTo, tape, n);
    hide After, B.ExitForBar, B.Live, B.Traded;
    B.BarStopIffLiveStop(pos, tape.bars[n], signal, bands);
    B.BarProfitIffLiveProfit(pos, tape.bars[n], signal, bands);
  }
}
