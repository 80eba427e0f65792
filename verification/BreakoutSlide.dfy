/**
A breakout backtest that trades on negative equity: seven one-minute bars, each with a single price, decided by the
strategy's own machine over its own ATR window.
 */
module BreakoutSlide {
  import opened Prelude
  import opened Replay
  import A = Arming
  import B = Breakout
  import E = BreakoutEntry

  function FlatBar(time: int, price: real): Bar
  {
    Bar(time, price, price, price, price, 0.0, 0.0, 0.0)
  }

  const BARS := [FlatBar(0, 10.0), FlatBar(60, 10.0), FlatBar(120, 10.0), FlatBar(180, 5.0), FlatBar(240, 20.0),
                 FlatBar(300, 10.0), FlatBar(360, 25.0)]

  /** One confirmation bar beyond half an ATR; the volume gate is off. */
  const CFG := A.Config(0.5, 0.0, 0.5, 1, 0, 0.0)

  /** Compressed throughout; three bars of warm-up and an ATR over two. */
  const ST := E.Statistics((bars: seq<Bar>) => 0.0, (bars: seq<Bar>) => 1.0, (trades: seq<MarketTrade>) => 0.0, 3, 2)

  // ---- What the machine sees and decides ----------------------------------------------------

  function Seen(close: real, ready: bool, atr: real): A.Input
  {
    A.Input(close, ready, 0.0, 1.0, atr, 0.0)
  }

  lemma AtrOfTwo(bars: seq<Bar>)
    requires |bars| >= 2
    ensures var n := |bars|;
            E.Atr(bars, 2) == (E.TrueRange(bars[n - 1], bars[n - 2].close) + E.TrueRange(bars[n - 2], E.PrevClose(bars, n - 2))) / 2.0
  {
    var n := |bars|;
    var rest := bars[..n - 1];
    assert E.RangeSum(bars, 2) == E.TrueRange(bars[n - 1], E.PrevClose(bars, n - 1)) + E.RangeSum(rest, 1);
    assert E.RangeSum(rest, 1) == E.TrueRange(rest[n - 2], E.PrevClose(rest, n - 2)) + E.RangeSum(rest[..n - 2], 0);
  }

  /** The machine's state after the first i bars. */
  ghost predicate StateIs(i: nat, s: A.State)
    requires i <= 7
  {
    A.Run(CFG, E.Inputs(ST, BARS[..i], []), i) == s
  }

  lemma Feed(i: nat, s: A.State, x: A.Input)
    requires i < 7 && StateIs(i, s) && E.LastInput(ST, BARS[..i + 1], []) == x
    ensures StateIs(i + 1, A.Next(CFG, s, x))
    ensures var d := A.Decide(CFG, s, x); E.Decided(CFG, ST, BARS[..i + 1], []) == Ok(B.View(d.signal, d.positionSize, x.atr))
  {
    hide A.Next, A.Decide, E.LastInput;
    var bars := BARS[..i + 1];
    assert bars[..i] == BARS[..i] && bars[..i + 1] == bars;
    E.StateIsIncremental(CFG, ST, bars, [], [], i);
    E.InputAt(ST, bars, [], i);
  }

  lemma LastSeen(i: nat)
    requires 1 <= i < 7
    ensures var atr := (E.TrueRange(BARS[i], BARS[i - 1].close) + E.TrueRange(BARS[i - 1], E.PrevClose(BARS, i - 1))) / 2.0;
            E.LastInput(ST, BARS[..i + 1], []) == Seen(BARS[i].close, i >= 2, atr)
  {
    AtrOfTwo(BARS[..i + 1]);
  }

  const INPUTS := [Seen(10.0, false, 0.0), Seen(10.0, false, 0.0), Seen(10.0, true, 0.0), Seen(5.0, true, 2.5),
                   Seen(20.0, true, 10.0), Seen(10.0, true, 12.5), Seen(25.0, true, 12.5)]

  lemma InputIs(i: nat)
    requires i < 7
    ensures E.LastInput(ST, BARS[..i + 1], []) == INPUTS[i]
  {
    if i == 0 {
      var bars := BARS[..1];
      assert E.RangeSum(bars, 1) == E.TrueRange(bars[0], 0.0) + E.RangeSum(bars[..0], 0);
    } else {
      LastSeen(i);
    }
  }

  function Calm(price: real): A.State
  {
    A.State(false, 0, 0, 0.0, price)
  }

  const STATES := [A.INITIAL, Calm(10.0), Calm(10.0), A.State(true, 0, 0, 0.0, 10.0), Calm(5.0), Calm(20.0), Calm(10.0),
                   Calm(25.0)]

  const VIEWS := [B.View(Hold, 0.0, 0.0), B.View(Hold, 0.0, 0.0), B.View(Hold, 0.0, 0.0), B.View(Sell, 1.0, 2.5),
                  B.View(Buy, 1.0, 10.0), B.View(Sell, 1.0, 12.5), B.View(Buy, 1.0, 12.5)]

  lemma MachineStep(i: nat)
    requires i < 7
    ensures A.Next(CFG, STATES[i], INPUTS[i]) == STATES[i + 1]
    ensures var d := A.Decide(CFG, STATES[i], INPUTS[i]); B.View(d.signal, d.positionSize, INPUTS[i].atr) == VIEWS[i]
  {
  }

  /** Sell at 5, then buy at 20, then sell at 10: each breakout is announced and re-armed at once. */
  lemma {:induction false} Decisions(i: nat)
    requires i <= 7
    ensures StateIs(i, STATES[i])
    ensures i > 0 ==> E.Decided(CFG, ST, BARS[..i], []) == Ok(VIEWS[i - 1])
  {
    if i > 0 {
      Decisions(i - 1);
      InputIs(i - 1);
      MachineStep(i - 1);
      Feed(i - 1, STATES[i - 1], INPUTS[i - 1]);
    }
  }

  // ---- The replay ---------------------------------------------------------------------------

  const TAPE := Tape(BARS, [], [])

  const BANDS := B.Config(1.0, 0.0)

  const POLICY := B.BreakoutPolicy(BANDS, 100.0, 1.0, 60, None, None, E.UpdateOf(CFG, ST))

  const SHORT := Position(240, Sell, 5.0, 20.0, 100.0, VIEWS[3])

  const STOPPED := ClosedTrade(SHORT, 300, 20.0, -300.0, StopLoss)

  const NEGATIVE := Position(360, Sell, 10.0, -20.0, -200.0, VIEWS[5])

  lemma Replayed(i: nat, s: Sim<B.View>)
    requires i < 7 && After(POLICY, TAPE, i) == Ok(s)
    ensures After(POLICY, TAPE, i + 1) == AtClose(POLICY, TAPE, i, VIEWS[i], s) && !Covered(POLICY, TAPE, i)
  {
    Decisions(i + 1);
    assert Ingested(TAPE.trades, CloseTime(POLICY, TAPE, i)) == [];
    assert POLICY.update(BARS[..i + 1], []) == Ok(VIEWS[i]);
    assert Bar1(POLICY, TAPE, i, s) == AtClose(POLICY, TAPE, i, VIEWS[i], s);
  }

  /** A bar whose extreme exits the open position closes it at the bar's close time. */
  lemma StoppedAt(i: nat, s: Sim<B.View>, x: Exit)
    requires i < 7 && After(POLICY, TAPE, i) == Ok(s) && s.open.Some?
    requires B.ExitForBar(s.open.value, BARS[i], VIEWS[i].signal, BANDS) == Some(x)
    ensures After(POLICY, TAPE, i + 1) == Ok(CloseAt(s, BARS[i].time + 60, x))
  {
    Replayed(i, s);
    hide After, B.ExitForBar, E.UpdateOf;
  }

  lemma ShortStops()
    ensures B.ExitForBar(SHORT, BARS[4], VIEWS[4].signal, BANDS) == Some(Exit(20.0, StopLoss, false))
  {
  }

  lemma NegativeStops()
    ensures B.ExitForBar(NEGATIVE, BARS[6], VIEWS[6].signal, BANDS) == Some(Exit(25.0, StopLoss, false))
  {
  }

  lemma QuietStart()
    ensures After(POLICY, TAPE, 3) == Ok(Sim(100.0, None, [], []))
  {
    var s := Sim(100.0, None, [], []);
    assert After(POLICY, TAPE, 0) == Ok(s);
    Replayed(0, s);
    Replayed(1, s);
    Replayed(2, s);
  }

  lemma GoesShort()
    ensures After(POLICY, TAPE, 4) == Ok(Sim(200.0, Some(SHORT), [], [Record(SHORT)]))
  {
    QuietStart();
    Replayed(3, Sim(100.0, None, [], []));
    assert WholeBonds(100.0, 1.0, 5.0) == 20.0;
    var r := After(POLICY, TAPE, 4).value;
    assert r.open == Some(SHORT) && r.closed == [] && r.records == [Record(SHORT)];
  }

  lemma IsStopped()
    ensures After(POLICY, TAPE, 5) == Ok(Sim(-200.0, None, [STOPPED], [Record(SHORT)]))
  {
    GoesShort();
    ShortStops();
    var s := Sim(200.0, Some(SHORT), [], [Record(SHORT)]);
    StoppedAt(4, s, Exit(20.0, StopLoss, false));
    hide After, B.ExitForBar, E.UpdateOf;
    assert CloseAt(s, 300, Exit(20.0, StopLoss, false)).closed == [STOPPED];
  }

  /** The stopped short leaves negative equity, and the next entry is for minus twenty bonds. */
  lemma GoesNegative()
    ensures After(POLICY, TAPE, 6) == Ok(Sim(-400.0, Some(NEGATIVE), [STOPPED], [Record(SHORT), Record(NEGATIVE)]))
  {
    IsStopped();
    Replayed(5, Sim(-200.0, None, [STOPPED], [Record(SHORT)]));
    assert WholeBonds(-200.0, 1.0, 10.0) == -20.0;
    var r := After(POLICY, TAPE, 6).value;
    assert r.open == Some(NEGATIVE) && r.closed == [STOPPED] && r.records == [Record(SHORT), Record(NEGATIVE)];
  }

  lemma EndsFlat()
    ensures After(POLICY, TAPE, 7) == Ok(Sim(100.0, None, [STOPPED, ClosedTrade(NEGATIVE, 420, 25.0, 300.0, StopLoss)],
                                             [Record(SHORT), Record(NEGATIVE)]))
  {
    GoesNegative();
    NegativeStops();
    var s := Sim(-400.0, Some(NEGATIVE), [STOPPED], [Record(SHORT), Record(NEGATIVE)]);
    StoppedAt(6, s, Exit(25.0, StopLoss, false));
    hide After, B.ExitForBar, E.UpdateOf;
    assert CloseAt(s, 420, Exit(25.0, StopLoss, false)).closed == [STOPPED, ClosedTrade(NEGATIVE, 420, 25.0, 300.0, StopLoss)];
  }

  /** Its stop-loss then gains three hundred. */
  lemma NegativeStopGains()
    ensures B.ClosedTrades(BANDS, 100.0, 1.0, 60, None, None, E.UpdateOf(CFG, ST), TAPE) ==
            [STOPPED, ClosedTrade(NEGATIVE, 420, 25.0, 300.0, StopLoss)]
  {
    EndsFlat();
    hide After, E.UpdateOf;
  }
}
