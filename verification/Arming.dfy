/**
The breakout arming machine: compression arms it, closes beyond the trigger are counted while armed,
and the ConfirmationBars-th one on a side signals and disarms. Rolling statistics are inputs.
 */
module Arming {
  import opened Replay

  datatype Config = Config(
    threshold: real, minLongVol: real, atrMultiple: real, confirmationBars: int, obvWindow: nat, obvThreshold: real)

  /** One closed bar with the rolling statistics after it: deviations, mean true range, windowed volume. */
  datatype Input = Input(close: real, ready: bool, shortVol: real, longVol: real, atr: real, obv: real)

  datatype State = State(armed: bool, above: int, below: int, armedRatio: real, lastPrice: real)

  datatype Decision = Decision(signal: Signal, entry: bool, positionSize: real, armedRatio: real)

  const INITIAL := State(false, 0, 0, 0.0, 0.0)

  const NOTHING := Decision(Hold, false, 0.0, 0.0)

  function Ratio(x: Input): real
  {
    if x.longVol == 0.0 then 0.0 else x.shortVol / x.longVol
  }

  predicate Eligible(cfg: Config, x: Input)
  {
    x.ready && x.longVol >= cfg.minLongVol
  }

  predicate Compressed(cfg: Config, x: Input)
  {
    Eligible(cfg, x) && Ratio(x) < cfg.threshold
  }

  predicate Up(cfg: Config, prev: real, x: Input)
  {
    x.close > prev + cfg.atrMultiple * x.atr
  }

  /** Below the lower trigger, and not above the upper one, which is tested first. */
  predicate Down(cfg: Config, prev: real, x: Input)
  {
    !Up(cfg, prev, x) && x.close < prev - cfg.atrMultiple * x.atr
  }

  /** The volume gate leaves only signals that the windowed volume confirms. */
  function VolumeFilter(cfg: Config, x: Input, d: Decision): Decision
  {
    if cfg.obvWindow == 0 then d
    else if d.signal == Buy && x.obv <= cfg.obvThreshold then d.(signal := Hold, positionSize := 0.0)
    else if d.signal == Sell && -x.obv <= cfg.obvThreshold then d.(signal := Hold, positionSize := 0.0)
    else d
  }

  class Strategy {
    const cfg: Config
    var compressionArmed: bool
    var barsAboveTrigger: int
    var barsBelowTrigger: int
    var armedCompressionRatio: real
    var lastPrice: real

    ghost function View(): State
      reads this
    {
      State(compressionArmed, barsAboveTrigger, barsBelowTrigger, armedCompressionRatio, lastPrice)
    }

    constructor (cfg: Config)
      ensures this.cfg == cfg && View() == INITIAL
    {
      this.cfg := cfg;
      compressionArmed, barsAboveTrigger, barsBelowTrigger, armedCompressionRatio, lastPrice := false, 0, 0, 0.0, 0.0;
    }

    method ResetArmed()
      modifies this
      ensures View() == old(View()).(armed := false, above := 0, below := 0)
    {
      compressionArmed, barsAboveTrigger, barsBelowTrigger := false, 0, 0;
    }

    method EvaluateBreakout(x: Input, prevPrice: real) returns (d: Decision)
      modifies this
      ensures (View(), d) == Breakout(cfg, old(View()), prevPrice, x)
    {
      d := NOTHING;
      var triggerHigh, triggerLow := prevPrice + cfg.atrMultiple * x.atr, prevPrice - cfg.atrMultiple * x.atr;
      if x.close > triggerHigh {
        barsAboveTrigger := barsAboveTrigger + 1;
        if barsAboveTrigger >= cfg.confirmationBars {
          d := Decision(Buy, true, 1.0, armedCompressionRatio);
          ResetArmed();
        }
      } else if x.close < triggerLow {
        barsBelowTrigger := barsBelowTrigger + 1;
        if barsBelowTrigger >= cfg.confirmationBars {
          d := Decision(Sell, true, 1.0, armedCompressionRatio);
          ResetArmed();
        }
      }
    }

    method Update(x: Input) returns (d: Decision)
      modifies this
      ensures View() == Next(cfg, old(View()), x) && d == Decide(cfg, old(View()), x)
    {
      var prevClose := lastPrice;
      lastPrice := x.close;
      if !x.ready { return NOTHING; }
      if x.longVol < cfg.minLongVol { return NOTHING; }
      var ratio := Ratio(x);
      if ratio < cfg.threshold {
        if !compressionArmed {
          armedCompressionRatio := ratio;
        }
        compressionArmed := true;
      }
      if !compressionArmed { return NOTHING; }
      d := EvaluateBreakout(x, prevClose);
      d := VolumeFilter(cfg, x, d);
    }
  }

  // ---- One update as a function -------------------------------------------------------------

  function Breakout(cfg: Config, s: State, prev: real, x: Input): (State, Decision)
  {
    var calm := s.(armed := false, above := 0, below := 0);
    if Up(cfg, prev, x) then
      if s.above + 1 >= cfg.confirmationBars then (calm, Decision(Buy, true, 1.0, s.armedRatio))
      else (s.(above := s.above + 1), NOTHING)
    else if Down(cfg, prev, x) then
      if s.below + 1 >= cfg.confirmationBars then (calm, Decision(Sell, true, 1.0, s.armedRatio))
      else (s.(below := s.below + 1), NOTHING)
    else (s, NOTHING)
  }

  function Arm(cfg: Config, s: State, x: Input): State
  {
    var t := s.(lastPrice := x.close);
    if Compressed(cfg, x) && !s.armed then t.(armed := true, armedRatio := Ratio(x)) else t
  }

  function Next(cfg: Config, s: State, x: Input): State
  {
    var t := Arm(cfg, s, x);
    if Eligible(cfg, x) && t.armed then Breakout(cfg, t, s.lastPrice, x).0 else t
  }

  function Decide(cfg: Config, s: State, x: Input): Decision
  {
    var t := Arm(cfg, s, x);
    if Eligible(cfg, x) && t.armed then VolumeFilter(cfg, x, Breakout(cfg, t, s.lastPrice, x).1) else NOTHING
  }

  /** The state after the first n inputs. */
  function Run(cfg: Config, xs: seq<Input>, n: nat): State
    requires n <= |xs|
  {
    if n == 0 then INITIAL else Next(cfg, Run(cfg, xs, n - 1), xs[n - 1])
  }

  // ---- The same, read off the input history without any counter ----------------------------

  function Prev(xs: seq<Input>, i: nat): real
    requires i <= |xs|
  {
    if i == 0 then 0.0 else xs[i - 1].close
  }

  /** The first compressed bar in [from, n), or n. */
  function FirstCompressed(cfg: Config, xs: seq<Input>, from: nat, n: nat): (j: nat)
    requires from <= n <= |xs|
    ensures from <= j <= n
    ensures j < n ==> Compressed(cfg, xs[j])
    ensures forall k :: from <= k < j ==> !Compressed(cfg, xs[k])
    decreases n - from
  {
    if from == n || Compressed(cfg, xs[from]) then from else FirstCompressed(cfg, xs, from + 1, n)
  }

  function UpCount(cfg: Config, xs: seq<Input>, from: nat, n: nat): nat
    requires from <= n <= |xs|
  {
    if from == n then 0
    else UpCount(cfg, xs, from, n - 1) + if Eligible(cfg, xs[n - 1]) && Up(cfg, Prev(xs, n - 1), xs[n - 1]) then 1 else 0
  }

  function DownCount(cfg: Config, xs: seq<Input>, from: nat, n: nat): nat
    requires from <= n <= |xs|
  {
    if from == n then 0
    else DownCount(cfg, xs, from, n - 1) + if Eligible(cfg, xs[n - 1]) && Down(cfg, Prev(xs, n - 1), xs[n - 1]) then 1 else 0
  }

  /** A confirmation count below one acts as one. */
  function Needed(cfg: Config): int
  {
    if cfg.confirmationBars < 1 then 1 else cfg.confirmationBars
  }

  /** Bar n-1 completes a breakout upwards: it is the Needed-th close above its own trigger since compression. */
  predicate FiresUp(cfg: Config, xs: seq<Input>, start: nat, n: nat)
    requires start < n <= |xs|
  {
    var j := FirstCompressed(cfg, xs, start, n);
    && j < n && Eligible(cfg, xs[n - 1]) && Up(cfg, Prev(xs, n - 1), xs[n - 1])
    && UpCount(cfg, xs, j, n) == Needed(cfg)
  }

  predicate FiresDown(cfg: Config, xs: seq<Input>, start: nat, n: nat)
    requires start < n <= |xs|
  {
    var j := FirstCompressed(cfg, xs, start, n);
    && j < n && Eligible(cfg, xs[n - 1]) && Down(cfg, Prev(xs, n - 1), xs[n - 1])
    && DownCount(cfg, xs, j, n) == Needed(cfg)
  }

  /** Where the current episode began: just after the last completed breakout. */
  function Start(cfg: Config, xs: seq<Input>, n: nat): (start: nat)
    requires n <= |xs|
    ensures start <= n
  {
    if n == 0 then 0
    else
      var start := Start(cfg, xs, n - 1);
      if FiresUp(cfg, xs, start, n) || FiresDown(cfg, xs, start, n) then n else start
  }

  /** The machine's state says exactly what happened since the last completed breakout. */
  ghost predicate Explained(cfg: Config, xs: seq<Input>, n: nat, s: State)
    requires n <= |xs|
  {
    var j := FirstCompressed(cfg, xs, Start(cfg, xs, n), n);
    && s.armed == (j < n)
    && s.above == UpCount(cfg, xs, j, n) < Needed(cfg)
    && s.below == DownCount(cfg, xs, j, n) < Needed(cfg)
    && (s.armed ==> s.armedRatio == Ratio(xs[j]))
    && s.lastPrice == Prev(xs, n)
  }

  lemma {:induction false} FirstCompressedStep(cfg: Config, xs: seq<Input>, from: nat, n: nat)
    requires from <= n < |xs|
    ensures var j := FirstCompressed(cfg, xs, from, n);
            FirstCompressed(cfg, xs, from, n + 1) == if j < n || Compressed(cfg, xs[n]) then j else n + 1
    decreases n - from
  {
    if from < n { FirstCompressedStep(cfg, xs, from + 1, n); }
  }

  /**
  Over every input history and confirmation count: the machine is unarmed with zero counters until the
  first compressed bar after the last breakout, its counters are the bars beyond the trigger since
  then, both below the confirmation count, and the remembered ratio is that first bar's.
   */
  lemma {:induction false} AlwaysExplained(cfg: Config, xs: seq<Input>, n: nat)
    requires n <= |xs|
    ensures Explained(cfg, xs, n, Run(cfg, xs, n))
    ensures !Run(cfg, xs, n).armed ==> Run(cfg, xs, n).above == Run(cfg, xs, n).below == 0
  {
    if n > 0 {
      AlwaysExplained(cfg, xs, n - 1);
      FirstCompressedStep(cfg, xs, Start(cfg, xs, n - 1), n - 1);
      StepExplained(cfg, xs, n, Run(cfg, xs, n - 1));
    }
  }

  lemma StepExplained(cfg: Config, xs: seq<Input>, n: nat, s: State)
    requires 0 < n <= |xs| && Explained(cfg, xs, n - 1, s)
    requires var start := Start(cfg, xs, n - 1);
             var j := FirstCompressed(cfg, xs, start, n - 1);
             FirstCompressed(cfg, xs, start, n) == if j < n - 1 || Compressed(cfg, xs[n - 1]) then j else n
    ensures Explained(cfg, xs, n, Next(cfg, s, xs[n - 1]))
  {
    var start := Start(cfg, xs, n - 1);
    var j := FirstCompressed(cfg, xs, start, n);
    var fires := FiresUp(cfg, xs, start, n) || FiresDown(cfg, xs, start, n);
    assert !(Up(cfg, s.lastPrice, xs[n - 1]) && Down(cfg, s.lastPrice, xs[n - 1]));
    hide Up, Down, Ratio;
    if j < n {
      assert UpCount(cfg, xs, j, n) == s.above + if Eligible(cfg, xs[n - 1]) && Up(cfg, s.lastPrice, xs[n - 1]) then 1 else 0;
      assert DownCount(cfg, xs, j, n) == s.below + if Eligible(cfg, xs[n - 1]) && Down(cfg, s.lastPrice, xs[n - 1]) then 1 else 0;
    }
    if fires { assert FirstCompressed(cfg, xs, n, n) == n; }
  }

  /**
  An update announces a breakout exactly at the bar that completes one on its side, with the ratio that
  armed it; either way of the volume gate the machine is then unarmed, so a suppressed breakout is spent.
   */
  lemma SignalsExactlyAtBreakouts(cfg: Config, xs: seq<Input>, n: nat)
    requires 0 < n <= |xs|
    ensures var d, start := Decide(cfg, Run(cfg, xs, n - 1), xs[n - 1]), Start(cfg, xs, n - 1);
            && (d.entry <==> FiresUp(cfg, xs, start, n) || FiresDown(cfg, xs, start, n))
            && (d.entry ==> d.armedRatio == Ratio(xs[FirstCompressed(cfg, xs, start, n)]) && !Run(cfg, xs, n).armed)
            && (d.signal == Buy <==> FiresUp(cfg, xs, start, n) && (cfg.obvWindow == 0 || xs[n - 1].obv > cfg.obvThreshold))
            && (d.signal == Sell <==> FiresDown(cfg, xs, start, n) && (cfg.obvWindow == 0 || -xs[n - 1].obv > cfg.obvThreshold))
            && d.positionSize == if d.signal == Hold then 0.0 else 1.0
  {
    var s, start := Run(cfg, xs, n - 1), Start(cfg, xs, n - 1);
    AlwaysExplained(cfg, xs, n - 1);
    FirstCompressedStep(cfg, xs, start, n - 1);
    var j := FirstCompressed(cfg, xs, start, n);
    if j < n {
      assert UpCount(cfg, xs, j, n) == s.above + if Eligible(cfg, xs[n - 1]) && Up(cfg, s.lastPrice, xs[n - 1]) then 1 else 0;
      assert DownCount(cfg, xs, j, n) == s.below + if Eligible(cfg, xs[n - 1]) && Down(cfg, s.lastPrice, xs[n - 1]) then 1 else 0;
    }
  }

  // ---- The conditions in numbers ------------------------------------------------------------

  /** Compression without a division: the short deviation is under the threshold's share of the long one. */
  lemma CompressedInNumbers(cfg: Config, x: Input)
    requires x.longVol >= 0.0
    ensures Compressed(cfg, x) <==>
            && x.ready && x.longVol >= cfg.minLongVol
            && if x.longVol == 0.0 then 0.0 < cfg.threshold else x.shortVol < cfg.threshold * x.longVol
    ensures x.longVol > 0.0 ==> Ratio(x) * x.longVol == x.shortVol
  {
    if x.longVol > 0.0 { QuotientBelow(x.shortVol, x.longVol, cfg.threshold); }
  }

  lemma QuotientBelow(a: real, b: real, c: real)
    requires b > 0.0
    ensures (a / b) * b == a && (a / b < c <==> a < c * b)
  {
    var q := a / b;
    assert q < c <==> q * b < c * b;
  }

  /** Bar k is ready, volatile enough, and closes by more than the band above, or below, the close before. */
  predicate IsBeyond(cfg: Config, xs: seq<Input>, k: nat, up: bool)
    requires k < |xs|
  {
    && xs[k].ready && xs[k].longVol >= cfg.minLongVol
    && (if up then xs[k].close - Prev(xs, k) else Prev(xs, k) - xs[k].close) > cfg.atrMultiple * xs[k].atr
  }

  function Beyond(cfg: Config, xs: seq<Input>, from: nat, n: nat, up: bool): set<nat>
    requires from <= n <= |xs|
  {
    set k: nat | from <= k < n && IsBeyond(cfg, xs, k, up)
  }

  /** The counters count those bars, each side its own, for a band that is not negative. */
  lemma {:induction false} CountsAreSets(cfg: Config, xs: seq<Input>, from: nat, n: nat)
    requires from <= n <= |xs| && forall k :: from <= k < n ==> cfg.atrMultiple * xs[k].atr >= 0.0
    ensures UpCount(cfg, xs, from, n) == |Beyond(cfg, xs, from, n, true)|
    ensures DownCount(cfg, xs, from, n) == |Beyond(cfg, xs, from, n, false)|
  {
    if from == n {
      assert Beyond(cfg, xs, from, n, true) == {} && Beyond(cfg, xs, from, n, false) == {};
    } else {
      CountsAreSets(cfg, xs, from, n - 1);
      BeyondStep(cfg, xs, from, n, true);
      BeyondStep(cfg, xs, from, n, false);
      BeyondIff(cfg, xs, n - 1, true);
      BeyondIff(cfg, xs, n - 1, false);
      hide Beyond, IsBeyond, Up, Down;
    }
  }

  lemma BeyondIff(cfg: Config, xs: seq<Input>, k: nat, up: bool)
    requires k < |xs| && cfg.atrMultiple * xs[k].atr >= 0.0
    ensures IsBeyond(cfg, xs, k, up) <==>
            Eligible(cfg, xs[k]) && if up then Up(cfg, Prev(xs, k), xs[k]) else Down(cfg, Prev(xs, k), xs[k])
  {
  }

  lemma BeyondStep(cfg: Config, xs: seq<Input>, from: nat, n: nat, up: bool)
    requires from < n <= |xs|
    ensures |Beyond(cfg, xs, from, n, up)| == |Beyond(cfg, xs, from, n - 1, up)| + if IsBeyond(cfg, xs, n - 1, up) then 1 else 0
  {
    hide IsBeyond;
    var was := Beyond(cfg, xs, from, n - 1, up);
    assert n - 1 !in was;
    assert Beyond(cfg, xs, from, n, up) == was + if IsBeyond(cfg, xs, n - 1, up) then {n - 1} else {};
  }

  /** A breakout the volume gate holds back: announced, not signalled, and the machine is unarmed after it. */
  lemma GateSpendsBreakout()
    ensures var cfg := Config(0.5, 0.0, 0.5, 1, 1, 0.0);
            var xs := [Input(10.0, false, 0.0, 0.0, 0.0, 0.0), Input(12.0, true, 0.0, 1.0, 1.0, -3.0)];
            var d := Decide(cfg, Run(cfg, xs, 1), xs[1]);
            && d.entry && d.signal == Hold && d.positionSize == 0.0 && d.armedRatio == 0.0
            && Up(cfg, 10.0, xs[1]) && Arm(cfg, Run(cfg, xs, 1), xs[1]).armed && !Run(cfg, xs, 2).armed
  {
    var cfg := Config(0.5, 0.0, 0.5, 1, 1, 0.0);
    var xs := [Input(10.0, false, 0.0, 0.0, 0.0, 0.0), Input(12.0, true, 0.0, 1.0, 1.0, -3.0)];
    assert Run(cfg, xs, 1) == Next(cfg, Run(cfg, xs, 0), xs[0]);
    assert Run(cfg, xs, 2) == Next(cfg, Run(cfg, xs, 1), xs[1]);
  }
}
