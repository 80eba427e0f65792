/** When the running balance that sizes copy-trading orders is the realised equity, step by step. */
module CopyTradingEquity {
  import opened CopyTrading

  /** By how much the running balance is ahead of cash plus positions at cost. */
  ghost function Drift(b: Book): real
  {
    b.running - (b.cash + Sum(Cost, b.positions))
  }

  /** The guard: a buy that closes a short away from its average entry. */
  predicate Distorts(b: Book, t: SourceTrade)
  {
    t.price != 0.0 && Closes(b.positions, t) && IsBuy(t) && t.price != b.positions[t.asset].avgEntry
  }

  function Distortion(b: Book, t: SourceTrade): real
  {
    if Distorts(b, t) then 2.0 * ((t.price - b.positions[t.asset].avgEntry) * Abs(b.positions[t.asset].qty)) else 0.0
  }

  lemma ProductNotZero(x: real, y: real)
    requires x != 0.0 && y > 0.0
    ensures x * y != 0.0
  {
  }

  lemma DistortionSign(b: Book, t: SourceTrade)
    ensures Distortion(b, t) != 0.0 <==> Distorts(b, t)
  {
    if Distorts(b, t) { ProductNotZero(t.price - b.positions[t.asset].avgEntry, Abs(b.positions[t.asset].qty)); }
  }

  lemma CloseDrift(b: Book, t: SourceTrade)
    requires t.price != 0.0 && Closes(b.positions, t)
    ensures Drift(Close(b, t)) == Drift(b) + Distortion(b, t)
  {
    CloseCash(b, t);
    CloseRecord(b, t);
    var c, pos := Close(b, t).closed[|b.closed|], b.positions[t.asset];
    assert Close(b, t).running == b.running + c.pnl && c.pnl == (t.price - pos.avgEntry) * Abs(pos.qty);
    hide Abs, Realised, Cost;
  }

  lemma GrowDrift(b: Book, t: SourceTrade, quantity: real)
    requires GoodPositions(b.positions) && !Closes(b.positions, t) && quantity > 0.0 && t.price > 0.0
    ensures Drift(Grow(b, t, quantity)) == Drift(b)
  {
    GrowSums(b, t, quantity);
    hide Grown, Sum;
  }

  /** One source trade moves the drift exactly when it closes a short away from its entry, and by this much. */
  lemma StepDrift(cfg: Config, b: Book, t: SourceTrade)
    requires ValidConfig(cfg) && GoodPositions(b.positions)
    ensures Drift(Step(cfg, b, t)) == Drift(b) + Distortion(b, t)
    ensures Drift(Step(cfg, b, t)) == Drift(b) <==> !Distorts(b, t)
  {
    DistortionSign(b, t);
    if t.price != 0.0 {
      if Closes(b.positions, t) {
        CloseDrift(b, t);
      } else if Sized(cfg, b, t).Some? {
        SizedIsPositive(cfg, b, t);
        GrowDrift(b, t, Sized(cfg, b, t).value);
      }
    }
  }

  ghost predicate EquityThroughout(cfg: Config, trades: seq<SourceTrade>)
  {
    forall n :: 0 <= n <= |trades| ==> Drift(Run(cfg, trades[..n])) == 0.0
  }

  ghost predicate NeverDistorts(cfg: Config, trades: seq<SourceTrade>)
  {
    forall n :: 0 <= n < |trades| ==> !Distorts(Run(cfg, trades[..n]), trades[n])
  }

  lemma RunStep(cfg: Config, trades: seq<SourceTrade>, n: nat)
    requires ValidConfig(cfg) && n < |trades|
    ensures Drift(Run(cfg, trades[..n + 1])) == Drift(Run(cfg, trades[..n])) <==> !Distorts(Run(cfg, trades[..n]), trades[n])
  {
    assert trades[..n + 1][..n] == trades[..n];
    RunsKeepBooks(cfg, trades[..n]);
    StepDrift(cfg, Run(cfg, trades[..n]), trades[n]);
  }

  lemma {:induction false} EquityUpTo(cfg: Config, trades: seq<SourceTrade>, n: nat)
    requires ValidConfig(cfg) && NeverDistorts(cfg, trades) && n <= |trades|
    ensures Drift(Run(cfg, trades[..n])) == 0.0
  {
    if n > 0 {
      EquityUpTo(cfg, trades, n - 1);
      RunStep(cfg, trades, n - 1);
    }
  }

  /** The sizing balance is the realised equity all along a run iff no buy closes a short away from its entry. */
  lemma EquityThroughoutIff(cfg: Config, trades: seq<SourceTrade>)
    requires ValidConfig(cfg)
    ensures EquityThroughout(cfg, trades) <==> NeverDistorts(cfg, trades)
  {
    if NeverDistorts(cfg, trades) {
      forall n | 0 <= n <= |trades| ensures Drift(Run(cfg, trades[..n])) == 0.0 { EquityUpTo(cfg, trades, n); }
    }
    if EquityThroughout(cfg, trades) {
      forall n | 0 <= n < |trades| ensures !Distorts(Run(cfg, trades[..n]), trades[n]) { RunStep(cfg, trades, n); }
    }
  }
}
