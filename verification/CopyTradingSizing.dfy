/** How large a copied order is and when it is skipped, in terms of the configuration and the two books alone. */
module CopyTradingSizing {
  import opened Prelude
  import opened CopyTrading

  /** What a position ties up: its size, long or short, at its entry price. */
  function TiedUp(p: Position): real
  {
    if p.qty < 0.0 then -(p.qty * p.avgEntry) else p.qty * p.avgEntry
  }

  /** The trade is against the held position: a buy while short, any other side while long. */
  predicate Against(b: Book, t: SourceTrade)
  {
    t.asset in b.positions && if t.side == "BUY" then b.positions[t.asset].qty < 0.0 else b.positions[t.asset].qty > 0.0
  }

  lemma {:induction false} SumAgree(f: Position -> real, g: Position -> real, m: Positions)
    requires forall k | k in m :: f(m[k]) == g(m[k])
    ensures Sum(f, m) == Sum(g, m)
    decreases |m|
  {
    if m != map[] {
      var k :| k in m;
      SumTake(f, m, k);
      SumTake(g, m, k);
      SumAgree(f, g, m - {k});
    }
  }

  lemma NotionalIsTiedUp(m: Positions)
    ensures Sum(Notional, m) == Sum(TiedUp, m)
  {
    forall k | k in m ensures Notional(m[k]) == TiedUp(m[k]) { OneNotional(m[k]); }
    SumAgree(Notional, TiedUp, m);
  }

  lemma OneNotional(p: Position)
    ensures Notional(p) == TiedUp(p)
  {
  }

  // ---- The amounts ----------------------------------------------------------------------------

  /** What may still be tied up: the running balance times the leverage, less what is tied up already. */
  ghost function Room(cfg: Config, b: Book): real
  {
    var free := b.running * cfg.leverage - Sum(TiedUp, b.positions);
    if free > 0.0 then free else 0.0
  }

  function Factor(cfg: Config): real
  {
    cfg.percentage * cfg.leverage
  }

  /** The configured share of the room, with the leverage applied once more. */
  ghost function Wanted(cfg: Config, b: Book): real
  {
    Room(cfg, b) * Factor(cfg)
  }

  /** What is ordered: no more than the maximum, if there is one. */
  ghost function Ordered(cfg: Config, b: Book): real
  {
    if 0 < cfg.maxOrderSize && cfg.maxOrderSize as real < Wanted(cfg, b) then cfg.maxOrderSize as real else Wanted(cfg, b)
  }

  /** No room, under the minimum before any cut to the maximum, over the room, or not at a positive price. */
  ghost predicate Skips(cfg: Config, b: Book, t: SourceTrade)
  {
    || t.price <= 0.0 || Room(cfg, b) == 0.0
    || (0 < cfg.minOrderSize && Wanted(cfg, b) < cfg.minOrderSize as real)
    || Ordered(cfg, b) > Room(cfg, b)
  }

  // ---- One trade ------------------------------------------------------------------------------

  /** From b to r the trade's asset grew by an amount of money: bought for cash, or sold short for cash. */
  ghost predicate Grew(b: Book, r: Book, t: SourceTrade, amount: real)
  {
    && t.price > 0.0 && amount > 0.0 && t.asset in r.positions
    && Sum(TiedUp, r.positions) == Sum(TiedUp, b.positions) + amount
    && (forall k | k != t.asset :: (k in r.positions <==> k in b.positions) && (k in b.positions ==> r.positions[k] == b.positions[k]))
    && r.positions[t.asset].qty == (if t.asset in b.positions then b.positions[t.asset].qty else 0.0)
                                   + (if t.side == "BUY" then amount / t.price else -(amount / t.price))
    && r.cash == (if t.side == "BUY" then b.cash - amount else b.cash + amount)
    && r.running == b.running && r.closed == b.closed && |r.records| == |b.records| + 1
  }

  lemma HeadroomIsRoom(cfg: Config, b: Book)
    ensures Headroom(cfg, b) == Room(cfg, b)
  {
    NotionalIsTiedUp(b.positions);
  }

  lemma QuotientProduct(size: real, price: real)
    requires price != 0.0
    ensures (size / price) * price == size
    ensures price > 0.0 ==> (size / price > 0.0 <==> size > 0.0)
    ensures price < 0.0 && size >= 0.0 ==> size / price <= 0.0
  {
  }

  lemma WantedSign(cfg: Config, b: Book)
    requires ValidConfig(cfg)
    ensures Wanted(cfg, b) >= 0.0 && (Wanted(cfg, b) > 0.0 <==> Room(cfg, b) > 0.0)
    ensures Room(cfg, b) * cfg.percentage * cfg.leverage == Wanted(cfg, b)
  {
    assert Room(cfg, b) >= 0.0;
    hide Room;
    PositiveProduct(cfg.percentage, cfg.leverage);
    PositiveProduct(Room(cfg, b), Factor(cfg));
    Associate(Room(cfg, b), cfg.percentage, cfg.leverage);
    assert Factor(cfg) == cfg.percentage * cfg.leverage;
    hide Factor;
  }

  lemma Associate(x: real, y: real, z: real)
    ensures x * y * z == x * (y * z)
  {
  }

  lemma PositiveProduct(x: real, y: real)
    requires x >= 0.0 && y > 0.0
    ensures x * y >= 0.0 && (x * y > 0.0 <==> x > 0.0)
  {
  }

  /** The size is the ordered amount, or zero below the minimum. */
  lemma SizeIsOrdered(cfg: Config, b: Book)
    requires ValidConfig(cfg)
    ensures CalculateOrderSize(Room(cfg, b), cfg.percentage, cfg.leverage, cfg.minOrderSize, cfg.maxOrderSize) ==
            if 0 < cfg.minOrderSize && Wanted(cfg, b) < cfg.minOrderSize as real then 0.0 else Ordered(cfg, b)
  {
    WantedSign(cfg, b);
    hide Room, Wanted;
  }

  lemma SizedIff(cfg: Config, b: Book, t: SourceTrade)
    requires ValidConfig(cfg) && t.price != 0.0
    ensures Sized(cfg, b, t) == if Skips(cfg, b, t) then None else Some(Ordered(cfg, b) / t.price)
    ensures !Skips(cfg, b, t) ==> Ordered(cfg, b) > 0.0
  {
    HeadroomIsRoom(cfg, b);
    WantedSign(cfg, b);
    SizeIsOrdered(cfg, b);
    assert Room(cfg, b) > 0.0 ==> Ordered(cfg, b) > 0.0;
    var size := CalculateOrderSize(Room(cfg, b), cfg.percentage, cfg.leverage, cfg.minOrderSize, cfg.maxOrderSize);
    QuotientProduct(size, t.price);
    assert Room(cfg, b) >= 0.0;
    hide Headroom, Room, Wanted, Ordered, CalculateOrderSize;
  }

  lemma GrewBy(b: Book, t: SourceTrade, amount: real)
    requires GoodPositions(b.positions) && !Against(b, t) && t.price > 0.0 && amount > 0.0 && amount / t.price > 0.0
    ensures Grew(b, Grow(b, t, amount / t.price), t, amount)
  {
    hide Sum, Average, Grow, Notional, Cost, TiedUp;
    var r, quantity := Grow(b, t, amount / t.price), amount / t.price;
    QuotientProduct(amount, t.price);
    GrowSums(b, t, quantity);
    GrowFields(b, t, quantity);
    GrowRest(b, t, quantity);
    NotionalIsTiedUp(b.positions);
    NotionalIsTiedUp(r.positions);
    hide Grown, GoodPositions;
  }

  lemma GrowRest(b: Book, t: SourceTrade, quantity: real)
    requires GoodPositions(b.positions) && !Against(b, t) && quantity > 0.0
    ensures var r := Grow(b, t, quantity);
            && r.running == b.running && r.closed == b.closed && |r.records| == |b.records| + 1
            && Grown(b.positions, t, quantity).qty == (if t.asset in b.positions then b.positions[t.asset].qty else 0.0)
                                                      + (if t.side == "BUY" then quantity else -quantity)
  {
    hide Average;
  }

  /**
  A trade that is not against the held position: it is skipped, leaving the book as it was, exactly under the four
  conditions; otherwise it ties up exactly the ordered amount more.
   */
  lemma OpeningTrade(cfg: Config, b: Book, t: SourceTrade)
    requires ValidConfig(cfg) && GoodPositions(b.positions) && !Against(b, t)
    ensures if Skips(cfg, b, t) then Step(cfg, b, t) == b else Grew(b, Step(cfg, b, t), t, Ordered(cfg, b))
  {
    if t.price != 0.0 {
      SizedIff(cfg, b, t);
      if !Skips(cfg, b, t) {
        QuotientProduct(Ordered(cfg, b), t.price);
        hide Room, Wanted, Ordered, Sized;
        GrewBy(b, t, Ordered(cfg, b));
      }
    }
  }

  /** A trade against the held position closes all of it at its price, whatever the configuration; a zero price is skipped. */
  lemma ClosingTrade(cfg: Config, b: Book, t: SourceTrade)
    requires Against(b, t)
    ensures var r, pos := Step(cfg, b, t), b.positions[t.asset];
            if t.price == 0.0 then r == b
            else
              && r.positions == b.positions - {t.asset}
              && r.cash == b.cash + pos.qty * t.price
              && r.running == b.running + (t.price - pos.avgEntry) * (if pos.qty < 0.0 then -pos.qty else pos.qty)
              && |r.closed| == |b.closed| + 1 && |r.records| == |b.records| + 1
  {
    assert -(b.positions[t.asset].qty) * t.price == -(b.positions[t.asset].qty * t.price);
  }

  /** A run starts with the configured balance, or 10000 if none is set, all in cash. */
  lemma StartsInCash(cfg: Config)
    ensures var b := Run(cfg, []);
            && b.cash == b.running == (if cfg.initialBalance == 0.0 then 10000.0 else cfg.initialBalance)
            && b.positions == map[] && b.closed == [] && b.records == []
  {
  }

  // ---- Whole runs -----------------------------------------------------------------------------

  lemma ProductExceeds(room: real, factor: real, product: real)
    requires room > 0.0 && factor > 1.0 && product == room * factor
    ensures product > room
  {
    assert room * (factor - 1.0) > 0.0;
  }

  lemma NeverFits(cfg: Config, b: Book, t: SourceTrade)
    requires cfg.maxOrderSize <= 0 && Factor(cfg) > 1.0
    ensures Skips(cfg, b, t)
  {
    assert Room(cfg, b) >= 0.0;
    hide Room, Factor;
    if Room(cfg, b) > 0.0 { ProductExceeds(Room(cfg, b), Factor(cfg), Wanted(cfg, b)); }
    hide Wanted;
  }

  /** The leverage counts twice: a share times leverage above one, with no maximum, never fits, and no run ever opens anything. */
  lemma {:induction false} OverleveragedNeverOpens(cfg: Config, trades: seq<SourceTrade>)
    requires ValidConfig(cfg) && cfg.maxOrderSize <= 0 && Factor(cfg) > 1.0
    ensures var b := Run(cfg, trades);
            b.positions == map[] && b.records == [] && b.closed == [] && b.cash == b.running == StartingBalance(cfg)
  {
    if trades != [] {
      var b, t := Run(cfg, trades[..|trades| - 1]), trades[|trades| - 1];
      OverleveragedNeverOpens(cfg, trades[..|trades| - 1]);
      OpeningTrade(cfg, b, t);
      NeverFits(cfg, b, t);
      assert Run(cfg, trades) == Step(cfg, b, t);
      hide Step, Run, Skips;
    }
  }
}
