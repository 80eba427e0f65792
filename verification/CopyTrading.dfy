/**
The copy-trading backtest ledger: cash, a map of signed positions with weighted-average entries, a
headroom cap on deployed notional, and a compounding balance of recorded profit and loss.
 */
module CopyTrading {
  import opened Prelude

  datatype SourceTrade = SourceTrade(asset: string, side: string, price: real, at: int)

  /** A negative quantity is a short. */
  datatype Position = Position(qty: real, avgEntry: real, openTime: int)

  datatype ClosedTrade = ClosedTrade(asset: string, wasLong: bool, quantity: real, entryPrice: real, exitPrice: real,
                                     pnl: real, entryBalance: real, openTime: int, closeTime: int)

  /** `cash` is the balance before the trade; `openPosition` the quantity after it. */
  datatype TradeRecord = TradeRecord(asset: string, buy: bool, quantity: real, price: real, cash: real, openPosition: real)

  datatype Config = Config(initialBalance: real, percentage: real, leverage: real, minOrderSize: int, maxOrderSize: int)

  type Positions = map<string, Position>

  datatype Book = Book(cash: real, running: real, positions: Positions, closed: seq<ClosedTrade>, records: seq<TradeRecord>)

  /** The range the configuration decoder admits. */
  ghost predicate ValidConfig(cfg: Config)
  {
    0.0 < cfg.percentage <= 1.0 && cfg.leverage > 0.0
  }

  function StartingBalance(cfg: Config): real
  {
    if cfg.initialBalance != 0.0 then cfg.initialBalance else 10000.0
  }

  function Abs(x: real): real
  {
    if x < 0.0 then -x else x
  }

  /** What a position ties up at its entry price, and what it adds to equity at cost. */
  function Notional(p: Position): real { Abs(p.qty) * p.avgEntry }

  function Cost(p: Position): real { p.qty * p.avgEntry }

  // ---- Sums over the position map -----------------------------------------------------------

  ghost function Sum(f: Position -> real, m: Positions): real
  {
    if m == map[] then 0.0
    else
      var k :| k in m;
      f(m[k]) + Sum(f, m - {k})
  }

  /** Any key may be taken out first. */
  lemma {:induction false} SumTake(f: Position -> real, m: Positions, k: string)
    requires k in m
    ensures Sum(f, m) == f(m[k]) + Sum(f, m - {k})
    decreases |m|
  {
    var j :| j in m && Sum(f, m) == f(m[j]) + Sum(f, m - {j});
    if j != k {
      SumTake(f, m - {j}, k);
      SumTake(f, m - {k}, j);
      assert m - {j} - {k} == m - {k} - {j};
    }
  }

  lemma SumPut(f: Position -> real, m: Positions, k: string, p: Position)
    ensures Sum(f, m[k := p]) == f(p) + (if k in m then Sum(f, m) - f(m[k]) else Sum(f, m))
  {
    SumTake(f, m[k := p], k);
    assert m[k := p] - {k} == m - {k};
    if k in m { SumTake(f, m, k); } else { assert m - {k} == m; }
  }

  // ---- One source trade ---------------------------------------------------------------------

  ghost function Headroom(cfg: Config, b: Book): real
  {
    var avail := b.running * cfg.leverage - Sum(Notional, b.positions);
    if avail < 0.0 then 0.0 else avail
  }

  function CalculateOrderSize(available: real, percentage: real, leverage: real, minOrderSize: int, maxOrderSize: int): real
  {
    var size := available * percentage * leverage;
    if minOrderSize > 0 && size < minOrderSize as real then 0.0
    else if maxOrderSize > 0 && size > maxOrderSize as real then maxOrderSize as real
    else size
  }

  predicate IsBuy(t: SourceTrade)
  {
    t.side == "BUY"
  }

  predicate Closes(positions: Positions, t: SourceTrade)
  {
    t.asset in positions && if IsBuy(t) then positions[t.asset].qty < 0.0 else positions[t.asset].qty > 0.0
  }

  function Close(b: Book, t: SourceTrade): Book
    requires Closes(b.positions, t)
  {
    var pos := b.positions[t.asset];
    var q := Abs(pos.qty);
    var pnl := (t.price - pos.avgEntry) * q;
    Book(if IsBuy(t) then b.cash - q * t.price else b.cash + q * t.price,
         b.running + pnl,
         b.positions - {t.asset},
         b.closed + [ClosedTrade(t.asset, !IsBuy(t), q, pos.avgEntry, t.price, pnl, b.running, pos.openTime, t.at)],
         b.records + [TradeRecord(t.asset, IsBuy(t), q, t.price, b.cash, 0.0)])
  }

  function Average(heldQty: real, heldPrice: real, newQty: real, newPrice: real): real
    requires heldQty + newQty != 0.0
  {
    (heldQty * heldPrice + newQty * newPrice) / (heldQty + newQty)
  }

  /** The position after adding a signed quantity at a price: fresh, or averaged by cost. */
  function Grown(positions: Positions, t: SourceTrade, quantity: real): Position
    requires !Closes(positions, t) && quantity > 0.0
  {
    var signed := if IsBuy(t) then quantity else -quantity;
    if t.asset !in positions || positions[t.asset].qty == 0.0 then Position(signed, t.price, t.at)
    else
      var was := positions[t.asset];
      var total := Abs(was.qty) + quantity;
      was.(qty := if IsBuy(t) then total else -total,
           avgEntry := Average(Abs(was.qty), was.avgEntry, quantity, t.price))
  }

  function Grow(b: Book, t: SourceTrade, quantity: real): Book
    requires !Closes(b.positions, t) && quantity > 0.0
  {
    var pos := Grown(b.positions, t, quantity);
    b.(cash := if IsBuy(t) then b.cash - quantity * t.price else b.cash + quantity * t.price,
       positions := b.positions[t.asset := pos],
       records := b.records + [TradeRecord(t.asset, IsBuy(t), quantity, t.price, b.cash, pos.qty)])
  }

  /** The quantity a non-closing trade is sized to; None when the trade is skipped. */
  ghost function Sized(cfg: Config, b: Book, t: SourceTrade): Option<real>
    requires t.price != 0.0
  {
    var headroom := Headroom(cfg, b);
    var quantity := CalculateOrderSize(headroom, cfg.percentage, cfg.leverage, cfg.minOrderSize, cfg.maxOrderSize) / t.price;
    if headroom == 0.0 || quantity * t.price > headroom || quantity <= 0.0 then None else Some(quantity)
  }

  ghost function Step(cfg: Config, b: Book, t: SourceTrade): Book
  {
    if t.price == 0.0 then b
    else if Closes(b.positions, t) then Close(b, t)
    else
      match Sized(cfg, b, t)
      case None => b
      case Some(quantity) => Grow(b, t, quantity)
  }

  ghost function Initial(cfg: Config): Book
  {
    Book(StartingBalance(cfg), StartingBalance(cfg), map[], [], [])
  }

  ghost function Run(cfg: Config, trades: seq<SourceTrade>): Book
  {
    if trades == [] then Initial(cfg) else Step(cfg, Run(cfg, trades[..|trades| - 1]), trades[|trades| - 1])
  }

  method TotalNotional(positions: Positions) returns (deployed: real)
    ensures deployed == Sum(Notional, positions)
  {
    deployed := 0.0;
    var left := positions;
    while left != map[]
      invariant deployed + Sum(Notional, left) == Sum(Notional, positions)
      decreases |left|
    {
      var k :| k in left.Keys;
      SumTake(Notional, left, k);
      deployed := deployed + Notional(left[k]);
      left := left - {k};
    }
  }

  // ---- The simulation loop ------------------------------------------------------------------

  class Backtester {
    const cfg: Config
    var cash: real
    var runningBalance: real
    var positions: Positions
    var closedTrades: seq<ClosedTrade>
    var tradeRecords: seq<TradeRecord>

    ghost function View(): Book
      reads this
    {
      Book(cash, runningBalance, positions, closedTrades, tradeRecords)
    }

    constructor (cfg: Config)
      ensures this.cfg == cfg && View() == Initial(cfg)
    {
      this.cfg := cfg;
      cash, runningBalance := StartingBalance(cfg), StartingBalance(cfg);
      positions, closedTrades, tradeRecords := map[], [], [];
    }

    /** The notional still deployable; positions are visited in no particular order. */
    method AvailableForNewPos() returns (avail: real)
      ensures avail == Headroom(cfg, View())
    {
      var deployed := TotalNotional(positions);
      avail := runningBalance * cfg.leverage - deployed;
      if avail < 0.0 { avail := 0.0; }
    }

    method ClosePosition(t: SourceTrade)
      requires Closes(positions, t)
      modifies this
      ensures View() == Close(old(View()), t)
    {
      var pos, preCloseCash := positions[t.asset], cash;
      var closeQty := Abs(pos.qty);
      var pnl := (t.price - pos.avgEntry) * closeQty;
      closedTrades := closedTrades + [ClosedTrade(t.asset, !IsBuy(t), closeQty, pos.avgEntry, t.price, pnl,
                                                  runningBalance, pos.openTime, t.at)];
      if IsBuy(t) {
        cash := cash - closeQty * t.price;
      } else {
        cash := cash + closeQty * t.price;
      }
      tradeRecords := tradeRecords + [TradeRecord(t.asset, IsBuy(t), closeQty, t.price, preCloseCash, 0.0)];
      positions := positions - {t.asset};
      runningBalance := runningBalance + pnl;
    }

    method OpenOrExtend(t: SourceTrade, ourQty: real)
      requires !Closes(positions, t) && ourQty > 0.0
      modifies this
      ensures View() == Grow(old(View()), t, ourQty)
    {
      var preTradeCash := cash;
      if IsBuy(t) {
        cash := cash - ourQty * t.price;
      } else {
        cash := cash + ourQty * t.price;
      }
      var pos;
      if t.asset !in positions || positions[t.asset].qty == 0.0 {
        pos := Position(if IsBuy(t) then ourQty else -ourQty, t.price, t.at);
      } else {
        var was := positions[t.asset];
        var totalQty := Abs(was.qty) + ourQty;
        pos := was.(qty := if IsBuy(t) then totalQty else -totalQty,
                    avgEntry := Average(Abs(was.qty), was.avgEntry, ourQty, t.price));
      }
      positions := positions[t.asset := pos];
      tradeRecords := tradeRecords + [TradeRecord(t.asset, IsBuy(t), ourQty, t.price, preTradeCash, pos.qty)];
    }

    method ApplySourceTrade(t: SourceTrade)
      modifies this
      ensures View() == Step(cfg, old(View()), t)
    {
      if t.price == 0.0 { return; }
      if Closes(positions, t) {
        ClosePosition(t);
        return;
      }
      var headroom := AvailableForNewPos();
      if headroom == 0.0 { return; }
      var ourQty := CalculateOrderSize(headroom, cfg.percentage, cfg.leverage, cfg.minOrderSize, cfg.maxOrderSize) / t.price;
      if ourQty * t.price > headroom || ourQty <= 0.0 { return; }
      OpenOrExtend(t, ourQty);
    }

    method Simulate(trades: seq<SourceTrade>)
      requires View() == Initial(cfg)
      modifies this
      ensures View() == Run(cfg, trades)
    {
      for i := 0 to |trades|
        invariant View() == Run(cfg, trades[..i])
      {
        assert trades[..i + 1][..i] == trades[..i];
        ApplySourceTrade(trades[i]);
      }
      assert trades[..|trades|] == trades;
    }
  }

  // ---- Invariants of every run --------------------------------------------------------------

  /** The profit a close really makes: a long sells higher, a short buys back lower. */
  function Realised(c: ClosedTrade): real
  {
    if c.wasLong then (c.exitPrice - c.entryPrice) * c.quantity else (c.entryPrice - c.exitPrice) * c.quantity
  }

  function TotalRealised(closed: seq<ClosedTrade>): real
  {
    if closed == [] then 0.0 else TotalRealised(closed[..|closed| - 1]) + Realised(closed[|closed| - 1])
  }

  function TotalRecorded(closed: seq<ClosedTrade>): real
  {
    if closed == [] then 0.0 else TotalRecorded(closed[..|closed| - 1]) + closed[|closed| - 1].pnl
  }

  function RecordedShort(closed: seq<ClosedTrade>): real
  {
    if closed == [] then 0.0
    else RecordedShort(closed[..|closed| - 1]) + if closed[|closed| - 1].wasLong then 0.0 else closed[|closed| - 1].pnl
  }

  ghost predicate GoodPositions(m: Positions)
  {
    forall k | k in m :: m[k].qty != 0.0 && m[k].avgEntry > 0.0
  }

  /**
  Cash plus all positions at cost is the starting balance plus the profit really made; the running
  balance is the starting balance plus the profit recorded; each close starts from all recorded before it.
   */
  ghost predicate BookInv(cfg: Config, b: Book)
  {
    && GoodPositions(b.positions)
    && b.cash + Sum(Cost, b.positions) == StartingBalance(cfg) + TotalRealised(b.closed)
    && b.running == StartingBalance(cfg) + TotalRecorded(b.closed)
    && (forall k :: 0 <= k < |b.closed| ==>
          && b.closed[k].entryBalance == StartingBalance(cfg) + TotalRecorded(b.closed[..k])
          && b.closed[k].pnl == if b.closed[k].wasLong then Realised(b.closed[k]) else -Realised(b.closed[k]))
  }

  lemma TotalsSnoc(closed: seq<ClosedTrade>, c: ClosedTrade)
    ensures TotalRealised(closed + [c]) == TotalRealised(closed) + Realised(c)
    ensures TotalRecorded(closed + [c]) == TotalRecorded(closed) + c.pnl
  {
    assert (closed + [c])[..|closed|] == closed;
  }

  lemma CloseCash(b: Book, t: SourceTrade)
    requires Closes(b.positions, t)
    ensures var r := Close(b, t);
            r.cash + Sum(Cost, r.positions) == b.cash + Sum(Cost, b.positions) + Realised(r.closed[|b.closed|])
  {
    SumTake(Cost, b.positions, t.asset);
    CloseMoney(b.positions[t.asset], t.price, IsBuy(t));
  }

  lemma CloseRecord(b: Book, t: SourceTrade)
    requires Closes(b.positions, t)
    ensures var c := Close(b, t).closed[|b.closed|]; c.pnl == if c.wasLong then Realised(c) else -Realised(c)
  {
    CloseMoney(b.positions[t.asset], t.price, IsBuy(t));
  }

  /** One more close, with its entry balance and signed profit in order, keeps the books. */
  lemma BooksAfterClose(cfg: Config, b: Book, r: Book, c: ClosedTrade)
    requires BookInv(cfg, b) && GoodPositions(r.positions) && r.closed == b.closed + [c]
    requires r.cash + Sum(Cost, r.positions) == b.cash + Sum(Cost, b.positions) + Realised(c)
    requires r.running == b.running + c.pnl && c.entryBalance == b.running
    requires c.pnl == if c.wasLong then Realised(c) else -Realised(c)
    ensures BookInv(cfg, r)
  {
    TotalsSnoc(b.closed, c);
    assert r.closed[..|b.closed|] == b.closed;
    assert forall k :: 0 <= k < |b.closed| ==> r.closed[k] == b.closed[k] && r.closed[..k] == b.closed[..k];
  }

  lemma CloseKeeps(cfg: Config, b: Book, t: SourceTrade)
    requires BookInv(cfg, b) && Closes(b.positions, t)
    ensures BookInv(cfg, Close(b, t))
  {
    var r := Close(b, t);
    CloseCash(b, t);
    CloseRecord(b, t);
    BooksAfterClose(cfg, b, r, r.closed[|b.closed|]);
  }

  /** The cash a close moves is the position's cost plus its real profit. */
  lemma CloseMoney(pos: Position, price: real, buy: bool)
    requires if buy then pos.qty < 0.0 else pos.qty > 0.0
    ensures var q := Abs(pos.qty);
            (if buy then -(q * price) else q * price) ==
            Cost(pos) + (if buy then (pos.avgEntry - price) * q else (price - pos.avgEntry) * q)
    ensures (pos.avgEntry - price) * Abs(pos.qty) == -((price - pos.avgEntry) * Abs(pos.qty))
  {
  }

  lemma AverageCost(heldQty: real, heldPrice: real, newQty: real, newPrice: real)
    requires heldQty > 0.0 && newQty > 0.0
    ensures (heldQty + newQty) * Average(heldQty, heldPrice, newQty, newPrice) == heldQty * heldPrice + newQty * newPrice
    ensures heldPrice > 0.0 && newPrice > 0.0 ==> Average(heldQty, heldPrice, newQty, newPrice) > 0.0
  {
    if heldPrice > 0.0 && newPrice > 0.0 {
      assert heldQty * heldPrice > 0.0 && newQty * newPrice > 0.0;
    }
  }

  /** An open or an extension moves exactly its cost from cash into the position. */
  lemma GrowMoney(positions: Positions, t: SourceTrade, quantity: real)
    requires GoodPositions(positions) && !Closes(positions, t) && quantity > 0.0
    ensures var pos, cost := Grown(positions, t, quantity), quantity * t.price;
            && Notional(pos) == cost + (if t.asset in positions then Notional(positions[t.asset]) else 0.0)
            && Cost(pos) == (if IsBuy(t) then cost else -cost)
                            + (if t.asset in positions then Cost(positions[t.asset]) else 0.0)
            && (if IsBuy(t) then pos.qty > 0.0 else pos.qty < 0.0)
            && (t.price > 0.0 ==> pos.avgEntry > 0.0)
  {
    if t.asset in positions {
      var was := positions[t.asset];
      AverageCost(Abs(was.qty), was.avgEntry, quantity, t.price);
      var pos := Grown(positions, t, quantity);
      assert Notional(pos) == Abs(pos.qty) * pos.avgEntry;
      assert Cost(pos) == if IsBuy(t) then Notional(pos) else -Notional(pos);
      assert Cost(was) == if IsBuy(t) then Notional(was) else -Notional(was);
    }
  }

  lemma NegativePrice(size: real, price: real)
    requires size >= 0.0 && price != 0.0
    ensures size / price > 0.0 ==> price > 0.0
  {
  }

  lemma SizedIsPositive(cfg: Config, b: Book, t: SourceTrade)
    requires ValidConfig(cfg) && t.price != 0.0 && Sized(cfg, b, t).Some?
    ensures t.price > 0.0 && Sized(cfg, b, t).value > 0.0
    ensures Sized(cfg, b, t).value * t.price <= Headroom(cfg, b) == b.running * cfg.leverage - Sum(Notional, b.positions)
  {
    var headroom := Headroom(cfg, b);
    var size := CalculateOrderSize(headroom, cfg.percentage, cfg.leverage, cfg.minOrderSize, cfg.maxOrderSize);
    assert headroom * cfg.percentage * cfg.leverage >= 0.0;
    NegativePrice(size, t.price);
  }

  lemma BooksAfterGrow(cfg: Config, b: Book, r: Book)
    requires BookInv(cfg, b) && GoodPositions(r.positions) && r.closed == b.closed && r.running == b.running
    requires r.cash + Sum(Cost, r.positions) == b.cash + Sum(Cost, b.positions)
    ensures BookInv(cfg, r)
  {
  }

  /** An open or extension that fits the headroom ends with all deployed notional under the leverage cap. */
  lemma GrowUnderCap(b: Book, t: SourceTrade, quantity: real, cap: real)
    requires GoodPositions(b.positions) && !Closes(b.positions, t) && quantity > 0.0 && t.price > 0.0
    requires quantity * t.price <= cap - Sum(Notional, b.positions)
    ensures Sum(Notional, Grow(b, t, quantity).positions) <= cap
  {
    GrowSums(b, t, quantity);
  }

  lemma GrowKeeps(cfg: Config, b: Book, t: SourceTrade, quantity: real)
    requires BookInv(cfg, b) && !Closes(b.positions, t) && quantity > 0.0 && t.price > 0.0
    ensures BookInv(cfg, Grow(b, t, quantity))
  {
    GrowSums(b, t, quantity);
    BooksAfterGrow(cfg, b, Grow(b, t, quantity));
  }

  /** Replacing one position moves each sum by the change of that position. */
  lemma PutSums(m: Positions, k: string, pos: Position, cost: real, signed: real)
    requires GoodPositions(m) && pos.qty != 0.0 && pos.avgEntry > 0.0
    requires Notional(pos) == cost + (if k in m then Notional(m[k]) else 0.0)
    requires Cost(pos) == signed + (if k in m then Cost(m[k]) else 0.0)
    ensures GoodPositions(m[k := pos])
    ensures Sum(Cost, m[k := pos]) == Sum(Cost, m) + signed
    ensures Sum(Notional, m[k := pos]) == Sum(Notional, m) + cost
  {
    SumPut(Cost, m, k, pos);
    SumPut(Notional, m, k, pos);
  }

  lemma GrowFields(b: Book, t: SourceTrade, quantity: real)
    requires !Closes(b.positions, t) && quantity > 0.0
    ensures var r := Grow(b, t, quantity);
            && r.cash == b.cash - (if IsBuy(t) then quantity * t.price else -(quantity * t.price))
            && r.positions == b.positions[t.asset := Grown(b.positions, t, quantity)]
  {
    hide Average;
  }

  lemma GrowSums(b: Book, t: SourceTrade, quantity: real)
    requires GoodPositions(b.positions) && !Closes(b.positions, t) && quantity > 0.0 && t.price > 0.0
    ensures var r := Grow(b, t, quantity);
            && GoodPositions(r.positions)
            && r.cash + Sum(Cost, r.positions) == b.cash + Sum(Cost, b.positions)
            && Sum(Notional, r.positions) == Sum(Notional, b.positions) + quantity * t.price
  {
    var cost := quantity * t.price;
    GrowMoney(b.positions, t, quantity);
    GrowFields(b, t, quantity);
    hide Average, Notional, Cost, Grow, Grown, Sum, Abs;
    PutSums(b.positions, t.asset, Grown(b.positions, t, quantity), cost, if IsBuy(t) then cost else -cost);
  }

  /** Every source trade keeps the books, from any book that is in order. */
  lemma StepKeeps(cfg: Config, b: Book, t: SourceTrade)
    requires ValidConfig(cfg) && BookInv(cfg, b)
    ensures BookInv(cfg, Step(cfg, b, t))
  {
    if t.price != 0.0 {
      if Closes(b.positions, t) { CloseKeeps(cfg, b, t); }
      else if Sized(cfg, b, t).Some? {
        SizedIsPositive(cfg, b, t);
        GrowKeeps(cfg, b, t, Sized(cfg, b, t).value);
      }
    }
  }

  lemma {:induction false} RunsKeepBooks(cfg: Config, trades: seq<SourceTrade>)
    requires ValidConfig(cfg)
    ensures BookInv(cfg, Run(cfg, trades))
  {
    if trades != [] {
      RunsKeepBooks(cfg, trades[..|trades| - 1]);
      StepKeeps(cfg, Run(cfg, trades[..|trades| - 1]), trades[|trades| - 1]);
    }
  }

  lemma StepUnderCap(cfg: Config, b: Book, t: SourceTrade)
    requires ValidConfig(cfg) && GoodPositions(b.positions)
    ensures var r := Step(cfg, b, t);
            r.records != b.records && !Closes(b.positions, t) ==> Sum(Notional, r.positions) <= r.running * cfg.leverage
  {
    if t.price != 0.0 && !Closes(b.positions, t) && Sized(cfg, b, t).Some? {
      SizedIsPositive(cfg, b, t);
      hide Sized, Grow;
      GrowUnderCap(b, t, Sized(cfg, b, t).value, b.running * cfg.leverage);
    }
  }

  /** In every run, a trade that adds to a position leaves the deployed notional within equity x leverage. */
  lemma OpensStayUnderCap(cfg: Config, trades: seq<SourceTrade>, t: SourceTrade)
    requires ValidConfig(cfg)
    ensures var b := Run(cfg, trades);
            var r := Run(cfg, trades + [t]);
            r.records != b.records && !Closes(b.positions, t) ==> Sum(Notional, r.positions) <= r.running * cfg.leverage
  {
    hide Step;
    assert (trades + [t])[..|trades|] == trades;
    RunsKeepBooks(cfg, trades);
    StepUnderCap(cfg, Run(cfg, trades), t);
  }

  /** One source trade never turns a long into a short or back, and touches no other asset. */
  lemma NeverFlips(cfg: Config, b: Book, t: SourceTrade)
    requires ValidConfig(cfg) && BookInv(cfg, b)
    ensures var r := Step(cfg, b, t);
            && (t.asset in b.positions && t.asset in r.positions ==>
                  (b.positions[t.asset].qty > 0.0 <==> r.positions[t.asset].qty > 0.0))
            && forall k | k != t.asset :: (k in r.positions <==> k in b.positions)
                                          && (k in b.positions ==> r.positions[k] == b.positions[k])
  {
    if t.price != 0.0 && !Closes(b.positions, t) && Sized(cfg, b, t).Some? {
      SizedIsPositive(cfg, b, t);
      GrowMoney(b.positions, t, Sized(cfg, b, t).value);
    }
  }

  lemma {:induction false} ShortsSplit(closed: seq<ClosedTrade>)
    requires forall k :: 0 <= k < |closed| ==>
               closed[k].pnl == if closed[k].wasLong then Realised(closed[k]) else -Realised(closed[k])
    ensures TotalRecorded(closed) - TotalRealised(closed) == 2.0 * RecordedShort(closed)
  {
    if closed != [] { ShortsSplit(closed[..|closed| - 1]); }
  }

  /**
  The running balance that sizes every order is the realised equity (cash plus positions at cost) iff
  the recorded profit and loss of all closed shorts sums to zero: shorts are recorded with the sign of a long.
   */
  lemma RunningBalanceIsEquityIff(cfg: Config, trades: seq<SourceTrade>)
    requires ValidConfig(cfg)
    ensures var b := Run(cfg, trades);
            && b.running - (b.cash + Sum(Cost, b.positions)) == 2.0 * RecordedShort(b.closed)
            && (b.running == b.cash + Sum(Cost, b.positions) <==> RecordedShort(b.closed) == 0.0)
  {
    RunsKeepBooks(cfg, trades);
    ShortsSplit(Run(cfg, trades).closed);
  }

  /** A short sold at 100 and bought back at 80 ends with 12000 in cash and a running balance of 8000. */
  lemma ProfitableShortIsRecordedAsLoss()
    ensures var b := Run(Config(10000.0, 1.0, 1.0, 0, 0),
                         [SourceTrade("x", "SELL", 100.0, 0), SourceTrade("x", "BUY", 80.0, 1)]);
            b.cash == 12000.0 && b.running == 8000.0 && b.positions == map[]
  {
    var cfg := Config(10000.0, 1.0, 1.0, 0, 0);
    var sell, buy := SourceTrade("x", "SELL", 100.0, 0), SourceTrade("x", "BUY", 80.0, 1);
    assert [sell, buy][..1] == [sell] && [sell][..0] == [];
    assert IsBuy(buy) && !IsBuy(sell) by { assert "SELL"[0] != "BUY"[0]; }
    var b0 := Initial(cfg);
    assert Run(cfg, [sell]) == Step(cfg, b0, sell);
    assert Sized(cfg, b0, sell) == Some(100.0);
    var b1 := Step(cfg, b0, sell);
    assert b1.positions == map["x" := Position(-100.0, 100.0, 0)] && b1.cash == 20000.0;
    assert Run(cfg, [sell, buy]) == Close(b1, buy);
  }
}
