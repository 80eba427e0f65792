/** The trade log of a copy-trading backtest is complete: replaying it rebuilds the cash and every net position. */
module CopyTradingLog {
  import opened CopyTrading

  function Signed(r: TradeRecord): real
  {
    if r.buy then r.quantity else -r.quantity
  }

  /** What a trade pays or receives. */
  function Paid(r: TradeRecord): real
  {
    if r.buy then r.quantity * r.price else -(r.quantity * r.price)
  }

  function LogCash(start: real, log: seq<TradeRecord>): real
  {
    if log == [] then start else LogCash(start, log[..|log| - 1]) - Paid(log[|log| - 1])
  }

  function Net(log: seq<TradeRecord>, asset: string): real
  {
    if log == [] then 0.0
    else
      var r := log[|log| - 1];
      Net(log[..|log| - 1], asset) + if r.asset == asset then Signed(r) else 0.0
  }

  function Held(positions: Positions, asset: string): real
  {
    if asset in positions then positions[asset].qty else 0.0
  }

  /** Each row carries the cash before its trade and the position after it. */
  ghost predicate RowsRight(start: real, log: seq<TradeRecord>)
  {
    forall k :: 0 <= k < |log| ==>
                  log[k].cash == LogCash(start, log[..k]) && log[k].openPosition == Net(log[..k + 1], log[k].asset)
  }

  ghost predicate LogInv(cfg: Config, b: Book)
  {
    && b.cash == LogCash(StartingBalance(cfg), b.records)
    && (forall asset :: Net(b.records, asset) == Held(b.positions, asset))
    && RowsRight(StartingBalance(cfg), b.records)
  }

  lemma Snoc(start: real, log: seq<TradeRecord>, r: TradeRecord, asset: string)
    ensures LogCash(start, log + [r]) == LogCash(start, log) - Paid(r)
    ensures Net(log + [r], asset) == Net(log, asset) + if r.asset == asset then Signed(r) else 0.0
  {
    assert (log + [r])[..|log|] == log;
  }

  lemma RowsSnoc(start: real, log: seq<TradeRecord>, r: TradeRecord)
    requires RowsRight(start, log) && r.cash == LogCash(start, log) && r.openPosition == Net(log + [r], r.asset)
    ensures RowsRight(start, log + [r])
  {
    hide Paid, Signed;
    var all := log + [r];
    forall k | 0 <= k < |all|
      ensures all[k].cash == LogCash(start, all[..k]) && all[k].openPosition == Net(all[..k + 1], all[k].asset)
    {
      if k < |log| {
        assert all[..k] == log[..k] && all[..k + 1] == log[..k + 1];
      } else {
        assert all[..k] == log && all[..k + 1] == all;
      }
    }
  }

  lemma Logged(cfg: Config, b: Book, v: Book, r: TradeRecord)
    requires LogInv(cfg, b) && v.records == b.records + [r] && r.cash == b.cash && v.cash == b.cash - Paid(r)
    requires forall a :: Held(v.positions, a) == Held(b.positions, a) + if a == r.asset then Signed(r) else 0.0
    requires r.openPosition == Held(v.positions, r.asset)
    ensures LogInv(cfg, v)
  {
    hide Paid, Signed, LogCash, Net, Held, RowsRight, StartingBalance;
    var start := StartingBalance(cfg);
    forall a ensures Net(v.records, a) == Held(v.positions, a) {
      assert Net(b.records, a) == Held(b.positions, a);
      Snoc(start, b.records, r, a);
    }
    Snoc(start, b.records, r, r.asset);
    RowsSnoc(start, b.records, r);
  }

  lemma CloseLogs(cfg: Config, b: Book, t: SourceTrade)
    requires LogInv(cfg, b) && Closes(b.positions, t)
    ensures LogInv(cfg, Close(b, t))
  {
    var v := Close(b, t);
    Logged(cfg, b, v, v.records[|b.records|]);
  }

  lemma GrowLogs(cfg: Config, b: Book, t: SourceTrade, quantity: real)
    requires LogInv(cfg, b) && !Closes(b.positions, t) && quantity > 0.0
    ensures LogInv(cfg, Grow(b, t, quantity))
  {
    hide Average;
    var v := Grow(b, t, quantity);
    Logged(cfg, b, v, v.records[|b.records|]);
  }

  /** After every run the log replays to the book, row by row. */
  lemma {:induction false} LogReplays(cfg: Config, trades: seq<SourceTrade>)
    ensures LogInv(cfg, Run(cfg, trades))
  {
    if trades != [] {
      LogReplays(cfg, trades[..|trades| - 1]);
      StepLogs(cfg, Run(cfg, trades[..|trades| - 1]), trades[|trades| - 1]);
    }
  }

  lemma StepLogs(cfg: Config, b: Book, t: SourceTrade)
    requires LogInv(cfg, b)
    ensures LogInv(cfg, Step(cfg, b, t))
  {
    if t.price != 0.0 {
      if Closes(b.positions, t) {
        CloseLogs(cfg, b, t);
      } else if Sized(cfg, b, t).Some? {
        GrowLogs(cfg, b, t, Sized(cfg, b, t).value);
      }
    }
  }
}
