/**
Fills against the exchange's own order list: what TotalFilled is after a crash, a restart and a reconcile pass that
the exchange answers.
 */
module ExecFills {
  import opened Prelude
  import opened ExecLedger
  import opened ExecRecovery

  /** What the exchange answers about an order id. */
  function AnswerOf(exchange: seq<ExchangeOrder>, id: string): Answer
  {
    if exchange == [] then Answer(Open, 0.0)
    else
      var o := exchange[|exchange| - 1];
      if o.orderID == id then Answer(o.status, o.filled) else AnswerOf(exchange[..|exchange| - 1], id)
  }

  function AtExchange(exchange: seq<ExchangeOrder>): string -> Answer
  {
    (id: string) => AnswerOf(exchange, id)
  }

  function Settled(o: ExchangeOrder): real
  {
    if IsTerminal(o.status) then o.filled else 0.0
  }

  lemma {:induction false} AnswerAt(exchange: seq<ExchangeOrder>, i: nat)
    requires ExchangeOk(exchange) && i < |exchange|
    ensures AnswerOf(exchange, exchange[i].orderID) == Answer(exchange[i].status, exchange[i].filled)
  {
    var n := |exchange| - 1;
    if i < n { AnswerAt(exchange[..n], i); }
  }

  lemma {:induction false} AnswersNonNegative(exchange: seq<ExchangeOrder>, id: string)
    requires ExchangeOk(exchange)
    ensures AnswerOf(exchange, id).filled >= 0.0
  {
    if exchange != [] { AnswersNonNegative(exchange[..|exchange| - 1], id); }
  }

  /** The exchange's answer for an entry is the fill of the order it records. */
  lemma EntryFill(w: World, e: OrderEntry, o: ExchangeOrder)
    requires DistinctOwn(w, w.exchange) && ExchangeOk(w.exchange) && Backed(w, e)
    requires o in w.exchange && Own(w, o) && o.clientID == Some(e.clientID)
    ensures TrueFill(AtExchange(w.exchange))(e) == Settled(o)
  {
    TheRecordedOrder(w, e, o);
    var i :| 0 <= i < |w.exchange| && w.exchange[i] == o;
    AnswerAt(w.exchange, i);
  }

  /** Summed over entries that are exactly the run's orders, the answers are the run's settled fill. */
  lemma SettledFillsAgree(w: World, orders: seq<OrderEntry>)
    requires DistinctIds(orders) && DistinctOwn(w, w.exchange) && Ids(orders) == OwnIds(w, w.exchange)
    requires ExchangeOk(w.exchange) && forall e | e in orders :: Backed(w, e)
    ensures SumBy(TrueFill(AtExchange(w.exchange)), orders) == OwnSum(w, Settled, w.exchange)
  {
    var f := TrueFill(AtExchange(w.exchange));
    hide Backed, Own, TrueFill, Settled, DistinctOwn, DistinctIds, Ids, OwnIds, OwnSum, ExchangeOk;
    forall e, o | e in orders && o in w.exchange && Own(w, o) && o.clientID == Some(e.clientID)
      ensures -0.0 <= f(e) - Settled(o) <= 0.0
    {
      EntryFill(w, e, o);
    }
    MatchedSums(w, f, Settled, 0.0, orders, w.exchange);
  }

  lemma {:induction false} SumSame(f: OrderEntry -> real, a: seq<OrderEntry>, b: seq<OrderEntry>)
    requires |a| == |b| && forall i :: 0 <= i < |a| ==> f(a[i]) == f(b[i])
    ensures SumBy(f, a) == SumBy(f, b)
  {
    if a != [] { SumSame(f, a[..|a| - 1], b[..|b| - 1]); }
  }

  /** Reconciling changes fills and statuses, not the order ids the exchange is asked about. */
  lemma PassKeepsTruth(l: Ledger, truth: string -> Answer)
    ensures SumBy(TrueFill(truth), ReconcileTruthfully(l, truth).orders) == SumBy(TrueFill(truth), l.orders)
  {
    var r := ReconcileTruthfully(l, truth);
    forall i | 0 <= i < |l.orders| ensures TrueFill(truth)(r.orders[i]) == TrueFill(truth)(l.orders[i]) {
      ReconcileEntry(l, Truthful(truth), |l.orders|, i);
    }
    SumSame(TrueFill(truth), r.orders, l.orders);
  }

  /**
  After a crash, loading an exact checkpoint, importing a complete listing and one pass answered by the exchange give
  the run's settled fill at the exchange, less exactly what the entries already settled before the pass lacked.
   */
  lemma RecoveryCountsFills(w: World, loaded: Ledger, listing: seq<Listed>)
    requires Inv(w) && Tracks(w, loaded) && Exact(loaded) && TrueListing(w, listing) && CompleteListing(w, listing)
    ensures var imported, truth := Import(loaded, listing), AtExchange(w.exchange);
            ReconcileTruthfully(imported, truth).totalFilled ==
            OwnSum(w, Settled, w.exchange) - SumBy(Lacking(truth), imported.orders)
  {
    var imported, truth := Import(loaded, listing), AtExchange(w.exchange);
    ImportTracks(w, loaded, listing);
    ImportKeeps(loaded, listing);
    CompleteCovers(w, listing);
    ImportedIds(w, loaded, listing);
    SettledFillsAgree(w, imported.orders);
    PassKeepsTruth(imported, truth);
    TruthfulPassShortfall(imported, truth);
  }

  /** The three steps of a restart, all of which go through. */
  function Restarting(c: World, loadOk: bool, listing: seq<Listed>): seq<Step>
  {
    [Load(loadOk), ImportOrphans(Some(listing), true), ReconcileAll(Truthful(AtExchange(c.exchange)), true)]
  }

  lemma RestartRuns(c: World, loadOk: bool, listing: seq<Listed>)
    requires Inv(c) && c.memory == None && TrueListing(c, listing)
    ensures var loaded := if loadOk && c.disk.Some? then c.disk.value else EMPTY;
            && Valid(c, Restarting(c, loadOk, listing))
            && Exec(c, Restarting(c, loadOk, listing)).memory ==
               Some(ReconcileTruthfully(Import(loaded, listing), AtExchange(c.exchange)))
  {
    var two := [Load(loadOk), ImportOrphans(Some(listing), true)];
    var last := ReconcileAll(Truthful(AtExchange(c.exchange)), true);
    ExecRecovery.Restart(c, loadOk, listing);
    forall i: nat, id ensures Truthful(AtExchange(c.exchange))(i, id).value.filled >= 0.0 { AnswersNonNegative(c.exchange, id); }
    assert two + [last] == Restarting(c, loadOk, listing);
    Extend(c, two, last);
  }

  lemma {:induction false} Extend(w: World, steps: seq<Step>, last: Step)
    requires Valid(w, steps) && Enabled(Exec(w, steps), last)
    ensures Valid(w, steps + [last]) && Exec(w, steps + [last]) == Next(Exec(w, steps), last)
    decreases |steps|
  {
    if steps == [] {
      assert Valid(Next(w, last), []) && [last][1..] == [];
    } else {
      Extend(Next(w, steps[0]), steps[1..], last);
      assert (steps + [last])[1..] == steps[1..] + [last];
    }
  }

  /**
  So after any run from a fresh start whose updates are absorbing, a crash and a restart, TotalFilled is the run's
  settled fill at the exchange, less exactly what the entries already settled before the pass lacked.
   */
  lemma EveryRunCountsFills(w: World, steps: seq<Step>, loadOk: bool, listing: seq<Listed>)
    requires Fresh(w) && Valid(w, steps + [Crash]) && AllAbsorbing(w, steps + [Crash])
    requires var c := Exec(w, steps + [Crash]); TrueListing(c, listing) && CompleteListing(c, listing)
    ensures var c := Exec(w, steps + [Crash]);
            var imported := Import(if loadOk && c.disk.Some? then c.disk.value else EMPTY, listing);
            && Valid(c, Restarting(c, loadOk, listing))
            && var r := Exec(c, Restarting(c, loadOk, listing)).memory;
               r.Some? && r.value.totalFilled ==
                          OwnSum(c, Settled, c.exchange) - SumBy(Lacking(AtExchange(c.exchange)), imported.orders)
  {
    FreshInv(w);
    RunsKeepInv(w, steps + [Crash]);
    RunsStayExact(w, steps + [Crash]);
    LastStep(w, steps, Crash);
    var c := Exec(w, steps + [Crash]);
    hide Exec, Valid, AllAbsorbing, Fresh;
    RestartRuns(c, loadOk, listing);
    RecoveryCountsFills(c, if loadOk && c.disk.Some? then c.disk.value else EMPTY, listing);
  }
}
