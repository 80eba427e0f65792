/**
An execution run against its exchange and its checkpoint store, as a step machine: submissions whose
reply may be lost, saves that may fail, crashes, restarts, orphan imports, reconciliation and stream
updates in any order. The exchange's own order list is the ground truth.
 */
module ExecRecovery {
  import opened Prelude
  import opened ExecLedger
  import opened ClientOrderId

  /** An order as the exchange holds it; `quantity` is what was sent, after rounding. */
  datatype ExchangeOrder =
    ExchangeOrder(orderID: string, clientID: Option<string>, quantity: real, status: Status, filled: real)

  /** `prefix` is the listing prefix of the run, BuildPrefix(strategy, run id). */
  datatype World = World(
    prefix: string, exchange: seq<ExchangeOrder>, memory: Option<Ledger>, disk: Option<Ledger>)

  datatype Reply = Rejected | Accepted | AcceptedWithoutID | AcceptedButLost

  datatype Step =
    | Submit(quantity: real, suffix: string, orderID: string, status: Status, reply: Reply)
    | OtherOrder(order: ExchangeOrder)
    | ExchangeMoves(at: nat, status: Status, filled: real)
    | Save(ok: bool)
    | Crash
    | Load(ok: bool)
    | ImportOrphans(listing: Option<seq<Listed>>, ok: bool)
    | ReconcileAll(getFilled: (nat, string) -> Option<Answer>, ok: bool)
    | StreamUpdate(event: FillEvent, ok: bool)

  /** Three decimals, ties to even: the form in which a quantity is sent. */
  function Round3(q: real): real
  {
    var n := (q * 1000.0).Floor;
    var rest := q * 1000.0 - n as real;
    (if rest > 0.5 || (rest == 0.5 && n % 2 == 1) then n + 1 else n) as real / 1000.0
  }

  lemma RoundingError(q: real)
    ensures -0.0005 <= q - Round3(q) <= 0.0005
  {
  }

  /** What is sent has three decimals, is the nearest such number, and of two equally near ones the even one. */
  lemma RoundedToNearestEven(q: real) returns (n: int)
    ensures Round3(q) == n as real / 1000.0
    ensures -0.5 <= q * 1000.0 - n as real <= 0.5
    ensures q * 1000.0 - n as real == 0.5 || q * 1000.0 - n as real == -0.5 ==> n % 2 == 0
  {
    var m := (q * 1000.0).Floor;
    var rest := q * 1000.0 - m as real;
    n := if rest > 0.5 || (rest == 0.5 && m % 2 == 1) then m + 1 else m;
  }

  /** The listing's own test: the client id starts with this run's prefix. */
  ghost predicate Own(w: World, o: ExchangeOrder)
  {
    o.clientID.Some? && w.prefix <= o.clientID.value
  }

  ghost predicate Lists(w: World, row: Listed, o: ExchangeOrder)
  {
    && Own(w, o)
    && row.orderID == o.orderID && row.clientID == o.clientID && row.status == o.status
    && (row.quantity == Some(o.quantity) || row.quantity == None)
  }

  /** Every row is one of this run's orders at the exchange. */
  ghost predicate TrueListing(w: World, listing: seq<Listed>)
  {
    forall row | row in listing :: exists o :: o in w.exchange && Lists(w, row, o)
  }

  /** Every order of this run is listed, with a quantity that parses. */
  ghost predicate CompleteListing(w: World, listing: seq<Listed>)
  {
    forall o | o in w.exchange && Own(w, o) ::
      exists row :: row in listing && row.clientID == o.clientID && row.quantity.Some?
  }

  // ---- Steps --------------------------------------------------------------------------------

  ghost predicate Enabled(w: World, s: Step)
  {
    match s
    case Submit(_, suffix, orderID, _, reply) =>
      && w.memory.Some? && (reply.Accepted? ==> orderID != "")
      && forall o | o in w.exchange :: o.clientID != Some(w.prefix + suffix) && o.orderID != orderID
    case OtherOrder(order) => !Own(w, order) && order.filled >= 0.0 && forall o | o in w.exchange :: o.orderID != order.orderID
    case ExchangeMoves(at, _, filled) => at < |w.exchange| && filled >= 0.0
    case Save(_) => w.memory.Some?
    case Crash => w.memory.Some?
    case Load(_) => w.memory == None
    case ImportOrphans(listing, _) => w.memory.Some? && (listing.Some? ==> TrueListing(w, listing.value))
    case ReconcileAll(getFilled, _) => w.memory.Some? && FillsNonNegative(getFilled)
    case StreamUpdate(event, _) => w.memory.Some? && event.filled >= 0.0
  }

  ghost function Checkpoint(w: World, l: Ledger, ok: bool): World
  {
    w.(memory := Some(l), disk := if ok then Some(l) else w.disk)
  }

  ghost function Next(w: World, s: Step): World
    requires Enabled(w, s)
  {
    match s
    case Submit(quantity, suffix, orderID, status, reply) =>
      if quantity <= 0.0 || reply.Rejected? then w
      else
        var id := w.prefix + suffix;
        var sent := ExchangeOrder(orderID, Some(id), Round3(quantity), status, 0.0);
        w.(exchange := w.exchange + [sent],
           memory := if reply.Accepted? then Some(Append(w.memory.value, OrderEntry(orderID, id, quantity, 0.0, Open)))
                     else w.memory)
    case OtherOrder(order) => w.(exchange := w.exchange + [order])
    case ExchangeMoves(at, status, filled) =>
      w.(exchange := w.exchange[at := w.exchange[at].(status := status, filled := filled)])
    case Save(ok) => Checkpoint(w, w.memory.value, ok)
    case Crash => w.(memory := None)
    case Load(ok) => w.(memory := Some(if ok && w.disk.Some? then w.disk.value else EMPTY))
    case ImportOrphans(listing, ok) =>
      if listing == None then w
      else
        var l := Import(w.memory.value, listing.value);
        Checkpoint(w, l, ok && |l.orders| > |w.memory.value.orders|)
    case ReconcileAll(getFilled, ok) =>
      Checkpoint(w, Reconcile(w.memory.value, getFilled, |w.memory.value.orders|), ok)
    case StreamUpdate(event, ok) =>
      Checkpoint(w, ProcessUpdate(w.memory.value, event), ok && event.clientID in Ids(w.memory.value.orders))
  }

  /**
  What a submission leaves behind: a positive quantity the exchange takes is there to three decimals; memory learns it,
  as requested and unfilled, only if the reply with its id arrives; the checkpoint never does.
   */
  lemma SubmitOutcome(w: World, s: Step)
    requires s.Submit? && Enabled(w, s)
    ensures var v, l := Next(w, s), w.memory.value;
            && v.disk == w.disk && v.memory.Some? && w.exchange <= v.exchange
            && (if s.quantity > 0.0 && !s.reply.Rejected? then
                  && |v.exchange| == |w.exchange| + 1
                  && var sent := v.exchange[|w.exchange|];
                     sent.clientID == Some(w.prefix + s.suffix) && sent.orderID == s.orderID && sent.filled == 0.0
                     && -0.0005 <= s.quantity - sent.quantity <= 0.0005
                else v.exchange == w.exchange)
            && (if s.quantity > 0.0 && s.reply.Accepted? then
                  v.memory.value == Ledger(l.totalFilled, l.totalSubmitted + s.quantity,
                                           l.orders + [OrderEntry(s.orderID, w.prefix + s.suffix, s.quantity, 0.0, Open)])
                else v.memory == w.memory)
  {
    RoundingError(s.quantity);
  }

  /** Save, crash and load in sequence give back what was saved; a crash alone loses what was not. */
  lemma CheckpointSurvives(w: World)
    requires w.memory.Some?
    ensures Valid(w, [Save(true), Crash, Load(true)]) && Valid(w, [Crash, Load(true)]) && Valid(w, [Crash, Load(false)])
    ensures Exec(w, [Save(true), Crash, Load(true)]).memory == w.memory
    ensures Exec(w, [Crash, Load(true)]).memory == if w.disk.Some? then w.disk else Some(Ledger(0.0, 0.0, []))
    ensures Exec(w, [Crash, Load(false)]).memory == Some(Ledger(0.0, 0.0, []))
    ensures Exec(w, [Crash, Load(true)]).disk == w.disk
  {
    assert [Save(true), Crash, Load(true)][1..] == [Crash, Load(true)] && [Crash, Load(true)][1..] == [Load(true)];
    assert [Crash, Load(false)][1..] == [Load(false)];
    var v := Next(w, Save(true));
    assert Exec(v, [Crash, Load(true)]) == Exec(Next(v, Crash), [Load(true)]);
    assert Exec(Next(v, Crash), [Load(true)]) == Next(Next(v, Crash), Load(true));
    assert Exec(Next(w, Crash), [Load(true)]) == Next(Next(w, Crash), Load(true));
    assert Exec(Next(w, Crash), [Load(false)]) == Next(Next(w, Crash), Load(false));
  }

  /** A stream update moves memory as its event says and nothing at the exchange, and is saved only for a known order. */
  lemma StreamOutcome(w: World, e: FillEvent, ok: bool)
    requires Enabled(w, StreamUpdate(e, ok))
    ensures var v := Next(w, StreamUpdate(e, ok));
            && v.exchange == w.exchange && v.memory.Some?
            && EntriesUpdated(w.memory.value, v.memory.value, e) && TotalUpdated(w.memory.value, v.memory.value, e)
            && v.disk == (if ok && exists o :: o in w.memory.value.orders && o.clientID == e.clientID then v.memory else w.disk)
  {
    UpdateIsRight(w.memory.value, e);
    hide EntriesUpdated, TotalUpdated, ProcessUpdate;
    assert e.clientID in Ids(w.memory.value.orders) <==> exists o :: o in w.memory.value.orders && o.clientID == e.clientID;
  }

  ghost predicate Valid(w: World, steps: seq<Step>)
    decreases |steps|
  {
    steps == [] || (Enabled(w, steps[0]) && Valid(Next(w, steps[0]), steps[1..]))
  }

  ghost function Exec(w: World, steps: seq<Step>): World
    requires Valid(w, steps)
    decreases |steps|
  {
    if steps == [] then w else Exec(Next(w, steps[0]), steps[1..])
  }

  /** The exchange's own ids are unique, and no fill is negative. */
  ghost predicate ExchangeOk(exchange: seq<ExchangeOrder>)
  {
    && (forall i, j :: 0 <= i < j < |exchange| ==> exchange[i].orderID != exchange[j].orderID)
    && (forall o | o in exchange :: o.filled >= 0.0)
  }

  ghost predicate Fresh(w: World)
  {
    && w.prefix != "" && w.memory == Some(EMPTY) && w.disk == None && ExchangeOk(w.exchange)
    && forall o | o in w.exchange :: !Own(w, o)
  }

  // ---- The invariant of every run -----------------------------------------------------------

  ghost predicate DistinctOwn(w: World, exchange: seq<ExchangeOrder>)
  {
    forall i, j :: 0 <= i < j < |exchange| && Own(w, exchange[i]) && Own(w, exchange[j]) ==>
                     exchange[i].clientID != exchange[j].clientID
  }

  /** The order this entry records: both its ids, and the requested quantity up to rounding. */
  ghost predicate Records(w: World, e: OrderEntry, o: ExchangeOrder)
  {
    && Own(w, o) && o.clientID == Some(e.clientID) && o.orderID == e.orderID
    && -0.0005 <= e.requested - o.quantity <= 0.0005
  }

  ghost predicate Backed(w: World, e: OrderEntry)
  {
    exists o :: o in w.exchange && Records(w, e, o)
  }

  ghost predicate Tracks(w: World, l: Ledger)
  {
    Sound(l) && forall e | e in l.orders :: Backed(w, e)
  }

  /**
  In memory and on disk alike: ids are distinct and known to the exchange, TotalSubmitted is the sum
  of the requested quantities, and TotalFilled covers every settled fill.
   */
  ghost predicate Inv(w: World)
  {
    && w.prefix != ""
    && DistinctOwn(w, w.exchange) && ExchangeOk(w.exchange)
    && (w.memory.Some? ==> Tracks(w, w.memory.value))
    && (w.disk.Some? ==> Tracks(w, w.disk.value))
  }

  predicate SameOrder(o: ExchangeOrder, p: ExchangeOrder)
  {
    p.orderID == o.orderID && p.clientID == o.clientID && p.quantity == o.quantity
  }

  /** Tracking depends only on which own orders the exchange has, not on their status. */
  lemma TracksStable(w: World, v: World, l: Ledger)
    requires Tracks(w, l) && w.prefix == v.prefix
    requires forall o | o in w.exchange :: exists p :: p in v.exchange && SameOrder(o, p)
    ensures Tracks(v, l)
  {
    forall e | e in l.orders ensures Backed(v, e) {
      assert Backed(w, e);
      var o :| o in w.exchange && Records(w, e, o);
      var p :| p in v.exchange && SameOrder(o, p);
      assert Records(v, e, p);
    }
  }

  lemma BackedById(w: World, was: OrderEntry, now: OrderEntry)
    requires Backed(w, was) && SameEntry(was, now)
    ensures Backed(w, now)
  {
    var o :| o in w.exchange && Records(w, was, o);
    assert Records(w, now, o);
  }

  predicate SameEntry(was: OrderEntry, now: OrderEntry)
  {
    now.clientID == was.clientID && now.orderID == was.orderID && now.requested == was.requested
  }

  lemma FillStepTracks(w: World, l: Ledger, r: Ledger)
    requires Tracks(w, l) && Sound(r) && |l.orders| == |r.orders|
    requires forall i :: 0 <= i < |l.orders| ==> SameEntry(l.orders[i], r.orders[i])
    ensures Tracks(w, r)
  {
    forall e | e in r.orders ensures Backed(w, e) {
      var i :| 0 <= i < |r.orders| && r.orders[i] == e;
      assert l.orders[i] in l.orders;
      BackedById(w, l.orders[i], e);
    }
  }

  lemma ReconcileTracks(w: World, l: Ledger, getFilled: (nat, string) -> Option<Answer>)
    requires Tracks(w, l) && FillsNonNegative(getFilled)
    ensures Tracks(w, Reconcile(l, getFilled, |l.orders|))
  {
    ReconcileKeeps(l, getFilled, |l.orders|);
    forall i | 0 <= i < |l.orders|
      ensures SameEntry(l.orders[i], Reconcile(l, getFilled, |l.orders|).orders[i])
    {
      ReconcileEntry(l, getFilled, |l.orders|, i);
    }
    FillStepTracks(w, l, Reconcile(l, getFilled, |l.orders|));
  }

  lemma ImportTracks(w: World, l: Ledger, listing: seq<Listed>)
    requires Tracks(w, l) && TrueListing(w, listing)
    ensures Tracks(w, Import(l, listing))
  {
    ImportKeeps(l, listing);
    var r := Import(l, listing);
    forall e | e in r.orders ensures Backed(w, e) {
      var i :| 0 <= i < |r.orders| && r.orders[i] == e;
      if i < |l.orders| {
        assert e == l.orders[i];
      } else {
        var k := ImportedEntry(l, listing, i);
        assert listing[k] in listing;
        var o :| o in w.exchange && Lists(w, listing[k], o);
        assert Records(w, e, o);
      }
    }
  }

  /** One more order with ids of its own: the exchange stays in order. */
  lemma ExchangeSnoc(w: World, o: ExchangeOrder)
    requires DistinctOwn(w, w.exchange) && ExchangeOk(w.exchange) && o.filled >= 0.0
    requires forall p | p in w.exchange :: p.orderID != o.orderID && (Own(w, o) ==> p.clientID != o.clientID)
    ensures DistinctOwn(w, w.exchange + [o]) && ExchangeOk(w.exchange + [o])
    ensures forall p | p in w.exchange :: p in w.exchange + [o] && SameOrder(p, p)
  {
    var all := w.exchange + [o];
    assert forall i :: 0 <= i < |w.exchange| ==> all[i] == w.exchange[i] && w.exchange[i] in w.exchange;
  }

  /** An entry for an order the exchange has, under an id the ledger does not know. */
  lemma AppendTracks(v: World, l: Ledger, e: OrderEntry, o: ExchangeOrder)
    requires Tracks(v, l) && e.clientID !in Ids(l.orders) && e.filled == 0.0
    requires o in v.exchange && Records(v, e, o)
    ensures Tracks(v, Append(l, e))
  {
    AppendKeeps(l, e);
    assert Backed(v, e);
    hide Backed, Sound;
  }

  lemma SubmitKeeps(w: World, s: Step)
    requires Inv(w) && s.Submit? && Enabled(w, s)
    ensures Inv(Next(w, s))
  {
    var v := Next(w, s);
    if !(s.quantity <= 0.0 || s.reply.Rejected?) {
      var id := w.prefix + s.suffix;
      var sent := v.exchange[|w.exchange|];
      ExchangeSnoc(w, sent);
      assert DistinctOwn(v, v.exchange);
      hide ExchangeOk, DistinctOwn, Tracks, Round3;
      if w.memory.Some? { TracksStable(w, v, w.memory.value); }
      if w.disk.Some? { TracksStable(w, v, w.disk.value); }
      if s.reply.Accepted? {
        var l, e := w.memory.value, OrderEntry(s.orderID, id, s.quantity, 0.0, Open);
        NewIdIsUnknown(w, l, id);
        RoundingError(s.quantity);
        AppendTracks(v, l, e, sent);
      }
    }
  }

  lemma NewIdIsUnknown(w: World, l: Ledger, id: string)
    requires Tracks(w, l) && forall o | o in w.exchange :: o.clientID != Some(id)
    ensures id !in Ids(l.orders)
  {
    forall e | e in l.orders ensures e.clientID != id {
      assert Backed(w, e);
    }
  }

  /** Orders that move keep their ids and quantities, so the exchange stays in order. */
  lemma SameOrders(w: World, moved: seq<ExchangeOrder>)
    requires DistinctOwn(w, w.exchange) && ExchangeOk(w.exchange) && |moved| == |w.exchange|
    requires forall i :: 0 <= i < |moved| ==> SameOrder(w.exchange[i], moved[i]) && moved[i].filled >= 0.0
    ensures DistinctOwn(w, moved) && ExchangeOk(moved)
    ensures forall o | o in w.exchange :: exists p :: p in moved && SameOrder(o, p)
  {
    assert forall i :: 0 <= i < |moved| ==> Own(w, moved[i]) == Own(w, w.exchange[i]);
    hide Own;
    forall o | o in w.exchange ensures exists p :: p in moved && SameOrder(o, p) {
      var i :| 0 <= i < |w.exchange| && w.exchange[i] == o;
      assert moved[i] in moved;
    }
  }

  lemma ExchangeUpdate(w: World, at: nat, status: Status, filled: real)
    requires DistinctOwn(w, w.exchange) && ExchangeOk(w.exchange) && at < |w.exchange| && filled >= 0.0
    ensures var moved := w.exchange[at := w.exchange[at].(status := status, filled := filled)];
            && DistinctOwn(w, moved) && ExchangeOk(moved)
            && forall o | o in w.exchange :: exists p :: p in moved && SameOrder(o, p)
  {
    var moved := w.exchange[at := w.exchange[at].(status := status, filled := filled)];
    assert forall i :: 0 <= i < |moved| ==> w.exchange[i] in w.exchange;
    hide Own;
    SameOrders(w, moved);
  }

  lemma ExchangeKeeps(w: World, s: Step)
    requires Inv(w) && (s.OtherOrder? || s.ExchangeMoves?) && Enabled(w, s)
    ensures Inv(Next(w, s))
  {
    var v := Next(w, s);
    if s.OtherOrder? {
      ExchangeSnoc(w, s.order);
    } else {
      ExchangeUpdate(w, s.at, s.status, s.filled);
    }
    assert DistinctOwn(v, v.exchange);
    hide ExchangeOk, DistinctOwn, Own;
    if w.memory.Some? { TracksStable(w, v, w.memory.value); }
    if w.disk.Some? { TracksStable(w, v, w.disk.value); }
  }

  lemma StepKeeps(w: World, s: Step)
    requires Inv(w) && Enabled(w, s)
    ensures Inv(Next(w, s))
  {
    match s
    case Submit(_, _, _, _, _) => SubmitKeeps(w, s);
    case OtherOrder(_) => ExchangeKeeps(w, s);
    case ExchangeMoves(_, _, _) => ExchangeKeeps(w, s);
    case Save(_) =>
    case Crash =>
    case Load(_) => TracksInView(w, Next(w, s), EMPTY);
    case ImportOrphans(listing, _) =>
      if listing.Some? { ImportTracks(w, w.memory.value, listing.value); }
    case ReconcileAll(getFilled, _) => ReconcileTracks(w, w.memory.value, getFilled);
    case StreamUpdate(event, _) =>
      UpdateKeeps(w.memory.value, event);
      FillStepTracks(w, w.memory.value, ProcessUpdate(w.memory.value, event));
  }

  lemma TracksInView(w: World, v: World, l: Ledger)
    requires w.prefix == v.prefix && w.exchange == v.exchange
    ensures l == EMPTY ==> Tracks(v, l)
    ensures Tracks(w, l) == Tracks(v, l)
  {
    forall e ensures Backed(w, e) == Backed(v, e) {}
  }

  /** Every run from a fresh start keeps the invariant, whatever fails on the way. */
  lemma {:induction false} RunsKeepInv(w: World, steps: seq<Step>)
    requires Inv(w) && Valid(w, steps)
    ensures Inv(Exec(w, steps))
    decreases |steps|
  {
    if steps != [] {
      StepKeeps(w, steps[0]);
      RunsKeepInv(Next(w, steps[0]), steps[1..]);
    }
  }

  lemma FreshInv(w: World)
    requires Fresh(w)
    ensures Inv(w)
  {
    assert forall o | o in w.exchange :: !Own(w, o);
  }

  /**
  Spelled out, for the ledger in memory and the checkpoint alike: ids are distinct and all at the exchange, the
  submitted total is the sum of the requested quantities, and the filled total covers every settled fill.
   */
  lemma EveryRunIsSound(w: World, steps: seq<Step>, l: Ledger)
    requires Fresh(w) && Valid(w, steps)
    requires Exec(w, steps).memory == Some(l) || Exec(w, steps).disk == Some(l)
    ensures DistinctIds(l.orders) && Ids(l.orders) <= OwnIds(Exec(w, steps), Exec(w, steps).exchange)
    ensures l.totalSubmitted == SumBy(Requested, l.orders) && l.totalFilled >= SumBy(TerminalFill, l.orders)
  {
    FreshInv(w);
    RunsKeepInv(w, steps);
    TracksOnlyOwn(Exec(w, steps), l);
  }

  // ---- Exact fill totals over whole runs ----------------------------------------------------

  /** Every stream update that hits a settled order restates it as settled with no smaller fill. */
  ghost predicate AllAbsorbing(w: World, steps: seq<Step>)
    requires Valid(w, steps)
    decreases |steps|
  {
    steps == [] ||
    (&& (steps[0].StreamUpdate? ==>
           var e, orders := steps[0].event, w.memory.value.orders;
           var i := LastMatch(orders, e.clientID);
           i >= 0 ==> Absorbing(orders[i], e.filled, e.status))
     && AllAbsorbing(Next(w, steps[0]), steps[1..]))
  }

  ghost predicate AllExact(w: World)
  {
    (w.memory.Some? ==> Exact(w.memory.value)) && (w.disk.Some? ==> Exact(w.disk.value))
  }

  /** With absorbing updates TotalFilled is exact in memory and on disk, across crashes and imports. */
  lemma {:induction false} RunsStayExact(w: World, steps: seq<Step>)
    requires Inv(w) && AllExact(w) && Valid(w, steps) && AllAbsorbing(w, steps)
    ensures AllExact(Exec(w, steps))
    decreases |steps|
  {
    if steps != [] {
      var s := steps[0];
      StepKeeps(w, s);
      match s {
        case Submit(quantity, suffix, orderID, _, reply) =>
          if quantity > 0.0 && reply.Accepted? {
            var id := w.prefix + suffix;
            NewIdIsUnknown(w, w.memory.value, id);
            AppendKeeps(w.memory.value, OrderEntry(orderID, id, quantity, 0.0, Open));
          }
        case ImportOrphans(listing, _) => if listing.Some? { ImportKeeps(w.memory.value, listing.value); }
        case ReconcileAll(getFilled, _) => ReconcileKeeps(w.memory.value, getFilled, |w.memory.value.orders|);
        case StreamUpdate(event, _) => UpdateKeeps(w.memory.value, event);
        case _ =>
      }
      RunsStayExact(Next(w, s), steps[1..]);
    }
  }

  // ---- Recovery -----------------------------------------------------------------------------

  ghost function OwnIds(w: World, exchange: seq<ExchangeOrder>): set<string>
  {
    set o | o in exchange && Own(w, o) :: o.clientID.value
  }

  ghost function OwnSum(w: World, g: ExchangeOrder -> real, exchange: seq<ExchangeOrder>): real
  {
    if exchange == [] then 0.0
    else
      var o := exchange[|exchange| - 1];
      OwnSum(w, g, exchange[..|exchange| - 1]) + if Own(w, o) then g(o) else 0.0
  }

  function Quantity(o: ExchangeOrder): real { o.quantity }

  ghost function OwnQuantity(w: World, exchange: seq<ExchangeOrder>): real
  {
    OwnSum(w, Quantity, exchange)
  }

  /**
  Whatever was lost, loading the checkpoint and importing a complete listing leaves the ledger with
  exactly the exchange's orders of this run, each once, and TotalSubmitted within half a thousandth
  per order of the quantity the exchange holds. Importing again changes nothing.
   */
  lemma RecoveryIsComplete(w: World, loadOk: bool, listing: seq<Listed>)
    requires Inv(w) && w.memory == None && TrueListing(w, listing) && CompleteListing(w, listing)
    ensures var loaded := if loadOk && w.disk.Some? then w.disk.value else EMPTY;
            var l := Import(loaded, listing);
            && Ids(l.orders) == OwnIds(w, w.exchange)
            && DistinctIds(l.orders)
            && Within(l.totalSubmitted - OwnQuantity(w, w.exchange), 0.0005, |l.orders|)
            && Import(l, listing) == l
  {
    var loaded := if loadOk && w.disk.Some? then w.disk.value else EMPTY;
    var l := Import(loaded, listing);
    ImportTracks(w, loaded, listing);
    ImportTwice(loaded, listing);
    CompleteCovers(w, listing);
    ImportedIds(w, loaded, listing);
    SumsAgree(w, l.orders, w.exchange);
  }

  lemma ImportedIds(w: World, loaded: Ledger, listing: seq<Listed>)
    requires Tracks(w, Import(loaded, listing)) && OwnIds(w, w.exchange) <= ImportableIds(listing)
    ensures Ids(Import(loaded, listing).orders) == OwnIds(w, w.exchange)
  {
    ImportKeeps(loaded, listing);
    TracksOnlyOwn(w, Import(loaded, listing));
  }

  lemma CompleteCovers(w: World, listing: seq<Listed>)
    requires w.prefix != "" && CompleteListing(w, listing)
    ensures OwnIds(w, w.exchange) <= ImportableIds(listing)
  {
    forall o | o in w.exchange && Own(w, o) ensures o.clientID.value in ImportableIds(listing) {
      var row :| row in listing && row.clientID == o.clientID && row.quantity.Some?;
      assert Importable(row);
    }
  }

  lemma TracksOnlyOwn(w: World, l: Ledger)
    requires Tracks(w, l)
    ensures Ids(l.orders) <= OwnIds(w, w.exchange)
  {
    forall id | id in Ids(l.orders) ensures id in OwnIds(w, w.exchange) {
      var e :| e in l.orders && e.clientID == id;
      assert Backed(w, e);
    }
  }

  /** Entries and own orders correspond by client id, and what f and g say of a pair differs by at most eps. */
  ghost predicate Matches(w: World, f: OrderEntry -> real, g: ExchangeOrder -> real, eps: real,
                          orders: seq<OrderEntry>, exchange: seq<ExchangeOrder>)
  {
    && DistinctIds(orders) && DistinctOwn(w, exchange) && Ids(orders) == OwnIds(w, exchange)
    && forall e, o | e in orders && o in exchange && Own(w, o) && o.clientID == Some(e.clientID) ::
         -eps <= f(e) - g(o) <= eps
  }

  ghost predicate Within(d: real, eps: real, n: nat)
  {
    -(eps * n as real) <= d <= eps * n as real
  }

  lemma WithinOneMore(d: real, x: real, eps: real, n: nat)
    requires Within(d, eps, n) && -eps <= x <= eps
    ensures Within(d + x, eps, n + 1)
  {
    assert eps * (n + 1) as real == eps * n as real + eps;
  }

  /** The one own order with an entry's client id is the one it records. */
  lemma TheRecordedOrder(w: World, e: OrderEntry, o: ExchangeOrder)
    requires DistinctOwn(w, w.exchange) && Backed(w, e) && o in w.exchange && Own(w, o) && o.clientID == Some(e.clientID)
    ensures Records(w, e, o) && -0.0005 <= Requested(e) - Quantity(o) <= 0.0005
  {
    var p :| p in w.exchange && Records(w, e, p);
    var i :| 0 <= i < |w.exchange| && w.exchange[i] == o;
    var j :| 0 <= j < |w.exchange| && w.exchange[j] == p;
    assert i == j;
  }

  lemma SumsAgree(w: World, orders: seq<OrderEntry>, exchange: seq<ExchangeOrder>)
    requires DistinctIds(orders) && DistinctOwn(w, exchange) && Ids(orders) == OwnIds(w, exchange)
    requires exchange == w.exchange && forall e | e in orders :: Backed(w, e)
    ensures Within(SumBy(Requested, orders) - OwnQuantity(w, exchange), 0.0005, |orders|)
  {
    hide Backed, Records, Own, Requested, Quantity, DistinctOwn, DistinctIds, Ids, OwnIds, OwnSum, Within;
    forall e, o | e in orders && o in exchange && Own(w, o) && o.clientID == Some(e.clientID)
      ensures -0.0005 <= Requested(e) - Quantity(o) <= 0.0005
    {
      TheRecordedOrder(w, e, o);
    }
    MatchedSums(w, Requested, Quantity, 0.0005, orders, exchange);
  }

  lemma NoIdsNoOrders(orders: seq<OrderEntry>)
    ensures orders != [] ==> Ids(orders) != {}
  {
    if orders != [] { assert orders[0].clientID in Ids(orders); }
  }

  /** Taking out the last own order and the entry it pairs with leaves the rest paired. */
  lemma Unpair(w: World, f: OrderEntry -> real, g: ExchangeOrder -> real, eps: real,
               orders: seq<OrderEntry>, rest: seq<ExchangeOrder>, o: ExchangeOrder) returns (i: nat)
    requires Matches(w, f, g, eps, orders, rest + [o]) && Own(w, o)
    ensures i < |orders| && -eps <= f(orders[i]) - g(o) <= eps
    ensures var fewer := orders[..i] + orders[i + 1..];
            Matches(w, f, g, eps, fewer, rest) && SumBy(f, fewer) == SumBy(f, orders) - f(orders[i])
  {
    assert o in rest + [o] && o.clientID.value in OwnIds(w, rest + [o]);
    i :| 0 <= i < |orders| && orders[i].clientID == o.clientID.value;
    RemoveEntry(f, orders, i);
    OwnIdsSnoc(w, rest, o);
    assert orders[i] in orders;
    assert forall e :: e in orders[..i] + orders[i + 1..] ==> e in orders;
  }

  lemma {:induction false} MatchedSums(w: World, f: OrderEntry -> real, g: ExchangeOrder -> real, eps: real,
                                       orders: seq<OrderEntry>, exchange: seq<ExchangeOrder>)
    requires Matches(w, f, g, eps, orders, exchange)
    ensures Within(SumBy(f, orders) - OwnSum(w, g, exchange), eps, |orders|)
    decreases |exchange|
  {
    if exchange == [] {
      NoIdsNoOrders(orders);
    } else {
      var n := |exchange| - 1;
      var o, rest := exchange[n], exchange[..n];
      assert exchange == rest + [o];
      if Own(w, o) {
        var i := Unpair(w, f, g, eps, orders, rest, o);
        var fewer := orders[..i] + orders[i + 1..];
        assert OwnSum(w, g, exchange) == OwnSum(w, g, rest) + g(o);
        hide Matches, OwnSum, SumBy, Own;
        MatchedSums(w, f, g, eps, fewer, rest);
        WithinOneMore(SumBy(f, fewer) - OwnSum(w, g, rest), f(orders[i]) - g(o), eps, |fewer|);
      } else {
        OwnIdsSnoc(w, rest, o);
        MatchedSums(w, f, g, eps, orders, rest);
      }
    }
  }

  lemma OwnIdsSnoc(w: World, rest: seq<ExchangeOrder>, o: ExchangeOrder)
    requires DistinctOwn(w, rest + [o])
    ensures DistinctOwn(w, rest)
    ensures Own(w, o) ==> OwnIds(w, rest) == OwnIds(w, rest + [o]) - {o.clientID.value}
    ensures !Own(w, o) ==> OwnIds(w, rest) == OwnIds(w, rest + [o])
  {
    var all := rest + [o];
    assert all[|rest|] == o;
    assert forall i :: 0 <= i < |rest| ==> all[i] == rest[i];
    forall p | p in rest ensures p in all {}
  }

  lemma RemoveEntry(f: OrderEntry -> real, orders: seq<OrderEntry>, i: nat)
    requires i < |orders| && DistinctIds(orders)
    ensures var fewer := orders[..i] + orders[i + 1..];
            && DistinctIds(fewer)
            && Ids(fewer) == Ids(orders) - {orders[i].clientID}
            && SumBy(f, fewer) == SumBy(f, orders) - f(orders[i])
  {
    var fewer := orders[..i] + orders[i + 1..];
    assert forall k :: 0 <= k < |fewer| ==> fewer[k] == orders[if k < i then k else k + 1];
    forall id | id in Ids(orders) && id != orders[i].clientID ensures id in Ids(fewer) {
      var k :| 0 <= k < |orders| && orders[k].clientID == id;
      assert orders[k] == fewer[if k < i then k else k - 1];
    }
    SumRemove(f, orders, i);
  }

  lemma {:induction false} SumRemove(f: OrderEntry -> real, orders: seq<OrderEntry>, i: nat)
    requires i < |orders|
    ensures SumBy(f, orders[..i] + orders[i + 1..]) == SumBy(f, orders) - f(orders[i])
  {
    var n := |orders| - 1;
    if i == n {
      assert orders[..i] + orders[i + 1..] == orders[..n];
    } else {
      SumRemove(f, orders[..n], i);
      assert orders[..n][..i] + orders[..n][i + 1..] + [orders[n]] == orders[..i] + orders[i + 1..];
      SumAppend(f, orders[..n][..i] + orders[..n][i + 1..], orders[n]);
    }
  }

  /** With the prefix of a dot-free strategy's run, an id any dot-free strategy prints is taken for this run's iff it is. */
  lemma OnlyThisRunIsOwn(w: World, o: ExchangeOrder, name: string, run: UUID, other: string, otherRun: UUID, suffix: string)
    requires DotFree(name) && DotFree(other) && w.prefix == BuildPrefix(name, run)
    requires o.clientID == Some(Build(other, otherRun, suffix))
    ensures Own(w, o) <==> (other == name && otherRun == run)
  {
    PrefixExact(name, run, other, otherRun, suffix);
  }

  /** From a fresh start to a recovered ledger in one statement: no acknowledged or lost order is forgotten. */
  lemma EveryRunRecovers(w: World, steps: seq<Step>, loadOk: bool, listing: seq<Listed>)
    requires Fresh(w) && Valid(w, steps + [Crash])
    requires var c := Exec(w, steps + [Crash]); TrueListing(c, listing) && CompleteListing(c, listing)
    ensures var c := Exec(w, steps + [Crash]);
            var restart := [Load(loadOk), ImportOrphans(Some(listing), true)];
            && Valid(c, restart)
            && Exec(c, restart).memory.Some?
            && Ids(Exec(c, restart).memory.value.orders) == OwnIds(c, c.exchange)
  {
    FreshInv(w);
    RunsKeepInv(w, steps + [Crash]);
    LastStep(w, steps, Crash);
    var c := Exec(w, steps + [Crash]);
    RecoveryIsComplete(c, loadOk, listing);
    Restart(c, loadOk, listing);
  }

  lemma Restart(c: World, loadOk: bool, listing: seq<Listed>)
    requires c.memory == None && TrueListing(c, listing)
    ensures var restart := [Load(loadOk), ImportOrphans(Some(listing), true)];
            && Valid(c, restart)
            && Exec(c, restart).memory == Some(Import(if loadOk && c.disk.Some? then c.disk.value else EMPTY, listing))
  {
    var restart := [Load(loadOk), ImportOrphans(Some(listing), true)];
    var loaded := Next(c, restart[0]);
    var rest := [restart[1]];
    assert restart[1..] == rest && rest[1..] == [];
    forall row | row in listing ensures exists o :: o in loaded.exchange && Lists(loaded, row, o) {
      var o :| o in c.exchange && Lists(c, row, o);
      assert Lists(loaded, row, o);
    }
    assert Enabled(loaded, restart[1]);
    assert Valid(Next(loaded, restart[1]), []) && Valid(loaded, rest);
    assert Exec(loaded, rest) == Exec(Next(loaded, restart[1]), []);
    assert Exec(c, restart) == Exec(loaded, rest);
    var l := loaded.memory.value;
    assert Next(loaded, restart[1]).memory == Some(Import(l, listing));
  }

  lemma {:induction false} LastStep(w: World, steps: seq<Step>, s: Step)
    requires Valid(w, steps + [s])
    ensures Valid(w, steps) && Enabled(Exec(w, steps), s)
    ensures Exec(w, steps + [s]) == Next(Exec(w, steps), s)
    decreases |steps|
  {
    if steps == [] {
      assert (steps + [s])[1..] == [];
    } else {
      assert (steps + [s])[1..] == steps[1..] + [s];
      LastStep(Next(w, steps[0]), steps[1..], s);
    }
  }
}
