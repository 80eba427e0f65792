/**
The order ledger of an execution run: the value-level meaning of each operation, and the laws of its
two running totals. ExecState.dfy refines it; ExecRecovery.dfy runs it against crashes.
 */
module ExecLedger {
  import opened Prelude

  datatype Status = Open | Pending | Filled | PartialFill | Cancelled | Other(name: string)

  predicate IsTerminal(s: Status)
  {
    s.Filled? || s.Cancelled?
  }

  datatype OrderEntry = OrderEntry(orderID: string, clientID: string, requested: real, filled: real, status: Status)

  datatype Ledger = Ledger(totalFilled: real, totalSubmitted: real, orders: seq<OrderEntry>)

  const EMPTY := Ledger(0.0, 0.0, [])

  datatype FillEvent = FillEvent(clientID: string, status: Status, filled: real)

  datatype Answer = Answer(status: Status, filled: real)

  /** One row of the exchange's listing; `quantity` is None when the text does not parse. */
  datatype Listed = Listed(orderID: string, clientID: Option<string>, quantity: Option<real>, status: Status)

  function Ids(orders: seq<OrderEntry>): set<string>
  {
    set o | o in orders :: o.clientID
  }

  ghost predicate DistinctIds(orders: seq<OrderEntry>)
  {
    forall i, j :: 0 <= i < j < |orders| ==> orders[i].clientID != orders[j].clientID
  }

  // ---- Operations ---------------------------------------------------------------------------

  function Append(l: Ledger, o: OrderEntry): Ledger
  {
    l.(orders := l.orders + [o], totalSubmitted := l.totalSubmitted + o.requested)
  }

  /** The index of the last entry with this id; -1 if there is none. */
  function LastMatch(orders: seq<OrderEntry>, id: string): (i: int)
    ensures -1 <= i < |orders|
    ensures i >= 0 ==> orders[i].clientID == id
    ensures forall k :: i < k < |orders| ==> orders[k].clientID != id
  {
    if orders == [] then -1
    else if orders[|orders| - 1].clientID == id then |orders| - 1
    else LastMatch(orders[..|orders| - 1], id)
  }

  /** What a new fill report adds to TotalFilled, given the entry it replaces. */
  function Credit(was: OrderEntry, filled: real, status: Status): real
  {
    if !IsTerminal(status) then 0.0
    else if !IsTerminal(was.status) then filled
    else if filled - was.filled > 0.0 then filled - was.filled
    else 0.0
  }

  function ApplyFill(l: Ledger, i: nat, filled: real, status: Status): Ledger
    requires i < |l.orders|
  {
    l.(orders := l.orders[i := l.orders[i].(filled := filled, status := status)],
       totalFilled := l.totalFilled + Credit(l.orders[i], filled, status))
  }

  function ProcessUpdate(l: Ledger, e: FillEvent): Ledger
  {
    var i := LastMatch(l.orders, e.clientID);
    if i < 0 then l else ApplyFill(l, i, e.filled, e.status)
  }

  function ReconcileOne(l: Ledger, i: nat, getFilled: (nat, string) -> Option<Answer>): (r: Ledger)
    requires i < |l.orders|
    ensures |r.orders| == |l.orders|
  {
    var o := l.orders[i];
    if IsTerminal(o.status) then l
    else
      match getFilled(i, o.orderID)
      case None => l
      case Some(a) => ApplyFill(l, i, a.filled, a.status)
  }

  /** Reconciliation of the first `n` orders, in list order; `getFilled(i, id)` is the reply to the i-th query. */
  function Reconcile(l: Ledger, getFilled: (nat, string) -> Option<Answer>, n: nat): (r: Ledger)
    requires n <= |l.orders|
    ensures |r.orders| == |l.orders|
  {
    if n == 0 then l else ReconcileOne(Reconcile(l, getFilled, n - 1), n - 1, getFilled)
  }

  function ImportOne(l: Ledger, o: Listed): Ledger
  {
    if o.clientID == None || o.clientID.value == "" || o.clientID.value in Ids(l.orders) || o.quantity == None then l
    else Append(l, OrderEntry(o.orderID, o.clientID.value, o.quantity.value, 0.0, o.status))
  }

  function Import(l: Ledger, listing: seq<Listed>): (r: Ledger)
    ensures |r.orders| >= |l.orders|
  {
    if listing == [] then l else ImportOne(Import(l, listing[..|listing| - 1]), listing[|listing| - 1])
  }

  // ---- Sums over the order list -------------------------------------------------------------

  function Requested(o: OrderEntry): real { o.requested }

  function TerminalFill(o: OrderEntry): real { if IsTerminal(o.status) then o.filled else 0.0 }

  function SumBy(f: OrderEntry -> real, orders: seq<OrderEntry>): real
  {
    if orders == [] then 0.0 else SumBy(f, orders[..|orders| - 1]) + f(orders[|orders| - 1])
  }

  lemma SumAppend(f: OrderEntry -> real, orders: seq<OrderEntry>, o: OrderEntry)
    ensures SumBy(f, orders + [o]) == SumBy(f, orders) + f(o)
  {
    assert (orders + [o])[..|orders|] == orders;
  }

  lemma {:induction false} SumUpdate(f: OrderEntry -> real, orders: seq<OrderEntry>, i: nat, o: OrderEntry)
    requires i < |orders|
    ensures SumBy(f, orders[i := o]) == SumBy(f, orders) - f(orders[i]) + f(o)
  {
    var n := |orders| - 1;
    if i == n {
      assert orders[i := o][..n] == orders[..n];
    } else {
      SumUpdate(f, orders[..n], i, o);
      assert orders[i := o][..n] == orders[..n][i := o];
    }
  }

  // ---- The ledger invariant -----------------------------------------------------------------

  /**
  Distinct client ids, TotalSubmitted is the sum of the requested quantities, and TotalFilled never
  under-reports the fills of settled orders.
   */
  ghost predicate Sound(l: Ledger)
  {
    && DistinctIds(l.orders)
    && (forall o | o in l.orders :: o.filled >= 0.0)
    && l.totalSubmitted == SumBy(Requested, l.orders)
    && l.totalFilled >= SumBy(TerminalFill, l.orders)
  }

  /** TotalFilled is exactly what the settled orders filled. */
  ghost predicate Exact(l: Ledger)
  {
    l.totalFilled == SumBy(TerminalFill, l.orders)
  }

  /** The report leaves a settled order settled, and does not take fills back. */
  ghost predicate Absorbing(was: OrderEntry, filled: real, status: Status)
  {
    IsTerminal(was.status) ==> if IsTerminal(status) then filled >= was.filled else was.filled == 0.0
  }

  /** The whole effect of one report on both sums. */
  lemma ApplyFillSums(l: Ledger, i: nat, filled: real, status: Status)
    requires i < |l.orders|
    ensures var r := ApplyFill(l, i, filled, status);
            && r.totalFilled - l.totalFilled ==
               (if !IsTerminal(status) then 0.0
                else
                  var news := filled - TerminalFill(l.orders[i]);
                  if IsTerminal(l.orders[i].status) && news <= 0.0 then 0.0 else news)
            && SumBy(Requested, r.orders) == SumBy(Requested, l.orders)
            && SumBy(TerminalFill, r.orders) == SumBy(TerminalFill, l.orders)
                 - TerminalFill(l.orders[i]) + (if IsTerminal(status) then filled else 0.0)
  {
    var o := l.orders[i].(filled := filled, status := status);
    SumUpdate(Requested, l.orders, i, o);
    SumUpdate(TerminalFill, l.orders, i, o);
  }

  lemma ApplyFillKeeps(l: Ledger, i: nat, filled: real, status: Status)
    requires i < |l.orders|
    ensures var r := ApplyFill(l, i, filled, status);
            && Ids(r.orders) == Ids(l.orders)
            && (Sound(l) && filled >= 0.0 ==> Sound(r))
            && (Exact(l) ==> (Exact(r) <==> Absorbing(l.orders[i], filled, status)))
  {
    ApplyFillSums(l, i, filled, status);
    var r := ApplyFill(l, i, filled, status);
    SameIds(l.orders, r.orders);
    if Sound(l) && filled >= 0.0 {
      assert l.orders[i] in l.orders;
    }
  }

  lemma SameIds(a: seq<OrderEntry>, b: seq<OrderEntry>)
    requires |a| == |b| && forall i :: 0 <= i < |a| ==> a[i].clientID == b[i].clientID
    ensures Ids(a) == Ids(b)
    ensures DistinctIds(a) ==> DistinctIds(b)
  {
    forall id | id in Ids(a) ensures id in Ids(b) {
      var i :| 0 <= i < |a| && a[i].clientID == id;
      assert b[i] in b;
    }
    forall id | id in Ids(b) ensures id in Ids(a) {
      var i :| 0 <= i < |b| && b[i].clientID == id;
      assert a[i] in a;
    }
  }

  lemma AppendIds(orders: seq<OrderEntry>, o: OrderEntry)
    ensures Ids(orders + [o]) == Ids(orders) + {o.clientID}
    ensures DistinctIds(orders) && o.clientID !in Ids(orders) ==> DistinctIds(orders + [o])
  {
    var r := orders + [o];
    assert r[|orders|] == o;
    forall x | x in orders ensures x in r {}
    assert forall i :: 0 <= i < |orders| ==> orders[i] in orders;
  }

  lemma SoundAppend(l: Ledger, o: OrderEntry)
    requires o.clientID !in Ids(l.orders) && Sound(l) && o.filled >= 0.0 && TerminalFill(o) == 0.0
    ensures Sound(Append(l, o))
  {
    SumAppend(Requested, l.orders, o);
    SumAppend(TerminalFill, l.orders, o);
    AppendIds(l.orders, o);
  }

  lemma AppendKeeps(l: Ledger, o: OrderEntry)
    requires o.clientID !in Ids(l.orders)
    ensures Ids(Append(l, o).orders) == Ids(l.orders) + {o.clientID}
    ensures Sound(l) && o.filled >= 0.0 && TerminalFill(o) == 0.0 ==> Sound(Append(l, o))
    ensures Exact(l) && TerminalFill(o) == 0.0 ==> Exact(Append(l, o))
  {
    SumAppend(TerminalFill, l.orders, o);
    AppendIds(l.orders, o);
    if Sound(l) && o.filled >= 0.0 && TerminalFill(o) == 0.0 { SoundAppend(l, o); }
  }

  // ---- Stream updates -----------------------------------------------------------------------

  /** A stream update keeps the ledger sound; it keeps the totals exact iff it is absorbing. */
  lemma UpdateKeeps(l: Ledger, e: FillEvent)
    ensures Ids(ProcessUpdate(l, e).orders) == Ids(l.orders)
    ensures Sound(l) && e.filled >= 0.0 ==> Sound(ProcessUpdate(l, e))
    ensures Exact(l) ==> (Exact(ProcessUpdate(l, e)) <==>
                          var i := LastMatch(l.orders, e.clientID);
                          i >= 0 ==> Absorbing(l.orders[i], e.filled, e.status))
  {
    var i := LastMatch(l.orders, e.clientID);
    if i >= 0 { ApplyFillKeeps(l, i, e.filled, e.status); }
  }

  /** No later entry has this entry's client id. */
  ghost predicate LastWithId(orders: seq<OrderEntry>, k: nat, id: string)
    requires k < |orders|
  {
    orders[k].clientID == id && forall j :: k < j < |orders| ==> orders[j].clientID != id
  }

  /**
  What an event does to each entry: the last one with its client id takes the fill and status of the event, whatever
  they are, and every other one stays; TotalSubmitted never moves.
   */
  ghost predicate EntriesUpdated(l: Ledger, r: Ledger, e: FillEvent)
  {
    && |r.orders| == |l.orders| && r.totalSubmitted == l.totalSubmitted
    && forall k :: 0 <= k < |l.orders| ==>
         var was := l.orders[k];
         r.orders[k] == if LastWithId(l.orders, k, e.clientID)
                        then OrderEntry(was.orderID, was.clientID, was.requested, e.filled, e.status) else was
  }

  /** And to TotalFilled: a settling report counts in full, a restatement counts by what it grew, all others not at all. */
  ghost predicate TotalUpdated(l: Ledger, r: Ledger, e: FillEvent)
  {
    && ((forall o | o in l.orders :: o.clientID != e.clientID) ==> r.totalFilled == l.totalFilled)
    && forall k | 0 <= k < |l.orders| && LastWithId(l.orders, k, e.clientID) ::
         r.totalFilled ==
         l.totalFilled + if e.status != Filled && e.status != Cancelled then 0.0
                         else if l.orders[k].status != Filled && l.orders[k].status != Cancelled then e.filled
                         else if e.filled > l.orders[k].filled then e.filled - l.orders[k].filled
                         else 0.0
  }

  lemma UpdateIsRight(l: Ledger, e: FillEvent)
    ensures EntriesUpdated(l, ProcessUpdate(l, e), e) && TotalUpdated(l, ProcessUpdate(l, e), e)
  {
    var i := LastMatch(l.orders, e.clientID);
    forall k | 0 <= k < |l.orders| && LastWithId(l.orders, k, e.clientID) ensures i == k {}
  }

  lemma {:induction false} LastMatchSameIds(a: seq<OrderEntry>, b: seq<OrderEntry>, id: string)
    requires |a| == |b| && forall i :: 0 <= i < |a| ==> a[i].clientID == b[i].clientID
    ensures LastMatch(a, id) == LastMatch(b, id)
  {
    var i, j := LastMatch(a, id), LastMatch(b, id);
    assert i >= 0 ==> b[i].clientID == id;
    assert j >= 0 ==> a[j].clientID == id;
  }

  /** Delivering the same event twice is delivering it once. */
  lemma UpdateIdempotent(l: Ledger, e: FillEvent)
    ensures ProcessUpdate(ProcessUpdate(l, e), e) == ProcessUpdate(l, e)
  {
    var r := ProcessUpdate(l, e);
    var i := LastMatch(l.orders, e.clientID);
    if i >= 0 {
      LastMatchSameIds(l.orders, r.orders, e.clientID);
      assert r.orders[i := r.orders[i].(filled := e.filled, status := e.status)] == r.orders;
    }
  }

  // ---- Reconciliation -----------------------------------------------------------------------

  ghost predicate FillsNonNegative(getFilled: (nat, string) -> Option<Answer>)
  {
    forall i, id :: getFilled(i, id).Some? ==> getFilled(i, id).value.filled >= 0.0
  }

  /** Reconciling keeps the ledger sound and, since it never touches a settled order, keeps it exact. */
  lemma {:induction false} ReconcileKeeps(l: Ledger, getFilled: (nat, string) -> Option<Answer>, n: nat)
    requires n <= |l.orders|
    ensures var r := Reconcile(l, getFilled, n);
            && Ids(r.orders) == Ids(l.orders)
            && (Sound(l) && FillsNonNegative(getFilled) ==> Sound(r))
            && (Exact(l) ==> Exact(r))
  {
    if n > 0 {
      ReconcileKeeps(l, getFilled, n - 1);
      var m := Reconcile(l, getFilled, n - 1);
      var o := m.orders[n - 1];
      if !IsTerminal(o.status) && getFilled(n - 1, o.orderID).Some? {
        var a := getFilled(n - 1, o.orderID).value;
        ApplyFillKeeps(m, n - 1, a.filled, a.status);
      }
    }
  }

  /** A pass moves TotalFilled by exactly what it moves the settled fills, on any ledger. */
  lemma {:induction false} ReconcileTotal(l: Ledger, getFilled: (nat, string) -> Option<Answer>, n: nat)
    requires n <= |l.orders|
    ensures var r := Reconcile(l, getFilled, n);
            && r.totalFilled - l.totalFilled == SumBy(TerminalFill, r.orders) - SumBy(TerminalFill, l.orders)
            && r.totalSubmitted == l.totalSubmitted
  {
    if n > 0 {
      ReconcileTotal(l, getFilled, n - 1);
      var m := Reconcile(l, getFilled, n - 1);
      var o := m.orders[n - 1];
      if !IsTerminal(o.status) && getFilled(n - 1, o.orderID).Some? {
        var a := getFilled(n - 1, o.orderID).value;
        ApplyFillSums(m, n - 1, a.filled, a.status);
      }
    }
  }

  /** After a full pass every entry is as it was if settled, and otherwise carries the exchange's reply. */
  lemma {:induction false} ReconcileEntry(l: Ledger, getFilled: (nat, string) -> Option<Answer>, n: nat, i: nat)
    requires n <= |l.orders| && i < |l.orders|
    ensures var was, now := l.orders[i], Reconcile(l, getFilled, n).orders[i];
            if i >= n || IsTerminal(was.status) || getFilled(i, was.orderID) == None then now == was
            else now == was.(filled := getFilled(i, was.orderID).value.filled, status := getFilled(i, was.orderID).value.status)
  {
    if n > 0 {
      ReconcileEntry(l, getFilled, n - 1, i);
      ReconcileEntry(l, getFilled, n - 1, n - 1);
    }
  }

  // ---- Orphan import ------------------------------------------------------------------------

  /** The ids an import makes known: those already there and every listed, parseable, non-empty one. */
  ghost predicate Importable(o: Listed)
  {
    o.clientID.Some? && o.clientID.value != "" && o.quantity.Some?
  }

  ghost function ImportableIds(listing: seq<Listed>): set<string>
  {
    set o | o in listing && Importable(o) :: o.clientID.value
  }

  lemma ImportableSnoc(listing: seq<Listed>)
    requires listing != []
    ensures var o := listing[|listing| - 1];
            ImportableIds(listing) ==
            ImportableIds(listing[..|listing| - 1]) + (if Importable(o) then {o.clientID.value} else {})
  {
    var n := |listing| - 1;
    assert listing == listing[..n] + [listing[n]];
    assert listing[n] in listing;
  }

  /** An import keeps the ledger sound and exact, extends the order list, and learns exactly the importable ids. */
  lemma {:induction false} ImportKeeps(l: Ledger, listing: seq<Listed>)
    ensures var r := Import(l, listing);
            && l.orders <= r.orders
            && Ids(r.orders) == Ids(l.orders) + ImportableIds(listing)
            && (Sound(l) ==> Sound(r))
            && (Exact(l) ==> Exact(r))
  {
    if listing != [] {
      var n := |listing| - 1;
      ImportKeeps(l, listing[..n]);
      ImportableSnoc(listing);
      var m, o := Import(l, listing[..n]), listing[n];
      if Importable(o) && o.clientID.value !in Ids(m.orders) {
        AppendKeeps(m, OrderEntry(o.orderID, o.clientID.value, o.quantity.value, 0.0, o.status));
      }
    }
  }

  /** A ledger that knows every importable id of a listing is unchanged by importing it. */
  lemma {:induction false} ImportKnown(l: Ledger, listing: seq<Listed>)
    requires ImportableIds(listing) <= Ids(l.orders)
    ensures Import(l, listing) == l
  {
    if listing != [] {
      ImportableSnoc(listing);
      ImportKnown(l, listing[..|listing| - 1]);
    }
  }

  /** Importing the same listing again changes nothing, whatever the listing holds. */
  lemma ImportTwice(l: Ledger, listing: seq<Listed>)
    ensures Import(Import(l, listing), listing) == Import(l, listing)
  {
    ImportKeeps(l, listing);
    ImportKnown(Import(l, listing), listing);
  }

  /** Every entry an import adds is a listed order with no fill yet, whatever the order has filled. */
  lemma {:induction false} ImportedEntry(l: Ledger, listing: seq<Listed>, i: nat) returns (k: nat)
    requires |l.orders| <= i < |Import(l, listing).orders|
    ensures k < |listing| && Importable(listing[k])
    ensures var o := listing[k];
            Import(l, listing).orders[i] == OrderEntry(o.orderID, o.clientID.value, o.quantity.value, 0.0, o.status)
  {
    var n := |listing| - 1;
    var m := Import(l, listing[..n]);
    if i < |m.orders| {
      k := ImportedEntry(l, listing[..n], i);
    } else {
      k := n;
    }
  }

  /**
  The restart sequence (import, then reconcile against a truthful exchange) records an orphan's real
  fill iff the orphan was still open when it was listed, or filled nothing: reconciliation skips
  orders imported in a settled state.
   */
  lemma ImportedFillIsSeen(l: Ledger, listing: seq<Listed>, truth: string -> Answer, i: nat)
    requires |l.orders| <= i < |Import(l, listing).orders|
    ensures var imported := Import(l, listing);
            var o := Reconcile(imported, (k, id) => Some(truth(id)), |imported.orders|).orders[i];
            o.filled == truth(o.orderID).filled <==>
            !IsTerminal(imported.orders[i].status) || truth(o.orderID).filled == 0.0
  {
    var imported := Import(l, listing);
    var _ := ImportedEntry(l, listing, i);
    ReconcileEntry(imported, (k, id) => Some(truth(id)), |imported.orders|, i);
  }

  // ---- The restart sequence against the exchange --------------------------------------------

  /** What the exchange settled on this order. */
  function TrueFill(truth: string -> Answer): OrderEntry -> real
  {
    (o: OrderEntry) => if IsTerminal(truth(o.orderID).status) then truth(o.orderID).filled else 0.0
  }

  /** The exchange's fill that a settled entry lacks; an unsettled one is still going to be asked for. */
  function Lacking(truth: string -> Answer): OrderEntry -> real
  {
    (o: OrderEntry) => if IsTerminal(o.status) then TrueFill(truth)(o) - o.filled else 0.0
  }

  /** By how much TotalFilled falls short of what the exchange settled on the known orders. */
  function Shortfall(truth: string -> Answer, l: Ledger): real
  {
    SumBy(TrueFill(truth), l.orders) - l.totalFilled
  }

  /** A query that always succeeds and tells the truth. */
  function Truthful(truth: string -> Answer): (nat, string) -> Option<Answer>
  {
    (i: nat, id: string) => Some(truth(id))
  }

  function ReconcileTruthfully(l: Ledger, truth: string -> Answer): Ledger
  {
    Reconcile(l, Truthful(truth), |l.orders|)
  }

  lemma {:induction false} SumDifference(f: OrderEntry -> real, g: OrderEntry -> real, h: OrderEntry -> real,
                                         a: seq<OrderEntry>, b: seq<OrderEntry>)
    requires |a| == |b| && forall i :: 0 <= i < |a| ==> f(a[i]) - g(a[i]) == h(b[i])
    ensures SumBy(f, a) - SumBy(g, a) == SumBy(h, b)
  {
    if a != [] { SumDifference(f, g, h, a[..|a| - 1], b[..|b| - 1]); }
  }

  /** A truthful pass over an exact ledger leaves short exactly what its settled entries lacked before. */
  lemma TruthfulPassShortfall(l: Ledger, truth: string -> Answer)
    requires Exact(l)
    ensures Shortfall(truth, ReconcileTruthfully(l, truth)) == SumBy(Lacking(truth), l.orders)
  {
    var answers := Truthful(truth);
    var r := Reconcile(l, answers, |l.orders|);
    ReconcileKeeps(l, answers, |l.orders|);
    forall i | 0 <= i < |l.orders|
      ensures TrueFill(truth)(r.orders[i]) - TerminalFill(r.orders[i]) == Lacking(truth)(l.orders[i])
    {
      ReconcileEntry(l, answers, |l.orders|, i);
    }
    SumDifference(TrueFill(truth), TerminalFill, Lacking(truth), r.orders, l.orders);
  }

  lemma {:induction false} SumSplit(f: OrderEntry -> real, orders: seq<OrderEntry>, n: nat)
    requires n <= |orders|
    ensures SumBy(f, orders) == SumBy(f, orders[..n]) + SumBy(f, orders[n..])
    decreases |orders|
  {
    if n < |orders| {
      var m := |orders| - 1;
      SumSplit(f, orders[..m], n);
      assert orders[..m][..n] == orders[..n] && orders[n..][..m - n] == orders[..m][n..];
    } else {
      assert orders[..n] == orders && orders[n..] == [];
    }
  }

  lemma {:induction false} SumZeroIff(f: OrderEntry -> real, orders: seq<OrderEntry>)
    requires forall i :: 0 <= i < |orders| ==> f(orders[i]) >= 0.0
    ensures SumBy(f, orders) >= 0.0
    ensures SumBy(f, orders) == 0.0 <==> forall i :: 0 <= i < |orders| ==> f(orders[i]) == 0.0
  {
    if orders != [] {
      var n := |orders| - 1;
      SumZeroIff(f, orders[..n]);
      assert (forall i :: 0 <= i < |orders| ==> f(orders[i]) == 0.0) <==>
             (f(orders[n]) == 0.0 && forall i :: 0 <= i < n ==> f(orders[..n][i]) == 0.0);
    }
  }

  /**
  Restarting an exact ledger whose settled orders are up to date, by import and a truthful pass: TotalFilled falls
  short of the exchange by exactly the fills of the imported orders that were settled when listed.
   */
  lemma RestartShortfall(l: Ledger, listing: seq<Listed>, truth: string -> Answer)
    requires Exact(l) && forall o | o in l.orders :: Lacking(truth)(o) == 0.0
    ensures var imported := Import(l, listing);
            var added := imported.orders[|l.orders|..];
            && Shortfall(truth, ReconcileTruthfully(imported, truth)) == SumBy(Lacking(truth), added)
            && forall o | o in added :: Lacking(truth)(o) == if IsTerminal(o.status) then TrueFill(truth)(o) else 0.0
  {
    hide Reconcile, ReconcileTruthfully, Import;
    var imported, n := Import(l, listing), |l.orders|;
    ImportKeeps(l, listing);
    TruthfulPassShortfall(imported, truth);
    assert imported.orders[..n] == l.orders;
    SumSplit(Lacking(truth), imported.orders, n);
    SumZeroIff(Lacking(truth), l.orders);
    hide Reconcile, SumBy, Exact;
    forall o | o in imported.orders[n..] ensures o.filled == 0.0 {
      var k :| 0 <= k < |imported.orders| - n && imported.orders[n..][k] == o;
      var _ := ImportedEntry(l, listing, n + k);
    }
  }

  /** So the restart counts everything iff every imported order that was settled when listed had filled nothing. */
  lemma RestartCountsAllIff(l: Ledger, listing: seq<Listed>, truth: string -> Answer)
    requires Exact(l) && (forall o | o in l.orders :: Lacking(truth)(o) == 0.0) && forall id :: truth(id).filled >= 0.0
    ensures var imported := Import(l, listing);
            Shortfall(truth, ReconcileTruthfully(imported, truth)) == 0.0 <==>
            forall o | o in imported.orders[|l.orders|..] :: IsTerminal(o.status) ==> TrueFill(truth)(o) == 0.0
  {
    RestartShortfall(l, listing, truth);
    hide Import, ReconcileTruthfully, Reconcile, Shortfall;
    var added := Import(l, listing).orders[|l.orders|..];
    assert forall o | o in added :: Lacking(truth)(o) == if IsTerminal(o.status) then TrueFill(truth)(o) else 0.0;
    hide Lacking;
    SumZeroIff(Lacking(truth), added);
    if forall i :: 0 <= i < |added| ==> Lacking(truth)(added[i]) == 0.0 {
      forall o | o in added ensures Lacking(truth)(o) == 0.0 {}
    }
  }

  /** A later report that restates a settled order closes that order's part of the shortfall. */
  lemma RestatementCloses(l: Ledger, truth: string -> Answer, e: FillEvent)
    requires LastMatch(l.orders, e.clientID) >= 0
    requires var o := l.orders[LastMatch(l.orders, e.clientID)];
             IsTerminal(o.status) && truth(o.orderID) == Answer(e.status, e.filled) && IsTerminal(e.status) && e.filled >= o.filled
    ensures Shortfall(truth, ProcessUpdate(l, e)) ==
            Shortfall(truth, l) - Lacking(truth)(l.orders[LastMatch(l.orders, e.clientID)])
  {
    var i := LastMatch(l.orders, e.clientID);
    SumUpdate(TrueFill(truth), l.orders, i, l.orders[i].(filled := e.filled, status := e.status));
  }

  /** An orphan that filled before the restart: the restart misses its ten units, and a restating report adds them. */
  lemma SettledOrphanIsMissed()
    ensures var listing := [Listed("o1", Some("vwap.r.1"), Some(10.0), Filled)];
            var truth := (id: string) => Answer(Filled, 10.0);
            var restarted := ReconcileTruthfully(Import(EMPTY, listing), truth);
            && restarted.totalFilled == 0.0 && restarted.totalSubmitted == 10.0
            && ProcessUpdate(restarted, FillEvent("vwap.r.1", Filled, 10.0)).totalFilled == 10.0
  {
    var listing := [Listed("o1", Some("vwap.r.1"), Some(10.0), Filled)];
    assert listing[..0] == [];
    assert Import(EMPTY, listing) == ImportOne(EMPTY, listing[0]);
    var imported := Import(EMPTY, listing);
    forall f: (nat, string) -> Option<Answer> ensures Reconcile(imported, f, 1) == imported {
      assert Reconcile(imported, f, 1) == ReconcileOne(Reconcile(imported, f, 0), 0, f);
    }
    assert LastMatch(imported.orders, "vwap.r.1") == 0;
  }
}
