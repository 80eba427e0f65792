/** The mutable run state and the executor's operations on it, proved against ExecLedger's functions. */
module ExecState {
  import opened Prelude
  import opened ExecLedger

  class RunState {
    var totalFilled: real
    var totalSubmitted: real
    var orders: seq<OrderEntry>

    ghost function View(): Ledger
      reads this
    {
      Ledger(totalFilled, totalSubmitted, orders)
    }

    constructor (l: Ledger)
      ensures View() == l
    {
      totalFilled, totalSubmitted, orders := l.totalFilled, l.totalSubmitted, l.orders;
    }

    method AppendOrder(o: OrderEntry) returns (i: nat)
      modifies `orders
      ensures orders == old(orders) + [o] && i == |old(orders)|
    {
      orders := orders + [o];
      i := |orders| - 1;
    }

    /** The first entry with this client id. */
    method FindOrderByClientID(clientID: string) returns (r: Option<OrderEntry>)
      ensures r == None <==> clientID !in Ids(orders)
      ensures r.Some? ==> exists i :: 0 <= i < |orders| && orders[i] == r.value && r.value.clientID == clientID
                                      && forall j :: 0 <= j < i ==> orders[j].clientID != clientID
    {
      for i := 0 to |orders|
        invariant forall j :: 0 <= j < i ==> orders[j].clientID != clientID
      {
        if orders[i].clientID == clientID {
          assert orders[i] in orders;
          return Some(orders[i]);
        }
      }
      return None;
    }

    /** Overwrites the fill and status at `idx`; an index out of range is ignored. */
    method SetOrder(idx: int, filled: real, status: Status)
      modifies `orders
      ensures orders == if 0 <= idx < |old(orders)|
                        then old(orders)[idx := old(orders)[idx].(filled := filled, status := status)] else old(orders)
    {
      if idx < 0 || idx >= |orders| { return; }
      orders := orders[idx := orders[idx].(filled := filled, status := status)];
    }

    method AddTotalSubmitted(d: real)
      modifies `totalSubmitted
      ensures totalSubmitted == old(totalSubmitted) + d
    {
      totalSubmitted := totalSubmitted + d;
    }

    method AddTotalFilled(d: real)
      modifies `totalFilled
      ensures totalFilled == old(totalFilled) + d
    {
      totalFilled := totalFilled + d;
    }
  }

  /** The persisted row of one run; a write may fail and leave the previous one. */
  class StateStore {
    var saved: Option<Ledger>

    constructor ()
      ensures saved == None
    {
      saved := None;
    }
  }

  class Executor {
    /** False when no market client is configured. */
    const market: bool
    const store: StateStore?

    constructor (market: bool, store: StateStore?)
      ensures this.market == market && this.store == store
    {
      this.market, this.store := market, store;
    }

    ghost function Saved(): Option<Ledger>
      reads store
    {
      if store == null then None else store.saved
    }

    /** Persists the state if there is a store and the write goes through. */
    method SaveState(state: RunState, writeOk: bool)
      modifies store
      ensures Saved() == if store != null && writeOk then Some(state.View()) else old(Saved())
    {
      if store == null { return; }
      if writeOk {
        store.saved := Some(Ledger(state.totalFilled, state.totalSubmitted, state.orders));
      }
    }

    /** `reply` is the exchange's answer to the create call: None for an error, else the order id. */
    method PlaceOrder(state: RunState, quantity: real, clientID: string, reply: Option<string>)
      returns (r: Result<string>)
      modifies state
      ensures r == if reply == None || reply.value == "" then Err else Ok(reply.value)
      ensures state.View() == if r == Err then old(state.View())
                              else Append(old(state.View()), OrderEntry(r.value, clientID, quantity, 0.0, Open))
    {
      if reply == None { return Err; }
      if reply.value == "" { return Err; }
      var _ := state.AppendOrder(OrderEntry(reply.value, clientID, quantity, 0.0, Open));
      state.AddTotalSubmitted(quantity);
      return Ok(reply.value);
    }

    /** Applies one order-update event and saves; an unknown order is ignored and nothing is saved. */
    method ProcessOrderUpdate(state: RunState, evt: FillEvent, writeOk: bool)
      modifies state, store
      ensures state.View() == ProcessUpdate(old(state.View()), evt)
      ensures EntriesUpdated(old(state.View()), state.View(), evt) && TotalUpdated(old(state.View()), state.View(), evt)
      ensures Saved() == if evt.clientID in Ids(old(state.orders)) && store != null && writeOk
                         then Some(state.View()) else old(Saved())
    {
      hide EntriesUpdated, TotalUpdated;
      UpdateIsRight(state.View(), evt);
      var found := state.FindOrderByClientID(evt.clientID);
      if found == None {
        assert forall k :: 0 <= k < |state.orders| ==> state.orders[k] in state.orders;
        return;
      }
      var prevFilled, wasTerminal, idx := 0.0, false, -1;
      for i := 0 to |state.orders|
        invariant -1 <= idx < i
        invariant forall k :: idx < k < i ==> state.orders[k].clientID != evt.clientID
        invariant idx >= 0 ==> state.orders[idx].clientID == evt.clientID && prevFilled == state.orders[idx].filled
                               && wasTerminal == IsTerminal(state.orders[idx].status)
      {
        if state.orders[i].clientID == evt.clientID {
          prevFilled := state.orders[i].filled;
          wasTerminal := IsTerminal(state.orders[i].status);
          idx := i;
        }
      }
      LastMatchIs(state.orders, evt.clientID, idx);
      state.SetOrder(idx, evt.filled, evt.status);
      if IsTerminal(evt.status) {
        if !wasTerminal {
          state.AddTotalFilled(evt.filled);
        } else {
          var delta := evt.filled - prevFilled;
          if delta > 0.0 {
            state.AddTotalFilled(delta);
          }
        }
      }
      SaveState(state, writeOk);
    }

    /** One pass over the unsettled orders; each is overwritten with the exchange's answer, if there is one. */
    method ReconcilePendingOrders(state: RunState, getFilled: (nat, string) -> Option<Answer>, writeOk: bool)
      modifies state, store
      ensures state.View() == if market then Reconcile(old(state.View()), getFilled, |old(state.orders)|)
                              else old(state.View())
      ensures Saved() == if market && store != null && writeOk then Some(state.View()) else old(Saved())
    {
      if !market { return; }
      for idx := 0 to |state.orders|
        invariant |state.orders| == |old(state.orders)|
        invariant state.View() == Reconcile(old(state.View()), getFilled, idx)
        invariant Saved() == old(Saved())
      {
        var o := state.orders[idx];
        if !IsTerminal(o.status) {
          var reply := getFilled(idx, o.orderID);
          if reply.Some? {
            // The entry was unsettled a moment ago and only this loop writes it, so its whole fill is new.
            state.SetOrder(idx, reply.value.filled, reply.value.status);
            if IsTerminal(reply.value.status) {
              state.AddTotalFilled(reply.value.filled);
            }
          }
        }
      }
      SaveState(state, writeOk);
    }

    /** Appends every listed order the state lacks; `listing` is None when the list call fails. */
    method ImportOrphanedOrders(state: RunState, prefix: string, listing: Option<seq<Listed>>, writeOk: bool)
      modifies state, store
      ensures state.View() == if market && prefix != "" && listing.Some? then Import(old(state.View()), listing.value)
                              else old(state.View())
      ensures Saved() == if |state.orders| > |old(state.orders)| && store != null && writeOk
                         then Some(state.View()) else old(Saved())
    {
      if !market || prefix == "" { return; }
      if listing == None { return; }
      var orders := listing.value;
      if orders == [] { return; }
      var imported := 0;
      for i := 0 to |orders|
        invariant state.View() == Import(old(state.View()), orders[..i])
        invariant |state.orders| == |old(state.orders)| + imported
        invariant imported >= 0 && Saved() == old(Saved())
      {
        var o := orders[i];
        assert orders[..i + 1][..i] == orders[..i];
        if o.clientID.Some? && o.clientID.value != "" {
          var found := state.FindOrderByClientID(o.clientID.value);
          if found == None && o.quantity.Some? {
            var _ := state.AppendOrder(OrderEntry(o.orderID, o.clientID.value, o.quantity.value, 0.0, o.status));
            state.AddTotalSubmitted(o.quantity.value);
            imported := imported + 1;
          }
        }
      }
      assert orders[..|orders|] == orders;
      if imported > 0 {
        SaveState(state, writeOk);
      }
    }

    /** The persisted state, or the empty one when nothing was saved or the row cannot be read. */
    method LoadState(readOk: bool) returns (state: RunState)
      ensures fresh(state)
      ensures state.View() == if readOk && Saved().Some? then Saved().value else EMPTY
    {
      if store != null && readOk && store.saved.Some? {
        state := new RunState(store.saved.value);
      } else {
        state := new RunState(EMPTY);
      }
    }
  }

  lemma LastMatchIs(orders: seq<OrderEntry>, id: string, idx: int)
    requires id in Ids(orders)
    requires -1 <= idx < |orders| && forall k :: idx < k < |orders| ==> orders[k].clientID != id
    requires idx >= 0 ==> orders[idx].clientID == id
    ensures idx >= 0 && LastMatch(orders, id) == idx
  {
    var o :| o in orders && o.clientID == id;
    var j :| 0 <= j < |orders| && orders[j] == o;
  }
}
