/** Where the positions of a replay come from: each was opened at one bar, on that bar's own decision and budget. */
module ReplayEntries {
  import opened Prelude
  import opened Replay
  import Laws = ReplayLaws

  /** The position a decision at bar i opens: at the close, for the whole bonds its budget buys. */
  ghost predicate OpenedAt<V>(p: Policy<V>, tape: Tape, i: int, pos: Position<V>)
  {
    && 0 <= i < |tape.bars|
    && p.update(tape.bars[..i + 1], Ingested(tape.trades, CloseTime(p, tape, i))) == Ok(pos.view)
    && MayEnter(p, tape, i, pos.view) && pos.signal == p.signal(pos.view)
    && pos.time == CloseTime(p, tape, i) && pos.price == tape.bars[i].close != 0.0
    && pos.quantity == WholeBonds(pos.entryBalance, p.size(pos.view), pos.price) != 0.0
  }

  ghost predicate Opened<V>(p: Policy<V>, tape: Tape, pos: Position<V>)
  {
    exists i :: OpenedAt(p, tape, i, pos)
  }

  ghost predicate Traced<V>(p: Policy<V>, tape: Tape, s: Sim<V>)
  {
    (s.open.Some? ==> Opened(p, tape, s.open.value)) && forall k :: 0 <= k < |s.closed| ==> Opened(p, tape, s.closed[k].entry)
  }

  lemma CloseKeepsTrace<V>(p: Policy<V>, tape: Tape, s: Sim<V>, at: int, x: Exit)
    requires Traced(p, tape, s) && s.open.Some?
    ensures Traced(p, tape, CloseAt(s, at, x))
  {
  }

  lemma {:induction false} TicksKeepTrace<V>(p: Policy<V>, tape: Tape, bar: Bar, v: V, s: Sim<V>, window: seq<Tick>)
    requires Traced(p, tape, s)
    ensures Traced(p, tape, OnTicks(p, bar, v, s, window))
    decreases |window|
  {
    if s.open.Some? && window != [] {
      match p.tickExit(v, s.open.value, bar, window[0])
      case Some(x) => CloseKeepsTrace(p, tape, s, window[0].time, x);
      case None => TicksKeepTrace(p, tape, bar, v, s, window[1..]);
    }
  }

  lemma DecisionKeepsTrace<V>(p: Policy<V>, tape: Tape, i: nat, v: V, s: Sim<V>)
    requires i < |tape.bars| && Traced(p, tape, s) && AtClose(p, tape, i, v, s).Ok?
    requires p.update(tape.bars[..i + 1], Ingested(tape.trades, CloseTime(p, tape, i))) == Ok(v)
    ensures Traced(p, tape, AtClose(p, tape, i, v, s).value)
  {
    var r := AtClose(p, tape, i, v, s).value;
    if s.open.Some? {
      var exit := p.barExit(v, s.open.value, tape.bars[i], Covered(p, tape, i));
      if exit.Some? { CloseKeepsTrace(p, tape, s, CloseTime(p, tape, i), exit.value); }
    } else if r.open.Some? {
      assert OpenedAt(p, tape, i, r.open.value);
    }
  }

  /** Every position a replay ever holds was opened at one of its bars. */
  lemma {:induction false} EntriesTraced<V>(p: Policy<V>, tape: Tape, n: nat)
    requires n <= |tape.bars| && After(p, tape, n).Ok?
    ensures Traced(p, tape, After(p, tape, n).value)
  {
    if n > 0 {
      EntriesTraced(p, tape, n - 1);
      var s, i := After(p, tape, n - 1).value, n - 1;
      var v := p.update(tape.bars[..i + 1], Ingested(tape.trades, CloseTime(p, tape, i))).value;
      DecisionKeepsTrace(p, tape, i, v, s);
      TicksKeepTrace(p, tape, tape.bars[i], v, AtClose(p, tape, i, v, s).value,
                     Window(tape.ticks, CloseTime(p, tape, i), WindowEnd(p, tape, i)));
    }
  }

  /** And so was every entry a finished replay reports. */
  lemma OutcomeTraced<V>(p: Policy<V>, tape: Tape)
    requires Simple(p, tape).Ok?
    ensures forall k :: 0 <= k < |Simple(p, tape).value.closed| ==> Opened(p, tape, Simple(p, tape).value.closed[k].entry)
  {
    var n := |tape.bars|;
    EntriesTraced(p, tape, n);
    var s := After(p, tape, n).value;
    if s.open.Some? && n > 0 {
      CloseKeepsTrace(p, tape, s, CloseTime(p, tape, n - 1), Exit(tape.bars[n - 1].close, p.forcedReason, true));
    }
  }

  /**
  The k-th trade of a finished replay has a negative quantity iff, at a positive price, the equity it was opened
  with (capital plus all profit and loss before it) times its size is negative.
   */
  lemma NegativeQuantityIff<V>(p: Policy<V>, tape: Tape, k: nat)
    requires Simple(p, tape).Ok? && k < |Simple(p, tape).value.closed| && Simple(p, tape).value.closed[k].entry.price > 0.0
    ensures var closed := Simple(p, tape).value.closed;
            var entry := closed[k].entry;
            && (entry.quantity < 0.0 <==> (p.capital + Laws.TotalPnl(closed[..k])) * p.size(entry.view) < 0.0)
            && entry.quantity != 0.0 && entry.signal != Hold
  {
    OutcomeTraced(p, tape);
    Laws.OutcomeChained(p, tape);
    var entry := Simple(p, tape).value.closed[k].entry;
    assert Opened(p, tape, entry);
    var i :| OpenedAt(p, tape, i, entry);
    Laws.EntrySign(entry.entryBalance, p.size(entry.view), entry.price);
  }
}
