/**
A client that goes away and comes back with the last event id it was sent. Ids order the replay, so what it gets
over both sessions depends on the order in which events were published.
 */
module NotificationReconnect {
  import opened Prelude
  import opened Notifications
  import opened NotificationDelivery

  /** Connected with a last id, replayed in full (at most 1000 rows) and read empty; the event is its user's and of a type it wants. */
  ghost predicate CaughtUp(b: Bus, id: nat, e: nat)
  {
    && id in b.clients && e in b.pubs && !b.hubClosed
    && var c := b.clients[id];
       && c.user == b.pubs[e].user && c.phase == Replayed && c.last.Some? && c.link == Open && c.taken == |c.got|
       && |c.seen| <= 1000 && Asked(b, id, e)
  }

  /**
  A logged event a returning client never gets over a run, exactly: its broadcast had begun before the client came
  back, and its id is not past the one the client came back with; unless some offer of it found the channel full.
   */
  lemma NeverSentIff(steps: seq<Step>, id: nat, e: nat)
    requires Valid(EMPTY, steps) && CaughtUp(Exec(EMPTY, steps), id, e) && !FullAtOffer(EMPTY, steps, id, e)
    requires Exec(EMPTY, steps).pubs[e].stage == Done && e in Exec(EMPTY, steps).log
    ensures var c := Exec(EMPTY, steps).clients[id];
            Copies(c, e) == 0 <==> BegunAtSubscribe(EMPTY, steps, id, e) && e <= c.last.value
  {
    RunsKeep(EMPTY, steps);
    MissedIff(EMPTY, steps, id, e);
    BegunIff(EMPTY, steps, id, e);
    NeverSentIn(Exec(EMPTY, steps), id, e);
  }

  lemma NeverSentIn(b: Bus, id: nat, e: nat)
    requires Inv(b) && CaughtUp(b, id, e) && !Missed(b.clients[id], e) && b.pubs[e].stage == Done && e in b.log
    ensures Copies(b.clients[id], e) == 0 <==> e in b.clients[id].before && e <= b.clients[id].last.value
  {
    var c := b.clients[id];
    assert ChannelOk(b, c) && ReplayOk(b, c);
    LiveCopyExactly(b, id, e);
    CopiesExactly(b, id, e);
    DistinctCount(c.live, e);
    DistinctCount(c.history, e);
    PageRows(c.seen, e);
  }

  // ---- One user's events published one after the other, in id order ---------------------------

  /** Every earlier event of the same user is out. */
  ghost predicate EarlierDone(b: Bus, e: nat)
    requires e in b.pubs
  {
    forall f | f in b.pubs && f < e && b.pubs[f].user == b.pubs[e].user :: b.pubs[f].stage == Done
  }

  /** A step of serial publishers: a new id is the user's highest, and an insert waits for all lower ones. */
  ghost predicate Serial(b: Bus, step: Step)
    requires Enabled(b, step)
  {
    match step
    case Publish(e, user, _) => forall f | f in b.pubs && b.pubs[f].user == user :: f < e
    case Insert(e, _) => EarlierDone(b, e)
    case _ => true
  }

  /** Whoever was offered an event was offered, or subscribed after, every earlier event of its user. */
  ghost predicate OffersInOrder(b: Bus, c: Client)
  {
    && (forall f | f in c.offered :: f in b.pubs && b.pubs[f].user == c.user)
    && (forall e, f | e in b.pubs && f in c.offered && e < f && b.pubs[e].user == c.user :: e in c.before || e in c.offered)
  }

  /** A replay that saw a row saw every earlier row past the last id. */
  ghost predicate SeenInOrder(b: Bus, c: Client)
  {
    && c.seen <= b.log && (forall f | f in c.seen :: f in b.pubs && b.pubs[f].user == c.user)
    && (forall e, f | e in b.log && e in b.pubs && f in c.seen && e < f && b.pubs[e].user == c.user ::
          (c.last.Some? ==> e > c.last.value) ==> e in c.seen)
  }

  ghost predicate Ascends(s: seq<nat>)
  {
    forall i, j :: 0 <= i < j < |s| ==> s[i] < s[j]
  }

  ghost predicate InSequence(b: Bus, c: Client)
  {
    OffersInOrder(b, c) && SeenInOrder(b, c) && Ascends(c.got)
  }

  ghost predicate SerialInv(b: Bus)
  {
    && Inv(b)
    && (forall e | e in b.pubs && b.pubs[e].stage != Inserting :: EarlierDone(b, e))
    && (forall e | e in b.pubs && b.pubs[e].stage.Sending? && b.pubs[e].stage.todo != {} :: !b.hubClosed)
    && (forall c | c in b.clients :: InSequence(b, b.clients[c]))
  }

  lemma OrderKeeps(b: Bus, step: Step)
    requires SerialInv(b) && Enabled(b, step) && Serial(b, step)
    ensures forall e | e in Next(b, step).pubs && Next(b, step).pubs[e].stage != Inserting :: EarlierDone(Next(b, step), e)
    ensures forall e | e in Next(b, step).pubs && Next(b, step).pubs[e].stage.Sending? && Next(b, step).pubs[e].stage.todo != {} ::
              !Next(b, step).hubClosed
  {
    hide ChannelOk, ReplayOk, CastOk, InSequence;
    var v := Next(b, step);
    forall e | e in v.pubs && v.pubs[e].stage != Inserting ensures EarlierDone(v, e) {
      if e in b.pubs && b.pubs[e].stage != Inserting { assert EarlierDone(b, e); }
    }
  }

  lemma OfferedInOrder(b: Bus, e: nat, c: nat)
    requires SerialInv(b) && Enabled(b, Offer(e, c))
    ensures OffersInOrder(b, Offered(b.clients[c], e))
  {
    hide ChannelOk, ReplayOk, SeenInOrder, Ascends;
    var l := b.clients[c];
    assert CastOk(b, e, c) && InSequence(b, l) && EarlierDone(b, e);
    forall d | d in b.pubs && d < e && b.pubs[d].user == l.user ensures d in l.before || d in l.offered {
      assert CastOk(b, d, c);
    }
  }

  lemma OfferedAscends(b: Bus, e: nat, c: nat)
    requires SerialInv(b) && Enabled(b, Offer(e, c))
    ensures Ascends(Offered(b.clients[c], e).got)
  {
    hide ReplayOk, SeenInOrder, EarlierDone;
    var l := b.clients[c];
    assert CastOk(b, e, c) && ChannelOk(b, l) && InSequence(b, l);
    forall i | 0 <= i < |l.got| ensures l.got[i] < e {
      assert l.got[i] in l.offered;
    }
  }

  /** Nothing a client's sequence depends on changes while users, rows and new ids stay in order. */
  lemma SequenceFrame(b: Bus, v: Bus, c: Client, d: Client)
    requires InSequence(b, c) && InSequenceFields(c, d)
    requires v.log == b.log && v.pubs.Keys == b.pubs.Keys && forall e :: e in b.pubs ==> v.pubs[e].user == b.pubs[e].user
    ensures InSequence(v, d)
  {
  }

  ghost predicate InSequenceFields(c: Client, d: Client)
  {
    && d.user == c.user && d.last == c.last && d.got == c.got && d.before == c.before && d.offered == c.offered
    && d.seen == c.seen
  }

  lemma PublishSequence(b: Bus, e: nat, user: string, kind: string, c: Client)
    requires InSequence(b, c) && Enabled(b, Publish(e, user, kind)) && Serial(b, Publish(e, user, kind)) && e !in b.log
    ensures InSequence(Next(b, Publish(e, user, kind)), c)
  {
  }

  lemma InsertSequence(b: Bus, e: nat, ok: bool, c: Client)
    requires SerialInv(b) && InSequence(b, c) && Enabled(b, Insert(e, ok)) && Serial(b, Insert(e, ok))
    ensures InSequence(Next(b, Insert(e, ok)), c)
  {
    forall f | f in c.seen && b.pubs[f].user == b.pubs[e].user ensures f < e {
      assert f in b.log && EarlierDone(b, f);
    }
  }

  lemma ReplaySequence(b: Bus, c: Client, ok: bool)
    requires InSequence(b, c)
    ensures InSequence(b, Replaying(b, c, ok))
  {
  }

  lemma OfferedInSequence(b: Bus, e: nat, c: nat)
    requires SerialInv(b) && Enabled(b, Offer(e, c))
    ensures InSequence(b, Offered(b.clients[c], e))
  {
    assert InSequence(b, b.clients[c]) && SeenInOrder(b, Offered(b.clients[c], e));
    hide ChannelOk, ReplayOk, CastOk, OffersInOrder, SeenInOrder, Ascends, EarlierDone;
    OfferedInOrder(b, e, c);
    OfferedAscends(b, e, c);
  }

  lemma OfferSequence(b: Bus, e: nat, d: nat, c: nat)
    requires SerialInv(b) && Enabled(b, Offer(e, d)) && c in b.clients
    ensures InSequence(Next(b, Offer(e, d)), Next(b, Offer(e, d)).clients[c])
  {
    hide ChannelOk, ReplayOk, CastOk, InSequence, EarlierDone, Listeners;
    if d == c { OfferedInSequence(b, e, c); }
    var l := if d == c then Offered(b.clients[c], e) else b.clients[c];
    SequenceFrame(b, Next(b, Offer(e, d)), l, l);
  }

  lemma FreshSequence(b: Bus, step: Step, c: nat)
    requires Enabled(b, step) && c in Next(b, step).clients && c !in b.clients
    ensures InSequence(Next(b, step), Next(b, step).clients[c])
  {
  }

  lemma SequenceKeeps(b: Bus, step: Step, c: nat)
    requires SerialInv(b) && Enabled(b, step) && Serial(b, step) && c in Next(b, step).clients
    ensures InSequence(Next(b, step), Next(b, step).clients[c])
  {
    hide ChannelOk, ReplayOk, CastOk, OffersInOrder, SeenInOrder, Ascends, EarlierDone;
    if c in b.clients {
      var l := b.clients[c];
      assert InSequence(b, l);
      match step {
        case Publish(e, user, kind) => PublishSequence(b, e, user, kind, l);
        case Insert(e, ok) => InsertSequence(b, e, ok, l);
        case Offer(e, d) => OfferSequence(b, e, d, c);
        case Replay(d, ok) =>
          ReplaySequence(b, l, ok);
          SequenceFrame(b, Next(b, step), Next(b, step).clients[c], Next(b, step).clients[c]);
        case _ => SequenceFrame(b, Next(b, step), l, Next(b, step).clients[c]);
      }
    } else {
      FreshSequence(b, step, c);
    }
  }

  lemma SerialKeeps(b: Bus, step: Step)
    requires SerialInv(b) && Enabled(b, step) && Serial(b, step)
    ensures SerialInv(Next(b, step))
  {
    StepKeeps(b, step);
    OrderKeeps(b, step);
    forall c | c in Next(b, step).clients ensures InSequence(Next(b, step), Next(b, step).clients[c]) {
      SequenceKeeps(b, step, c);
    }
  }

  ghost predicate SerialRun(b: Bus, steps: seq<Step>)
    requires Valid(b, steps)
    decreases |steps|
  {
    steps == [] || (Serial(b, steps[0]) && SerialRun(Next(b, steps[0]), steps[1..]))
  }

  lemma {:induction false} SerialRunsKeep(b: Bus, steps: seq<Step>)
    requires SerialInv(b) && Valid(b, steps) && SerialRun(b, steps)
    ensures SerialInv(Exec(b, steps))
    decreases |steps|
  {
    if steps != [] {
      SerialKeeps(b, steps[0]);
      SerialRunsKeep(Next(b, steps[0]), steps[1..]);
    }
  }

  // ---- Two sessions ---------------------------------------------------------------------------

  /**
  What a session is owed, however it connected: with a last id, only later events; and of the events broadcast before
  it subscribed, only what a successful replay returns.
   */
  ghost predicate Owed(c: Client, e: nat)
  {
    (c.last.Some? ==> e > c.last.value) && (e in c.before ==> c.phase == Replayed)
  }

  /** A session that was sent one event was sent every earlier logged one it is owed, by replay or live. */
  lemma SentUpTo(b: Bus, id: nat, sent: nat, e: nat)
    requires SerialInv(b) && id in b.clients && e in b.log && e < sent
    requires var c := b.clients[id];
             && b.pubs[e].user == c.user && Owed(c, e)
             && (sent in c.history || (sent in c.live && |c.seen| <= 1000 && !Missed(c, e))) && Asked(b, id, e)
    ensures Copies(b.clients[id], e) >= 1
  {
    var c := b.clients[id];
    assert ChannelOk(b, c) && ReplayOk(b, c) && InSequence(b, c);
    CopiesExactly(b, id, e);
    PageRows(c.seen, e);
    PageRows(c.seen, sent);
    if sent !in c.history {
      assert sent in c.got[..c.taken] && sent in c.offered;
      if e in c.offered { EarlierIsRead(c, e, sent); }
    }
  }

  lemma RanksAscend(s: seq<nat>, i: nat, j: nat)
    requires Ascends(s) && i < |s| && j < |s| && s[i] < s[j]
    ensures i < j
  {
  }

  lemma EarlierIsRead(c: Client, e: nat, sent: nat)
    requires c.taken <= |c.got| && Ascends(c.got) && e in c.got && sent in c.got[..c.taken] && e < sent
    ensures e in c.got[..c.taken]
  {
    var i :| 0 <= i < |c.got| && c.got[i] == e;
    var j :| 0 <= j < c.taken && c.got[..c.taken][j] == sent;
    RanksAscend(c.got, i, j);
    assert c.got[..c.taken][i] == e;
  }

  lemma SentIsCounted(c: Client, e: nat)
    requires e in c.history + c.live
    ensures Copies(c, e) >= 1
  {
    assert e in multiset(c.history) || e in multiset(c.live);
  }

  /** Two sessions of one user, the second come back with an id the first was sent. */
  ghost predicate Reconnected(b: Bus, first: nat, second: nat, e: nat)
  {
    && first in b.clients && CaughtUp(b, second, e) && b.pubs[e].stage == Done && e in b.log
    && var a, sent := b.clients[first], b.clients[second].last.value;
       && a.user == b.pubs[e].user && Owed(a, e)
       && |a.seen| <= 1000 && Asked(b, first, e) && sent in a.history + a.live
  }

  lemma NothingLost(b: Bus, first: nat, second: nat, e: nat)
    requires SerialInv(b) && Reconnected(b, first, second, e)
    requires !Missed(b.clients[first], e) && !Missed(b.clients[second], e)
    ensures Copies(b.clients[first], e) + Copies(b.clients[second], e) >= 1
  {
    var sent := b.clients[second].last.value;
    if e < sent {
      SentUpTo(b, first, sent, e);
    } else if e == sent {
      SentIsCounted(b.clients[first], e);
    } else {
      NeverSentIn(b, second, e);
    }
  }

  /**
  With serial publishers in id order, coming back with the id of any event the first session was sent loses nothing:
  every logged event the first session is owed, whether it replayed, failed to or never asked, was sent in one of the
  two, if no offer of it found either channel full.
   */
  lemma NothingLostAcrossReconnect(steps: seq<Step>, first: nat, second: nat, e: nat)
    requires Valid(EMPTY, steps) && SerialRun(EMPTY, steps) && Reconnected(Exec(EMPTY, steps), first, second, e)
    requires !FullAtOffer(EMPTY, steps, first, e) && !FullAtOffer(EMPTY, steps, second, e)
    ensures var b := Exec(EMPTY, steps); Copies(b.clients[first], e) + Copies(b.clients[second], e) >= 1
  {
    SerialRunsKeep(EMPTY, steps);
    MissedIff(EMPTY, steps, first, e);
    MissedIff(EMPTY, steps, second, e);
    NothingLost(Exec(EMPTY, steps), first, second, e);
  }

  // ---- Out of order ---------------------------------------------------------------------------

  /** The first session ends; then the lower id is logged. */
  lemma LowLoggedLate(b0: Bus, low: nat, high: nat, user: string, kind: string) returns (b: Bus)
    requires Reachable(b0) && low < high && b0.pubs == map[high := Pub(user, kind, Done)] && b0.clients.Keys == {0} && !b0.hubClosed
    requires b0.clients[0].link == Open && b0.log == {high}
    ensures Reachable(b) && b.log == {low, high} && !b.hubClosed && b.pubs == b0.pubs[low := Pub(user, kind, Ready)]
    ensures b.clients == b0.clients[0 := b0.clients[0].(link := Removed)]
  {
    var b1 := Next(b0, Remove(0));
    Reach(b0, Remove(0));
    var b2 := Next(b1, Publish(low, user, kind));
    Reach(b1, Publish(low, user, kind));
    b := Next(b2, Insert(low, true));
    Reach(b2, Insert(low, true));
  }

  /** And its broadcast finds nobody. */
  lemma BroadcastToNobody(b: Bus, e: nat) returns (v: Bus)
    requires Reachable(b) && e in b.pubs && b.pubs[e].stage == Ready && forall c | c in b.clients :: b.clients[c].link != Open
    ensures Reachable(v) && v == b.(pubs := b.pubs[e := b.pubs[e].(stage := Done)])
  {
    assert Listeners(b, b.pubs[e].user) == {};
    var b1 := Next(b, BeginBroadcast(e));
    Reach(b, BeginBroadcast(e));
    v := Next(b1, EndBroadcast(e));
    Reach(b1, EndBroadcast(e));
    assert v.pubs == b.pubs[e := b.pubs[e].(stage := Done)];
  }

  /** The user comes back with the higher id. */
  lemma Return(b: Bus, low: nat, high: nat, user: string, kind: string) returns (v: Bus)
    requires Reachable(b) && low < high && b.log == {low, high} && !b.hubClosed && b.clients.Keys == {0}
    requires b.pubs == map[high := Pub(user, kind, Done), low := Pub(user, kind, Done)]
    ensures Reachable(v) && v.pubs == b.pubs && v.log == b.log && v.clients.Keys == {0, 1} && v.clients[0] == b.clients[0] && !v.hubClosed
    ensures var c := v.clients[1];
            && c.user == user && c.last == Some(high) && c.types == None && c.phase == Replayed && c.link == Open
            && c.taken == |c.got| == 0 && c.offered == {} && c.before == {low, high} && c.seen == {}
  {
    hide Reachable, Page;
    var b1 := Next(b, Subscribe(1, user, Some(high), None));
    Reach(b, Subscribe(1, user, Some(high), None));
    v := Next(b1, Replay(1, true));
    Reach(b1, Replay(1, true));
    assert Matching(b1, b1.clients[1]) == {};
    assert v.clients[1].before == {low, high};
  }

  /** A run whose higher id is out first: a session that saw it comes back and never gets the lower one. */
  lemma LateLowerIdIsLost(low: nat, high: nat, user: string, kind: string) returns (b: Bus)
    requires 0 < low < high
    ensures Reachable(b) && 0 in b.clients && CaughtUp(b, 1, low) && b.pubs[low].stage == Done && low in b.log
    ensures b.clients[0].last == Some(0) && b.clients[0].user == user && b.clients[1].last == Some(high)
    ensures Copies(b.clients[0], high) == 1 && Copies(b.clients[0], low) + Copies(b.clients[1], low) == 0
  {
    var b0 := ConnectAfter(high, user, kind, true, 0, None);
    var b1 := LowLoggedLate(b0, low, high, user, kind);
    var b2 := BroadcastToNobody(b1, low);
    b := Return(b2, low, high, user, kind);
    ReachableInv(b);
    CopiesExactly(b, 0, high);
    CopiesExactly(b, 0, low);
    CopiesExactly(b, 1, low);
    PageRows({high}, high);
    PageRows({high}, low);
    PageRows({}, low);
  }
}
