/**
What a client of the notification hub is sent over a whole run: each condition is read off the run's own steps,
and the channel's size is a number.
 */
module NotificationDelivery {
  import opened Prelude
  import opened Notifications

  // ---- One step -------------------------------------------------------------------------------

  /** An offer puts the event at the channel's end iff fewer than 256 are unread; nothing else of any client's socket moves. */
  lemma OfferOutcome(b: Bus, e: nat, id: nat)
    requires Enabled(b, Offer(e, id))
    ensures var v, c := Next(b, Offer(e, id)), b.clients[id];
            && v.clients.Keys == b.clients.Keys && v.log == b.log
            && (forall other | other in b.clients && other != id :: v.clients[other] == b.clients[other])
            && v.clients[id].got == (if |c.got| - c.taken < 256 then c.got + [e] else c.got)
            && v.clients[id].taken == c.taken && v.clients[id].live == c.live && v.clients[id].history == c.history
            && v.clients[id].link == c.link && v.clients[id].phase == c.phase
  {
  }

  /** A read takes the oldest unread event and sends it iff the client asked for all types or for this one. */
  lemma TakeOutcome(b: Bus, id: nat)
    requires Enabled(b, Take(id))
    ensures var v, c := Next(b, Take(id)).clients[id], b.clients[id];
            var e := c.got[c.taken];
            && v.taken == c.taken + 1 && v.got == c.got && v.history == c.history
            && v.live == if c.types.Some? && b.pubs[e].kind !in c.types.value then c.live else c.live + [e]
  {
  }

  /** A successful replay sends the logged rows of the client's user past its last id, lowest first, at most 1000. */
  lemma ReplayOutcome(b: Bus, id: nat, e: nat)
    requires Inv(b) && Enabled(b, Replay(id, true))
    ensures var h, c := Next(b, Replay(id, true)).clients[id].history, b.clients[id];
            && |h| <= 1000 && (forall i, j :: 0 <= i < j < |h| ==> h[i] < h[j])
            && (e in h ==> Owned(b, c, e))
            && (Owned(b, c, e) && e !in h ==> |h| == 1000 && forall x | x in h :: x < e)
  {
    var c := b.clients[id];
    PageAnswers(Matching(b, c), e);
    OwnedIffMatching(b, c, e);
    hide Inv, Owned, Matching, Page;
  }

  /** The page is the lowest 1000 rows, in order. */
  lemma PageAnswers(rows: set<nat>, e: nat)
    ensures var page := Page(rows);
            && |page| <= 1000 && (forall i, j :: 0 <= i < j < |page| ==> page[i] < page[j])
            && (e in page ==> e in rows) && (e in rows && e !in page ==> |page| == 1000 && forall x | x in page :: x < e)
  {
    var all, page := Ordered(rows), Page(rows);
    assert forall i :: 0 <= i < |page| ==> page[i] == all[i];
    PageRows(rows, e);
    forall x | x in page && e in rows && e !in page ensures x < e { PageRows(rows, x); }
  }

  /** A logged row of the client's user, past the id the client came with. */
  ghost predicate Owned(b: Bus, c: Client, e: nat)
  {
    e in b.log && e in b.pubs && b.pubs[e].user == c.user && (c.last == None || c.last.value < e)
  }

  lemma OwnedIffMatching(b: Bus, c: Client, e: nat)
    ensures Owned(b, c, e) <==> e in Matching(b, c)
  {
  }

  // ---- Conditions read off the run ------------------------------------------------------------

  /** The run offers the event to the client while at least 256 of its channel are unread. */
  ghost predicate FullAtOffer(b: Bus, steps: seq<Step>, id: nat, e: nat)
    requires Valid(b, steps)
    decreases |steps|
  {
    && steps != []
    && ((steps[0] == Offer(e, id) && |b.clients[id].got| - b.clients[id].taken >= 256)
        || FullAtOffer(Next(b, steps[0]), steps[1..], id, e))
  }

  /** The client subscribes in the run after the event's broadcast has begun. */
  ghost predicate BegunAtSubscribe(b: Bus, steps: seq<Step>, id: nat, e: nat)
    requires Valid(b, steps)
    decreases |steps|
  {
    && steps != []
    && ((steps[0].Subscribe? && steps[0].client == id && e in b.pubs && (b.pubs[e].stage.Sending? || b.pubs[e].stage.Done?))
        || BegunAtSubscribe(Next(b, steps[0]), steps[1..], id, e))
  }

  ghost predicate MissedBy(b: Bus, id: nat, e: nat)
  {
    id in b.clients && Missed(b.clients[id], e)
  }

  ghost predicate BegunFor(b: Bus, id: nat, e: nat)
  {
    id in b.clients && e in b.clients[id].before
  }

  lemma MissedStep(b: Bus, step: Step, id: nat, e: nat)
    requires Inv(b) && Enabled(b, step)
    ensures MissedBy(Next(b, step), id, e) <==>
              MissedBy(b, id, e) || (step == Offer(e, id) && |b.clients[id].got| - b.clients[id].taken >= 256)
  {
    if step == Offer(e, id) {
      assert CastOk(b, e, id) && ChannelOk(b, b.clients[id]);
    } else {
      OtherMissed(b, step, id, e);
    }
  }

  lemma OtherMissed(b: Bus, step: Step, id: nat, e: nat)
    requires Enabled(b, step) && step != Offer(e, id)
    ensures MissedBy(Next(b, step), id, e) <==> MissedBy(b, id, e)
  {
    hide Listeners, Matching, Page, Writable;
  }

  /** A client misses an event in a run exactly when some offer of it found the channel full. */
  lemma {:induction false} MissedIff(b: Bus, steps: seq<Step>, id: nat, e: nat)
    requires Inv(b) && Valid(b, steps)
    ensures MissedBy(Exec(b, steps), id, e) <==> MissedBy(b, id, e) || FullAtOffer(b, steps, id, e)
    decreases |steps|
  {
    if steps != [] {
      MissedStep(b, steps[0], id, e);
      StepKeeps(b, steps[0]);
      MissedIff(Next(b, steps[0]), steps[1..], id, e);
    }
  }

  lemma BegunStep(b: Bus, step: Step, id: nat, e: nat)
    requires Enabled(b, step)
    ensures BegunFor(Next(b, step), id, e) <==>
              BegunFor(b, id, e) || (step.Subscribe? && step.client == id && e in b.pubs && Begun(b.pubs[e].stage))
  {
  }

  lemma {:induction false} BegunIff(b: Bus, steps: seq<Step>, id: nat, e: nat)
    requires Valid(b, steps)
    ensures BegunFor(Exec(b, steps), id, e) <==> BegunFor(b, id, e) || BegunAtSubscribe(b, steps, id, e)
    decreases |steps|
  {
    if steps != [] {
      BegunStep(b, steps[0], id, e);
      BegunIff(Next(b, steps[0]), steps[1..], id, e);
    }
  }

  // ---- What a run sends -----------------------------------------------------------------------

  /** The client is still connected to an open hub and has read its channel empty. */
  ghost predicate Settled(b: Bus, id: nat)
  {
    id in b.clients && b.clients[id].link == Open && !b.hubClosed && b.clients[id].taken == |b.clients[id].got|
  }

  /** The event's broadcast is over, and it is the client's. */
  ghost predicate OutFor(b: Bus, id: nat, e: nat)
  {
    id in b.clients && e in b.pubs && b.pubs[e].stage == Done && b.pubs[e].user == b.clients[id].user
  }

  ghost predicate Asked(b: Bus, id: nat, e: nat)
    requires id in b.clients && e in b.pubs
  {
    b.clients[id].types == None || b.pubs[e].kind in b.clients[id].types.value
  }

  /** Live delivery over a run, logged or not: exactly one copy, or none if it came too late, met a full channel or is unwanted. */
  lemma LiveCopyOverRun(steps: seq<Step>, id: nat, e: nat)
    requires Valid(EMPTY, steps) && Settled(Exec(EMPTY, steps), id) && OutFor(Exec(EMPTY, steps), id, e)
    ensures var b := Exec(EMPTY, steps);
            multiset(b.clients[id].live)[e] ==
              if BegunAtSubscribe(EMPTY, steps, id, e) || FullAtOffer(EMPTY, steps, id, e) || !Asked(b, id, e) then 0 else 1
  {
    RunsKeep(EMPTY, steps);
    MissedIff(EMPTY, steps, id, e);
    BegunIff(EMPTY, steps, id, e);
    LiveCopyExactly(Exec(EMPTY, steps), id, e);
  }

  /**
  No gap over a run: a logged event of the client's user past its last id, its broadcast over, was sent once by the
  replay if it is in there and once more if it came live. It was never sent only if it met a full channel, is
  unwanted, or the replay was cut after 1000 lower ids.
   */
  lemma DeliveredOverRun(steps: seq<Step>, id: nat, e: nat)
    requires Valid(EMPTY, steps) && Settled(Exec(EMPTY, steps), id) && OutFor(Exec(EMPTY, steps), id, e)
    requires Exec(EMPTY, steps).clients[id].phase == Replayed && Owned(Exec(EMPTY, steps), Exec(EMPTY, steps).clients[id], e)
    ensures var b := Exec(EMPTY, steps);
            var c := b.clients[id];
            && Copies(c, e) == (if e in c.history then 1 else 0) +
                 (if BegunAtSubscribe(EMPTY, steps, id, e) || FullAtOffer(EMPTY, steps, id, e) || !Asked(b, id, e) then 0 else 1)
            && (Copies(c, e) == 0 ==>
                  || FullAtOffer(EMPTY, steps, id, e) || !Asked(b, id, e)
                  || (|c.history| == 1000 && forall x | x in c.history :: x < e))
  {
    var b := Exec(EMPTY, steps);
    LiveCopyOverRun(steps, id, e);
    BegunIff(EMPTY, steps, id, e);
    RunsKeep(EMPTY, steps);
    ReplayedOrCut(b, id, e);
  }

  lemma ReplayedOrCut(b: Bus, id: nat, e: nat)
    requires Inv(b) && id in b.clients && b.clients[id].phase == Replayed && Owned(b, b.clients[id], e)
    ensures var c := b.clients[id];
            && multiset(c.history)[e] == (if e in c.history then 1 else 0)
            && (e in c.before && e !in c.history ==> |c.history| == 1000 && forall x | x in c.history :: x < e)
  {
    var c := b.clients[id];
    assert ReplayOk(b, c);
    OwnedIffMatching(b, c, e);
    PageAnswers(c.seen, e);
    PageRows(c.seen, e);
    DistinctCount(c.history, e);
  }

  /** A failed insert over a run: the event is lost exactly where live delivery did not reach. */
  lemma FailedInsertOverRun(steps: seq<Step>, id: nat, e: nat)
    requires Valid(EMPTY, steps) && Settled(Exec(EMPTY, steps), id) && OutFor(Exec(EMPTY, steps), id, e)
    requires e !in Exec(EMPTY, steps).log
    ensures var b := Exec(EMPTY, steps);
            Copies(b.clients[id], e) ==
              if BegunAtSubscribe(EMPTY, steps, id, e) || FullAtOffer(EMPTY, steps, id, e) || !Asked(b, id, e) then 0 else 1
  {
    RunsKeep(EMPTY, steps);
    MissedIff(EMPTY, steps, id, e);
    BegunIff(EMPTY, steps, id, e);
    FailedInsertIsLostIff(Exec(EMPTY, steps), id, e);
  }

  // ---- Whose events, and in which order -------------------------------------------------------

  /** The events of a channel that the filter lets pass, in the channel's order. */
  ghost function Passing(b: Bus, types: Option<set<string>>, s: seq<nat>): seq<nat>
  {
    if s == [] then []
    else
      var e, rest := s[|s| - 1], Passing(b, types, s[..|s| - 1]);
      if e in b.pubs && (types == None || b.pubs[e].kind in types.value) then rest + [e] else rest
  }

  /** Offers were the user's own events, and what was sent live is what was read and asked for, in order. */
  ghost predicate Faithful(b: Bus, c: Client)
  {
    && (forall e | e in c.offered :: e in b.pubs && b.pubs[e].user == c.user)
    && c.taken <= |c.got| && c.live == Passing(b, c.types, c.got[..c.taken])
  }

  lemma {:induction false} PassingFrame(b: Bus, v: Bus, types: Option<set<string>>, s: seq<nat>)
    requires forall e | e in s :: e in b.pubs && e in v.pubs && v.pubs[e].kind == b.pubs[e].kind
    ensures Passing(v, types, s) == Passing(b, types, s)
  {
    if s != [] {
      var n := |s| - 1;
      assert forall e | e in s[..n] :: e in s;
      PassingFrame(b, v, types, s[..n]);
    }
  }

  /** A client whose channel, reads and sends a step leaves alone stays faithful. */
  lemma FaithfulFrame(b: Bus, v: Bus, c: Client, d: Client)
    requires ChannelOk(b, c) && Faithful(b, c)
    requires forall e | e in b.pubs :: e in v.pubs && v.pubs[e].kind == b.pubs[e].kind && v.pubs[e].user == b.pubs[e].user
    requires d.user == c.user && d.types == c.types && d.taken == c.taken && d.live == c.live
    requires d.offered == c.offered && |c.got| <= |d.got| && d.got[..c.taken] == c.got[..c.taken]
    ensures Faithful(v, d)
  {
    assert forall e | e in c.got[..c.taken] :: e in c.got;
    PassingFrame(b, v, c.types, c.got[..c.taken]);
  }

  lemma OfferFaithful(b: Bus, e: nat, id: nat)
    requires Inv(b) && Enabled(b, Offer(e, id)) && Faithful(b, b.clients[id])
    ensures Faithful(Next(b, Offer(e, id)), Next(b, Offer(e, id)).clients[id])
  {
    var v, c := Next(b, Offer(e, id)), b.clients[id];
    var d := v.clients[id];
    assert CastOk(b, e, id) && ChannelOk(b, c);
    assert d.got[..c.taken] == c.got[..c.taken];
    FaithfulFrame(b, v, c, d.(offered := c.offered));
  }

  lemma TakeFaithful(b: Bus, id: nat)
    requires Enabled(b, Take(id)) && Faithful(b, b.clients[id])
    ensures Faithful(Next(b, Take(id)), Next(b, Take(id)).clients[id])
  {
    var v, c := Next(b, Take(id)), b.clients[id];
    var s := c.got[..c.taken + 1];
    assert s[..|s| - 1] == c.got[..c.taken] && s[|s| - 1] == c.got[c.taken];
    assert v.pubs == b.pubs;
    PassingFrame(b, v, c.types, []);
    PassingSame(b, v, c.types, s);
  }

  lemma {:induction false} PassingSame(b: Bus, v: Bus, types: Option<set<string>>, s: seq<nat>)
    requires v.pubs == b.pubs
    ensures Passing(v, types, s) == Passing(b, types, s)
  {
    if s != [] { PassingSame(b, v, types, s[..|s| - 1]); }
  }

  lemma StepFaithful(b: Bus, step: Step, id: nat)
    requires Inv(b) && Enabled(b, step) && (id in b.clients ==> Faithful(b, b.clients[id])) && id in Next(b, step).clients
    ensures Faithful(Next(b, step), Next(b, step).clients[id])
  {
    if step.Offer? && step.client == id {
      OfferFaithful(b, step.event, id);
    } else if step == Take(id) {
      TakeFaithful(b, id);
    } else if id in b.clients {
      assert ChannelOk(b, b.clients[id]);
      OtherFaithful(b, step, id);
    }
  }

  lemma OtherFaithful(b: Bus, step: Step, id: nat)
    requires Enabled(b, step) && id in b.clients && ChannelOk(b, b.clients[id]) && Faithful(b, b.clients[id])
    requires step != Take(id) && !(step.Offer? && step.client == id)
    ensures Faithful(Next(b, step), Next(b, step).clients[id])
  {
    hide ChannelOk, Faithful, Passing, Listeners, Matching, Page, Connect, Writable;
    PubsKept(b, step);
    SocketKept(b, step, id);
    hide Enabled, Next;
    FaithfulFrame(b, Next(b, step), b.clients[id], Next(b, step).clients[id]);
  }

  /** No step takes an event back or changes whose or of what kind it is. */
  lemma PubsKept(b: Bus, step: Step)
    requires Enabled(b, step)
    ensures forall e | e in b.pubs :: e in Next(b, step).pubs && Next(b, step).pubs[e].kind == b.pubs[e].kind
                                      && Next(b, step).pubs[e].user == b.pubs[e].user
  {
    hide Listeners, Matching, Page, Connect, Writable;
  }

  lemma SocketKept(b: Bus, step: Step, id: nat)
    requires Enabled(b, step) && id in b.clients && step != Take(id) && !(step.Offer? && step.client == id)
    ensures id in Next(b, step).clients
    ensures var c, d := b.clients[id], Next(b, step).clients[id];
            && d.user == c.user && d.types == c.types && d.taken == c.taken && d.live == c.live && d.offered == c.offered && d.got == c.got
  {
    hide Listeners, Matching, Page, Connect, Writable;
  }

  lemma {:induction false} RunFaithful(b: Bus, steps: seq<Step>, id: nat)
    requires Inv(b) && Valid(b, steps) && (id in b.clients ==> Faithful(b, b.clients[id])) && id in Exec(b, steps).clients
    ensures Faithful(Exec(b, steps), Exec(b, steps).clients[id])
    decreases |steps|
  {
    if steps != [] {
      StepKeeps(b, steps[0]);
      if id in Next(b, steps[0]).clients { StepFaithful(b, steps[0], id); }
      RunFaithful(Next(b, steps[0]), steps[1..], id);
    }
  }

  /**
  Over every run a client is only ever sent events of its own user: live exactly those it read and asked for, in
  the channel's order; replayed only logged ones past its last id, in id order.
   */
  lemma OnlyOwnEvents(steps: seq<Step>, id: nat, e: nat)
    requires Valid(EMPTY, steps) && id in Exec(EMPTY, steps).clients
    ensures var b := Exec(EMPTY, steps);
            var c := b.clients[id];
            && (e in c.live ==> e in b.pubs && b.pubs[e].user == c.user)
            && c.taken <= |c.got| && c.live == Passing(b, c.types, c.got[..c.taken])
            && (e in c.history ==> Owned(b, c, e))
            && (forall i, j :: 0 <= i < j < |c.history| ==> c.history[i] < c.history[j])
  {
    RunsKeep(EMPTY, steps);
    RunFaithful(EMPTY, steps, id);
    SentIsOwn(Exec(EMPTY, steps), id, e);
  }

  lemma SentIsOwn(b: Bus, id: nat, e: nat)
    requires Inv(b) && id in b.clients && Faithful(b, b.clients[id])
    ensures var c := b.clients[id];
            && (e in c.live ==> e in b.pubs && b.pubs[e].user == c.user)
            && (e in c.history ==> Owned(b, c, e))
            && (forall i, j :: 0 <= i < j < |c.history| ==> c.history[i] < c.history[j])
  {
    var c := b.clients[id];
    assert ChannelOk(b, c) && ReplayOk(b, c);
    if e in c.live { assert e in c.got[..c.taken]; }
    hide Passing, Ordered, ChannelOk;
    OwnedIffMatching(b, c, e);
    PageAnswers(c.seen, e);
  }

  // ---- A run that delivers --------------------------------------------------------------------

  /** A client subscribes, an event is published and broadcast, and the client reads it: sent live, once. */
  lemma LiveCopyReached(e: nat, user: string, kind: string, logged: bool) returns (b: Bus)
    ensures Reachable(b) && Settled(b, 0) && OutFor(b, 0, e)
    ensures b.clients[0].live == [e] && b.clients[0].history == [] && Copies(b.clients[0], e) == 1
  {
    assert Valid(EMPTY, []) && Exec(EMPTY, []) == EMPTY;
    Reach(EMPTY, Subscribe(0, user, None, None));
    var b1 := Next(EMPTY, Subscribe(0, user, None, None));
    var b2 := Broadcasting(b1, e, user, kind, logged);
    Reach(b2, Offer(e, 0));
    var b3 := Next(b2, Offer(e, 0));
    Reach(b3, EndBroadcast(e));
    var b4 := Next(b3, EndBroadcast(e));
    Reach(b4, Take(0));
    b := Next(b4, Take(0));
    assert b.clients[0].live == [e];
  }

  lemma Broadcasting(b: Bus, e: nat, user: string, kind: string, logged: bool) returns (v: Bus)
    requires Reachable(b) && b.pubs == map[] && b.clients.Keys == {0} && b.clients[0].user == user && b.clients[0].link == Open
    requires !b.hubClosed
    ensures Reachable(v) && v.pubs == map[e := Pub(user, kind, Sending({0}))] && v.clients == b.clients && !v.hubClosed
  {
    Reach(b, Publish(e, user, kind));
    var b1 := Next(b, Publish(e, user, kind));
    Reach(b1, Insert(e, logged));
    var b2 := Next(b1, Insert(e, logged));
    Reach(b2, BeginBroadcast(e));
    v := Next(b2, BeginBroadcast(e));
    assert Listeners(b2, user) == {0};
  }
}
