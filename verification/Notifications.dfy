/**
Publishing and reading a user's notifications: publishers insert an event in the log and then broadcast it
under the hub's read lock; a connecting client subscribes under the write lock, then replays the log past
its last event id, then reads its channel. Event ids are UUIDv7 values, compared as numbers.
 */
module Notifications {
  import opened Prelude

  const REPLAY_LIMIT: nat := 1000
  const HUB_BUFFER: nat := 256

  /** `todo` are the listeners a broadcast has yet to offer the event to; it holds the read lock while sending. */
  datatype Stage = Inserting | Ready | Sending(todo: set<nat>) | Done

  datatype Pub = Pub(user: string, kind: string, stage: Stage)

  /** Open listeners are the members of the hub's user sets; removal and closing are two steps. */
  datatype Link = Open | Removed | Closed

  datatype Phase = Waiting | Tailing | Replayed

  /**
  `got` is everything put in the channel, `taken` how much of it was read; `history` and `live` are what the
  socket was sent. For the statements: `before` are the broadcasts begun at subscription, `offered` the
  events offered since, and `seen` the log rows that matched the replay.
   */
  datatype Client = Client(user: string, last: Option<nat>, types: Option<set<string>>, phase: Phase, link: Link,
                           got: seq<nat>, taken: nat, history: seq<nat>, live: seq<nat>,
                           before: set<nat>, offered: set<nat>, seen: set<nat>)

  datatype Bus = Bus(pubs: map<nat, Pub>, log: set<nat>, clients: map<nat, Client>, hubClosed: bool, panicked: bool)

  const EMPTY := Bus(map[], {}, map[], false, false)

  datatype Step =
    | Publish(event: nat, user: string, kind: string)
    | Insert(event: nat, ok: bool)
    | BeginBroadcast(event: nat)
    | Offer(event: nat, client: nat)
    | EndBroadcast(event: nat)
    | Subscribe(client: nat, user: string, last: Option<nat>, types: Option<set<string>>)
    | Replay(client: nat, ok: bool)
    | Take(client: nat)
    | Remove(client: nat)
    | CloseChannel(client: nat)
    | CloseHub

  // ---- The log's answer ---------------------------------------------------------------------

  ghost predicate IsLeast(x: nat, s: set<nat>)
  {
    x in s && forall y | y in s :: x <= y
  }

  lemma LeastExists(s: set<nat>) returns (x: nat)
    requires s != {}
    ensures IsLeast(x, s)
    decreases |s|
  {
    var some :| some in s;
    x := some;
    if s != {some} {
      var z := LeastExists(s - {some});
      if z < some { x := z; }
      forall y | y in s ensures x <= y { assert y == some || y in s - {some}; }
    }
  }

  /** The ids in ascending order. */
  ghost function Ordered(s: set<nat>): (r: seq<nat>)
    ensures |r| == |s| && (forall x :: x in r <==> x in s)
    ensures forall i, j :: 0 <= i < j < |r| ==> r[i] < r[j]
    decreases |s|
  {
    if s == {} then []
    else
      assert exists x :: IsLeast(x, s) by { var x := LeastExists(s); }
      var x :| IsLeast(x, s);
      [x] + Ordered(s - {x})
  }

  /** Rows of this user with a greater id. */
  function Matching(b: Bus, c: Client): set<nat>
  {
    set e | e in b.log && e in b.pubs && b.pubs[e].user == c.user && (c.last.Some? ==> e > c.last.value)
  }

  ghost function Page(rows: set<nat>): seq<nat>
  {
    if |rows| <= REPLAY_LIMIT then Ordered(rows) else Ordered(rows)[..REPLAY_LIMIT]
  }

  // ---- Steps --------------------------------------------------------------------------------

  predicate Allowed(types: Option<set<string>>, kind: string)
  {
    types == None || kind in types.value
  }

  predicate Begun(stage: Stage)
  {
    stage.Sending? || stage == Done
  }

  ghost predicate Writable(b: Bus)
  {
    forall e | e in b.pubs :: !b.pubs[e].stage.Sending?
  }

  ghost function Listeners(b: Bus, user: string): set<nat>
  {
    if b.hubClosed then {} else set c | c in b.clients && b.clients[c].user == user && b.clients[c].link == Open
  }

  ghost predicate Enabled(b: Bus, step: Step)
  {
    match step
    case Publish(e, _, _) => e !in b.pubs
    case Insert(e, _) => e in b.pubs && b.pubs[e].stage == Inserting
    case BeginBroadcast(e) => e in b.pubs && b.pubs[e].stage == Ready
    case Offer(e, c) => e in b.pubs && b.pubs[e].stage.Sending? && c in b.pubs[e].stage.todo && c in b.clients
    case EndBroadcast(e) => e in b.pubs && b.pubs[e].stage == Sending({})
    case Subscribe(c, _, _, _) => Writable(b) && !b.hubClosed && c !in b.clients
    case Replay(c, _) => c in b.clients && b.clients[c].phase == Waiting
    case Take(c) => c in b.clients && b.clients[c].phase != Waiting && b.clients[c].taken < |b.clients[c].got|
                    && b.clients[c].got[b.clients[c].taken] in b.pubs
    case Remove(c) => Writable(b) && c in b.clients && b.clients[c].link == Open
    case CloseChannel(c) => c in b.clients && b.clients[c].link == Removed
    case CloseHub => Writable(b)
  }

  function SetStage(b: Bus, e: nat, stage: Stage): Bus
    requires e in b.pubs
  {
    b.(pubs := b.pubs[e := b.pubs[e].(stage := stage)])
  }

  function SetClient(b: Bus, c: nat, client: Client): Bus
  {
    b.(clients := b.clients[c := client])
  }

  /** A send that never blocks: a full channel loses this event. */
  function Offered(c: Client, e: nat): Client
  {
    var v := c.(offered := c.offered + {e});
    if |c.got| - c.taken < HUB_BUFFER then v.(got := c.got + [e]) else v
  }

  ghost function Replaying(b: Bus, c: Client, ok: bool): Client
  {
    if ok then c.(phase := Replayed, seen := Matching(b, c), history := Page(Matching(b, c))) else c.(phase := Tailing)
  }

  /** The types filter applies here, and only here. */
  function Read(b: Bus, c: Client): Client
    requires c.taken < |c.got| && c.got[c.taken] in b.pubs
  {
    var e := c.got[c.taken];
    c.(taken := c.taken + 1, live := if Allowed(c.types, b.pubs[e].kind) then c.live + [e] else c.live)
  }

  ghost function Connect(b: Bus, user: string, last: Option<nat>, types: Option<set<string>>): Client
  {
    Client(user, last, types, if last == None then Tailing else Waiting, Open, [], 0, [], [],
           set e | e in b.pubs && Begun(b.pubs[e].stage), {}, {})
  }

  ghost function Next(b: Bus, step: Step): Bus
    requires Enabled(b, step)
  {
    match step
    case Publish(e, user, kind) => b.(pubs := b.pubs[e := Pub(user, kind, Inserting)])
    case Insert(e, ok) => SetStage(b, e, Ready).(log := if ok then b.log + {e} else b.log)
    case BeginBroadcast(e) => SetStage(b, e, Sending(Listeners(b, b.pubs[e].user)))
    case Offer(e, c) =>
      SetClient(SetStage(b, e, Sending(b.pubs[e].stage.todo - {c})), c, Offered(b.clients[c], e))
      .(panicked := b.panicked || b.clients[c].link == Closed)
    case EndBroadcast(e) => SetStage(b, e, Done)
    case Subscribe(c, user, last, types) => SetClient(b, c, Connect(b, user, last, types))
    case Replay(c, ok) => SetClient(b, c, Replaying(b, b.clients[c], ok))
    case Take(c) => SetClient(b, c, Read(b, b.clients[c]))
    case Remove(c) => SetClient(b, c, b.clients[c].(link := Removed))
    case CloseChannel(c) => SetClient(b, c, b.clients[c].(link := Closed))
    case CloseHub => b.(hubClosed := true)
  }

  // ---- The invariant ------------------------------------------------------------------------

  ghost predicate Distinct(s: seq<nat>)
  {
    forall i, j :: 0 <= i < j < |s| ==> s[i] != s[j]
  }

  /** Everything put in the channel was offered once; what was read and allowed was written once. */
  ghost predicate ChannelOk(b: Bus, c: Client)
  {
    && c.taken <= |c.got| && Distinct(c.got) && Distinct(c.live)
    && (forall e | e in c.got :: e in c.offered)
    && (forall e | e in c.offered + c.before :: e in b.pubs && Begun(b.pubs[e].stage))
    && c.offered !! c.before
    && (forall e | e in b.pubs :: e in c.live <==> e in c.got[..c.taken] && Allowed(c.types, b.pubs[e].kind))
    && (forall e | e in c.live :: e in b.pubs)
  }

  /** A replay saw every row whose broadcast had begun before the subscription. */
  ghost predicate ReplayOk(b: Bus, c: Client)
  {
    && c.seen <= Matching(b, c)
    && c.history == (if c.phase == Replayed then Page(c.seen) else [])
    && (c.phase == Replayed ==> forall e | e in c.before :: e in Matching(b, c) ==> e in c.seen)
  }

  /** An event goes once to every open listener of its user: already offered, still to do, or before its time. */
  ghost predicate CastOk(b: Bus, e: nat, c: nat)
    requires e in b.pubs && c in b.clients
  {
    var p, l := b.pubs[e], b.clients[c];
    && (p.stage.Sending? && c in p.stage.todo ==> l.link == Open && l.user == p.user && e !in l.offered + l.before)
    && (Begun(p.stage) && l.user == p.user && l.link == Open && !b.hubClosed ==>
          e in l.before || e in l.offered || (p.stage.Sending? && c in p.stage.todo))
  }

  ghost predicate Inv(b: Bus)
  {
    && !b.panicked
    && (forall e | e in b.log :: e in b.pubs && b.pubs[e].stage != Inserting)
    && (forall c | c in b.clients :: ChannelOk(b, b.clients[c]) && ReplayOk(b, b.clients[c]))
    && (forall e, c | e in b.pubs && c in b.clients :: CastOk(b, e, c))
  }

  // ---- Preservation, one kind of step at a time ---------------------------------------------

  /** A publisher moving forward changes nothing a client's own state depends on. */
  lemma ForwardKeepsClient(b: Bus, v: Bus, e: nat, stage: Stage, c: Client)
    requires ChannelOk(b, c) && ReplayOk(b, c)
    requires e in b.pubs && v.pubs == b.pubs[e := b.pubs[e].(stage := stage)]
    requires Begun(b.pubs[e].stage) ==> Begun(stage)
    requires v.log == b.log || (v.log == b.log + {e} && b.pubs[e].stage == Inserting)
    ensures ChannelOk(v, c) && ReplayOk(v, c)
  {
  }

  /** A publisher's own step leaves every client alone. */
  lemma StageKeeps(b: Bus, e: nat, stage: Stage, log: set<nat>)
    requires Inv(b) && e in b.pubs
    requires match b.pubs[e].stage
             case Inserting => stage == Ready && (log == b.log || log == b.log + {e})
             case Ready => stage == Sending(Listeners(b, b.pubs[e].user)) && log == b.log
             case Sending(todo) => stage == Done && todo == {} && log == b.log
             case Done => false
    ensures Inv(SetStage(b, e, stage).(log := log))
  {
    var v := SetStage(b, e, stage).(log := log);
    forall c | c in v.clients ensures ChannelOk(v, v.clients[c]) && ReplayOk(v, v.clients[c]) {
      ForwardKeepsClient(b, v, e, stage, b.clients[c]);
    }
    forall f, c | f in v.pubs && c in v.clients ensures CastOk(v, f, c) {
      assert CastOk(b, f, c);
      if f == e { assert ChannelOk(b, b.clients[c]); }
    }
  }

  lemma PublishKeeps(b: Bus, e: nat, user: string, kind: string)
    requires Inv(b) && e !in b.pubs
    ensures Inv(Next(b, Publish(e, user, kind)))
  {
    var v := Next(b, Publish(e, user, kind));
    forall c | c in v.clients ensures ChannelOk(v, v.clients[c]) && ReplayOk(v, v.clients[c]) {
      assert ChannelOk(b, b.clients[c]) && ReplayOk(b, b.clients[c]);
    }
    forall f, c | f in v.pubs && c in v.clients ensures CastOk(v, f, c) { if f != e { assert CastOk(b, f, c); } }
  }

  /** A client's own step leaves the publishers and the other clients alone. */
  lemma ClientKeeps(b: Bus, c: nat, l: Client)
    requires Inv(b) && ChannelOk(b, l) && ReplayOk(b, l)
    requires forall e | e in b.pubs :: CastOk(SetClient(b, c, l), e, c)
    ensures Inv(SetClient(b, c, l))
  {
    var v := SetClient(b, c, l);
    forall d | d in v.clients ensures ChannelOk(v, v.clients[d]) && ReplayOk(v, v.clients[d]) {
      if d == c {
        assert ChannelOk(b, l) && ReplayOk(b, l);
      } else {
        assert ChannelOk(b, b.clients[d]) && ReplayOk(b, b.clients[d]);
      }
    }
    forall f, d | f in v.pubs && d in v.clients ensures CastOk(v, f, d) { if d != c { assert CastOk(b, f, d); } }
  }

  lemma OfferedOk(b: Bus, e: nat, c: nat)
    requires Inv(b) && Enabled(b, Offer(e, c))
    ensures ChannelOk(b, Offered(b.clients[c], e)) && ReplayOk(b, Offered(b.clients[c], e))
  {
    var l := b.clients[c];
    assert CastOk(b, e, c) && ChannelOk(b, l) && ReplayOk(b, l);
    assert Offered(l, e).got[..l.taken] == l.got[..l.taken];
  }

  lemma OfferKeeps(b: Bus, e: nat, c: nat)
    requires Inv(b) && Enabled(b, Offer(e, c))
    ensures Inv(Next(b, Offer(e, c)))
  {
    var v := Next(b, Offer(e, c));
    assert CastOk(b, e, c);
    OfferedOk(b, e, c);
    forall d | d in v.clients ensures ChannelOk(v, v.clients[d]) && ReplayOk(v, v.clients[d]) {
      ForwardKeepsClient(b, v, e, v.pubs[e].stage, if d == c then Offered(b.clients[c], e) else b.clients[d]);
    }
    forall f, d | f in v.pubs && d in v.clients ensures CastOk(v, f, d) { assert CastOk(b, f, d); }
  }

  lemma SubscribeKeeps(b: Bus, c: nat, user: string, last: Option<nat>, types: Option<set<string>>)
    requires Inv(b) && Enabled(b, Subscribe(c, user, last, types))
    ensures Inv(Next(b, Subscribe(c, user, last, types)))
  {
    ClientKeeps(b, c, Connect(b, user, last, types));
  }

  lemma ReplayKeeps(b: Bus, c: nat, ok: bool)
    requires Inv(b) && Enabled(b, Replay(c, ok))
    ensures Inv(Next(b, Replay(c, ok)))
  {
    var l := b.clients[c];
    assert ChannelOk(b, l) && ReplayOk(b, l);
    forall e | e in b.pubs ensures CastOk(SetClient(b, c, Replaying(b, l, ok)), e, c) { assert CastOk(b, e, c); }
    ClientKeeps(b, c, Replaying(b, l, ok));
  }

  lemma ReadOk(b: Bus, c: Client)
    requires ChannelOk(b, c) && c.taken < |c.got| && c.got[c.taken] in b.pubs
    ensures ChannelOk(b, Read(b, c))
  {
    var v := Read(b, c);
    assert c.got[..c.taken + 1] == c.got[..c.taken] + [c.got[c.taken]];
    assert c.got[c.taken] !in c.got[..c.taken];
  }

  lemma TakeKeeps(b: Bus, c: nat)
    requires Inv(b) && Enabled(b, Take(c))
    ensures Inv(Next(b, Take(c)))
  {
    var l := b.clients[c];
    assert ChannelOk(b, l) && ReplayOk(b, l);
    ReadOk(b, l);
    forall e | e in b.pubs ensures CastOk(SetClient(b, c, Read(b, l)), e, c) { assert CastOk(b, e, c); }
    ClientKeeps(b, c, Read(b, l));
  }

  lemma UnlinkKeeps(b: Bus, c: nat, link: Link)
    requires Inv(b) && c in b.clients && ((link == Removed && Writable(b)) || b.clients[c].link == Removed) && link != Open
    ensures Inv(SetClient(b, c, b.clients[c].(link := link)))
  {
    var l := b.clients[c].(link := link);
    assert ChannelOk(b, b.clients[c]) && ReplayOk(b, b.clients[c]);
    forall e | e in b.pubs ensures CastOk(SetClient(b, c, l), e, c) { assert CastOk(b, e, c); }
    ClientKeeps(b, c, l);
  }

  lemma CloseHubKeeps(b: Bus)
    requires Inv(b)
    ensures Inv(b.(hubClosed := true))
  {
    var v := b.(hubClosed := true);
    forall c | c in v.clients ensures ChannelOk(v, v.clients[c]) && ReplayOk(v, v.clients[c]) {
      assert ChannelOk(b, b.clients[c]) && ReplayOk(b, b.clients[c]);
    }
    forall f, d | f in v.pubs && d in v.clients ensures CastOk(v, f, d) { assert CastOk(b, f, d); }
  }

  /** In particular no send ever meets a closed channel. */
  lemma StepKeeps(b: Bus, step: Step)
    requires Inv(b) && Enabled(b, step)
    ensures Inv(Next(b, step))
  {
    match step
    case Publish(e, user, kind) => PublishKeeps(b, e, user, kind);
    case Insert(e, ok) => StageKeeps(b, e, Ready, if ok then b.log + {e} else b.log);
    case BeginBroadcast(e) => StageKeeps(b, e, Sending(Listeners(b, b.pubs[e].user)), b.log);
    case Offer(e, c) => OfferKeeps(b, e, c);
    case EndBroadcast(e) => StageKeeps(b, e, Done, b.log);
    case Subscribe(c, user, last, types) => SubscribeKeeps(b, c, user, last, types);
    case Replay(c, ok) => ReplayKeeps(b, c, ok);
    case Take(c) => TakeKeeps(b, c);
    case Remove(c) => UnlinkKeeps(b, c, Removed);
    case CloseChannel(c) => UnlinkKeeps(b, c, Closed);
    case CloseHub => CloseHubKeeps(b);
  }

  // ---- Whole runs ---------------------------------------------------------------------------

  ghost predicate Valid(b: Bus, steps: seq<Step>)
    decreases |steps|
  {
    steps == [] || (Enabled(b, steps[0]) && Valid(Next(b, steps[0]), steps[1..]))
  }

  ghost function Exec(b: Bus, steps: seq<Step>): Bus
    requires Valid(b, steps)
    decreases |steps|
  {
    if steps == [] then b else Exec(Next(b, steps[0]), steps[1..])
  }

  /** From the empty bus or any good state: no send meets a closed channel in any interleaving. */
  lemma {:induction false} RunsKeep(b: Bus, steps: seq<Step>)
    requires Inv(b) && Valid(b, steps)
    ensures Inv(Exec(b, steps)) && !Exec(b, steps).panicked && Inv(EMPTY)
    decreases |steps|
  {
    if steps != [] {
      StepKeeps(b, steps[0]);
      RunsKeep(Next(b, steps[0]), steps[1..]);
    }
  }

  // ---- What one client receives -------------------------------------------------------------

  /** How often the socket was sent the event: replayed and live copies. */
  ghost function Copies(c: Client, e: nat): nat
  {
    multiset(c.history)[e] + multiset(c.live)[e]
  }

  /** A channel that was full when the event came. */
  ghost predicate Missed(c: Client, e: nat)
  {
    e in c.offered && e !in c.got
  }

  lemma {:induction false} DistinctCount(s: seq<nat>, e: nat)
    requires Distinct(s)
    ensures multiset(s)[e] == if e in s then 1 else 0
  {
    if s != [] {
      assert s == [s[0]] + s[1..];
      DistinctCount(s[1..], e);
    }
  }

  lemma PageRows(rows: set<nat>, e: nat)
    ensures Distinct(Page(rows)) && (e in Page(rows) ==> e in rows)
    ensures |rows| <= REPLAY_LIMIT ==> (e in Page(rows) <==> e in rows)
    ensures |Page(rows)| == if |rows| <= REPLAY_LIMIT then |rows| else REPLAY_LIMIT
    ensures forall x | x in rows && x !in Page(rows) && e in Page(rows) :: e < x
  {
    var all, page := Ordered(rows), Page(rows);
    assert forall i :: 0 <= i < |page| ==> page[i] == all[i];
    forall x | x in rows && x !in page && e in page ensures e < x {
      var i :| 0 <= i < |all| && all[i] == x;
      var j :| 0 <= j < |page| && page[j] == e;
      if i <= j { assert page[i] == x; }
    }
  }

  /** The exact count: once if the replay returned the row, once more if it came live and the filter lets it pass. */
  lemma CopiesExactly(b: Bus, id: nat, e: nat)
    requires Inv(b) && id in b.clients && e in b.pubs
    ensures var c := b.clients[id];
            && Copies(c, e) == (if c.phase == Replayed && e in Page(c.seen) then 1 else 0)
                               + (if e in c.got[..c.taken] && Allowed(c.types, b.pubs[e].kind) then 1 else 0)
  {
    var c := b.clients[id];
    assert ChannelOk(b, c) && ReplayOk(b, c);
    PageRows(c.seen, e);
    DistinctCount(c.history, e);
    DistinctCount(c.live, e);
  }

  /**
  No gap: once its broadcast is over and the channel is read empty, every logged event past the last id has
  been sent at least once and at most twice, unless the replay was cut, the channel was full, the hub was
  closed or the types filter stopped it.
   */
  lemma DeliveredOnceOrTwice(b: Bus, id: nat, e: nat)
    requires Inv(b) && id in b.clients && e in b.pubs
    requires var c := b.clients[id];
             && c.phase == Replayed && c.link == Open && !b.hubClosed && c.taken == |c.got|
             && |c.seen| <= REPLAY_LIMIT && !Missed(c, e) && Allowed(c.types, b.pubs[e].kind)
    requires b.pubs[e].stage == Done && e in Matching(b, b.clients[id])
    ensures 1 <= Copies(b.clients[id], e) <= 2
  {
    var c := b.clients[id];
    assert ChannelOk(b, c) && ReplayOk(b, c) && CastOk(b, e, id);
    CopiesExactly(b, id, e);
    PageRows(c.seen, e);
    assert c.got[..c.taken] == c.got;
  }

  /**
  Live delivery, logged or not: once its broadcast is over, an open client that read its channel empty was sent
  the event live exactly once, unless the broadcast had begun before it subscribed, its channel was full or its
  filter refuses the type.
   */
  lemma LiveCopyExactly(b: Bus, id: nat, e: nat)
    requires Inv(b) && id in b.clients && e in b.pubs && b.pubs[e].stage == Done && b.pubs[e].user == b.clients[id].user
    requires b.clients[id].link == Open && !b.hubClosed && b.clients[id].taken == |b.clients[id].got|
    ensures var c := b.clients[id];
            multiset(c.live)[e] == if e in c.before || Missed(c, e) || !Allowed(c.types, b.pubs[e].kind) then 0 else 1
  {
    var c := b.clients[id];
    assert ChannelOk(b, c) && CastOk(b, e, id);
    DistinctCount(c.live, e);
    assert c.got[..c.taken] == c.got;
  }

  /** A failed insert does not stop live delivery, and is lost exactly where live delivery does not reach: no cache fills in. */
  lemma FailedInsertIsLostIff(b: Bus, id: nat, e: nat)
    requires Inv(b) && id in b.clients && e in b.pubs && b.pubs[e].stage == Done && b.pubs[e].user == b.clients[id].user
    requires b.clients[id].link == Open && !b.hubClosed && b.clients[id].taken == |b.clients[id].got| && e !in b.log
    ensures var c := b.clients[id];
            Copies(c, e) == if e in c.before || Missed(c, e) || !Allowed(c.types, b.pubs[e].kind) then 0 else 1
  {
    var c := b.clients[id];
    assert ReplayOk(b, c);
    LiveCopyExactly(b, id, e);
    PageRows(c.seen, e);
    DistinctCount(c.history, e);
  }

  /** A row whose insert failed is lost to a client that subscribed after its broadcast: no cache fills in. */
  lemma FailedInsertIsLost(b: Bus, id: nat, e: nat)
    requires Inv(b) && id in b.clients && e in b.clients[id].before && e !in b.log
    ensures Copies(b.clients[id], e) == 0
  {
    var c := b.clients[id];
    assert ChannelOk(b, c) && ReplayOk(b, c);
    CopiesExactly(b, id, e);
    PageRows(c.seen, e);
    assert forall x :: x in c.got[..c.taken] ==> x in c.got;
  }

  /** An unwanted type reaches the client exactly when the replay returns it. */
  lemma FilterIgnoredByReplay(b: Bus, id: nat, e: nat)
    requires Inv(b) && id in b.clients && e in b.pubs && !Allowed(b.clients[id].types, b.pubs[e].kind)
    ensures Copies(b.clients[id], e) > 0 <==> b.clients[id].phase == Replayed && e in Page(b.clients[id].seen)
  {
    CopiesExactly(b, id, e);
  }

  // ---- Runs that show it --------------------------------------------------------------------

  lemma {:induction false} Snoc(b: Bus, steps: seq<Step>, last: Step)
    requires Valid(b, steps) && Enabled(Exec(b, steps), last)
    ensures Valid(b, steps + [last]) && Exec(b, steps + [last]) == Next(Exec(b, steps), last)
    decreases |steps|
  {
    if steps == [] {
      assert Valid(Next(b, last), []) && [last][1..] == [];
    } else {
      Snoc(Next(b, steps[0]), steps[1..], last);
      assert (steps + [last])[1..] == steps[1..] + [last];
    }
  }

  /** Some run from the empty bus ends here. */
  ghost predicate Reachable(b: Bus)
  {
    exists steps :: Valid(EMPTY, steps) && Exec(EMPTY, steps) == b
  }

  lemma Reach(b: Bus, step: Step)
    requires Reachable(b) && Enabled(b, step)
    ensures Reachable(Next(b, step))
  {
    var steps :| Valid(EMPTY, steps) && Exec(EMPTY, steps) == b;
    Snoc(EMPTY, steps, step);
  }

  lemma ReachableInv(b: Bus)
    requires Reachable(b)
    ensures Inv(b)
  {
    var steps :| Valid(EMPTY, steps) && Exec(EMPTY, steps) == b;
    RunsKeep(EMPTY, steps);
  }

  /** One event published to nobody, its row logged or not. */
  function Published(e: nat, user: string, kind: string, logged: bool): Bus
  {
    Bus(map[e := Pub(user, kind, Done)], if logged then {e} else {}, map[], false, false)
  }

  lemma PublishedReachable(e: nat, user: string, kind: string, logged: bool)
    ensures Reachable(Published(e, user, kind, logged))
  {
    assert Valid(EMPTY, []) && Exec(EMPTY, []) == EMPTY;
    Reach(EMPTY, Publish(e, user, kind));
    var b1 := EMPTY.(pubs := map[e := Pub(user, kind, Inserting)]);
    Reach(b1, Insert(e, logged));
    var b2 := EMPTY.(pubs := map[e := Pub(user, kind, Ready)], log := if logged then {e} else {});
    assert Next(b1, Insert(e, logged)) == b2;
    Reach(b2, BeginBroadcast(e));
    var b3 := b2.(pubs := map[e := Pub(user, kind, Sending({}))]);
    assert Listeners(b2, user) == {} && Next(b2, BeginBroadcast(e)) == b3;
    Reach(b3, EndBroadcast(e));
    assert Next(b3, EndBroadcast(e)) == Published(e, user, kind, logged);
  }

  /** What a client is that connected after one event was published, before it replays. */
  ghost function JustConnected(e: nat, user: string, last: nat, types: Option<set<string>>): Client
  {
    Client(user, Some(last), types, Waiting, Open, [], 0, [], [], {e}, {}, {})
  }

  lemma ConnectReachable(e: nat, user: string, kind: string, logged: bool, last: nat, types: Option<set<string>>) returns (b: Bus)
    ensures b == Published(e, user, kind, logged).(clients := map[0 := JustConnected(e, user, last, types)]) && Reachable(b)
  {
    PublishedReachable(e, user, kind, logged);
    var b1 := Published(e, user, kind, logged);
    Reach(b1, Subscribe(0, user, Some(last), types));
    b := Next(b1, Subscribe(0, user, Some(last), types));
    assert b.clients[0].before == {e};
  }

  /** Then one client connects, with a lower last id, and replays. */
  lemma ConnectAfter(e: nat, user: string, kind: string, logged: bool, last: nat, types: Option<set<string>>) returns (b: Bus)
    requires last < e
    ensures Reachable(b) && b.clients.Keys == {0} && b.pubs == map[e := Pub(user, kind, Done)] && !b.hubClosed
    ensures b.log == if logged then {e} else {}
    ensures var c := b.clients[0];
            && c.user == user && c.last == Some(last) && c.types == types && c.phase == Replayed && c.link == Open
            && c.taken == |c.got| == 0 && c.before == {e} && c.seen == if logged then {e} else {}
  {
    var b1 := ConnectReachable(e, user, kind, logged, last, types);
    Reach(b1, Replay(0, true));
    hide Reachable;
    b := Next(b1, Replay(0, true));
    assert Matching(b1, b1.clients[0]) == if logged then {e} else {};
  }

  /** A reachable client, connected with an older id and up to date, that was never sent a published event. */
  lemma FailedInsertLosesEvent(e: nat, last: nat, user: string, kind: string) returns (b: Bus)
    requires last < e
    ensures Reachable(b) && 0 in b.clients && b.pubs == map[e := Pub(user, kind, Done)]
    ensures b.clients[0].phase == Replayed && b.clients[0].last == Some(last) && b.clients[0].types == None
    ensures Copies(b.clients[0], e) == 0
  {
    b := ConnectAfter(e, user, kind, false, last, None);
    ReachableInv(b);
    assert ReplayOk(b, b.clients[0]);
    CopiesExactly(b, 0, e);
    PageRows({}, e);
  }

  /** A reachable client that was sent an event of a type it did not ask for. */
  lemma FilteredEventIsReplayed(e: nat, last: nat, user: string, kind: string, wanted: set<string>) returns (b: Bus)
    requires last < e && kind !in wanted
    ensures Reachable(b) && 0 in b.clients && b.pubs == map[e := Pub(user, kind, Done)]
    ensures b.clients[0].types == Some(wanted) && Copies(b.clients[0], e) == 1
  {
    b := ConnectAfter(e, user, kind, true, last, Some(wanted));
    ReachableInv(b);
    CopiesExactly(b, 0, e);
    PageRows({e}, e);
  }
}
