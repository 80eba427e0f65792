/**
The registry of shared candle entries: the refcounts its own lock guards (`Life`), together with the
entries' streams. Subscribe holds the registry lock across two sections; cancel runs as two separate ones.
 */
module CandleRegistry {
  import opened Prelude
  import opened BarFeed
  import Stream = RegistryStream

  datatype Phase = Live | Unregistered | Released

  datatype Handle = Handle(entry: nat, phase: Phase)

  datatype Entry = Entry(key: string, refs: int, torn: bool)

  /** `holder` is the entry being subscribed to while the registry lock is held. */
  datatype Life = Life(entries: map<nat, Entry>, registry: map<string, nat>, handles: map<nat, Handle>,
                       holder: Option<nat>, tornTwice: bool)

  datatype World = World(life: Life, streams: map<nat, Stream.Stream>)

  datatype Step =
    | BeginSubscribe(key: string, id: nat, sourceOk: bool)
    | FinishSubscribe(handle: nat)
    | Emit(id: nat, bar: Candle)
    | ForwarderExit(id: nat)
    | Receive(handle: nat)
    | Unregister(handle: nat)
    | Release(handle: nat)

  // ---- The registry lock's sections ---------------------------------------------------------

  /** Look the entry up or start one; a source that cannot be started leaves everything as it was. */
  function Begin(l: Life, key: string, id: nat, sourceOk: bool): Life
  {
    if key in l.registry then l.(holder := Some(l.registry[key]))
    else if !sourceOk then l
    else l.(entries := l.entries[id := Entry(key, 0, false)], registry := l.registry[key := id], holder := Some(id))
  }

  function Finish(l: Life, handle: nat): Life
    requires l.holder.Some? && l.holder.value in l.entries
  {
    var id := l.holder.value;
    l.(entries := l.entries[id := l.entries[id].(refs := l.entries[id].refs + 1)],
       handles := l.handles[handle := Handle(id, Live)], holder := None)
  }

  function SetPhase(l: Life, handle: nat, phase: Phase): Life
    requires handle in l.handles
  {
    l.(handles := l.handles[handle := l.handles[handle].(phase := phase)])
  }

  /** Drop the count; at zero, stop the closer (fatal if done twice) and remove the entry. */
  function DropRef(l: Life, handle: nat): Life
    requires handle in l.handles && l.handles[handle].entry in l.entries
  {
    var id := l.handles[handle].entry;
    var e := l.entries[id];
    var v := SetPhase(l, handle, Released);
    if e.refs - 1 == 0 then
      v.(entries := l.entries[id := e.(refs := 0, torn := true)], registry := l.registry - {e.key}, tornTwice := l.tornTwice || e.torn)
    else v.(entries := l.entries[id := e.(refs := e.refs - 1)])
  }

  // ---- Lifetime -----------------------------------------------------------------------------

  /** The handles on an entry whose cancel has not finished. */
  ghost function Holders(l: Life, id: nat): set<nat>
  {
    set h | h in l.handles && l.handles[h].entry == id && l.handles[h].phase != Released
  }

  ghost predicate Mapped(l: Life, id: nat)
    requires id in l.entries
  {
    l.entries[id].key in l.registry && l.registry[l.entries[id].key] == id
  }

  /**
  The count is the number of handles not yet released; the entry is in the map iff the count is
  positive or it is being subscribed to, and otherwise it has been torn down.
   */
  ghost predicate Counted(l: Life, id: nat)
    requires id in l.entries
  {
    && l.entries[id].refs == |Holders(l, id)|
    && (Mapped(l, id) <==> l.entries[id].refs > 0 || l.holder == Some(id))
    && (l.entries[id].torn <==> !Mapped(l, id))
  }

  ghost predicate KeysMatch(l: Life)
  {
    && (l.holder.Some? ==> l.holder.value in l.entries)
    && (forall key | key in l.registry :: l.registry[key] in l.entries && l.entries[l.registry[key]].key == key)
    && (forall h | h in l.handles :: l.handles[h].entry in l.entries)
  }

  ghost predicate LifeInv(l: Life)
  {
    !l.tornTwice && KeysMatch(l) && forall id | id in l.entries :: Counted(l, id)
  }

  lemma BeginExisting(l: Life, key: string)
    requires LifeInv(l) && l.holder == None && key in l.registry
    ensures LifeInv(l.(holder := Some(l.registry[key])))
  {
    var v := l.(holder := Some(l.registry[key]));
    forall other | other in v.entries ensures Counted(v, other) {
      assert Counted(l, other) && Holders(v, other) == Holders(l, other);
    }
  }

  lemma BeginNew(l: Life, key: string, id: nat)
    requires LifeInv(l) && l.holder == None && key !in l.registry && id !in l.entries
    ensures LifeInv(Begin(l, key, id, true))
  {
    var v := Begin(l, key, id, true);
    assert Holders(v, id) == {};
    forall other | other in v.entries ensures Counted(v, other) {
      if other != id { assert Counted(l, other) && Holders(v, other) == Holders(l, other); }
    }
  }

  lemma BeginKeeps(l: Life, key: string, id: nat, sourceOk: bool)
    requires LifeInv(l) && l.holder == None && id !in l.entries
    ensures LifeInv(Begin(l, key, id, sourceOk))
  {
    if key in l.registry {
      BeginExisting(l, key);
    } else if sourceOk {
      BeginNew(l, key, id);
    }
  }

  lemma AddHolder(l: Life, v: Life, handle: nat, id: nat)
    requires handle !in l.handles && v.handles == l.handles[handle := Handle(id, Live)]
    ensures |Holders(v, id)| == |Holders(l, id)| + 1
    ensures forall other | other != id :: Holders(v, other) == Holders(l, other)
  {
    assert Holders(v, id) == Holders(l, id) + {handle};
  }

  lemma FinishKeeps(l: Life, handle: nat)
    requires LifeInv(l) && l.holder.Some? && handle !in l.handles
    ensures LifeInv(Finish(l, handle))
  {
    var v := Finish(l, handle);
    AddHolder(l, v, handle, l.holder.value);
    hide Holders;
    forall other | other in v.entries ensures Counted(v, other) { assert Counted(l, other); }
  }

  lemma UnregisterKeeps(l: Life, handle: nat)
    requires LifeInv(l) && handle in l.handles && l.handles[handle].phase == Live
    ensures LifeInv(SetPhase(l, handle, Unregistered))
  {
    var v := SetPhase(l, handle, Unregistered);
    forall other | other in v.entries ensures Counted(v, other) {
      assert Counted(l, other);
      assert Holders(v, other) == Holders(l, other);
    }
  }

  lemma DropRefKeeps(l: Life, handle: nat)
    requires LifeInv(l) && handle in l.handles && l.handles[handle].phase == Unregistered && l.holder == None
    ensures LifeInv(DropRef(l, handle))
  {
    var v, id := DropRef(l, handle), l.handles[handle].entry;
    assert handle in Holders(l, id);
    assert Holders(v, id) == Holders(l, id) - {handle};
    assert Counted(l, id);
    forall other | other in v.entries ensures Counted(v, other) {
      assert Counted(l, other);
      if other != id { assert Holders(v, other) == Holders(l, other); }
    }
  }

  // ---- Both locks together ------------------------------------------------------------------

  ghost function HandlesOf(l: Life, id: nat): set<nat>
  {
    set h | h in l.handles && l.handles[h].entry == id
  }

  /** An entry's stream has exactly the channels of the handles taken on it. */
  ghost predicate Linked(w: World)
  {
    && w.streams.Keys == w.life.entries.Keys
    && forall id | id in w.streams :: w.streams[id].chans.Keys == HandlesOf(w.life, id)
  }

  ghost predicate Inv(w: World)
  {
    LifeInv(w.life) && Linked(w) && forall id | id in w.streams :: Stream.Inv(w.streams[id])
  }

  ghost function StreamStep(s: Step): Stream.Step
  {
    match s
    case BeginSubscribe(_, _, _) => Stream.Exit
    case FinishSubscribe(h) => Stream.Join(h)
    case Emit(_, bar) => Stream.Emit(bar)
    case ForwarderExit(_) => Stream.Exit
    case Receive(h) => Stream.Take(h)
    case Unregister(h) => Stream.Cancel(h)
    case Release(h) => Stream.Cancel(h)
  }

  /** The entry whose stream a step touches, if any. */
  ghost function Touched(w: World, s: Step): Option<nat>
  {
    match s
    case FinishSubscribe(_) => w.life.holder
    case Emit(id, _) => Some(id)
    case ForwarderExit(id) => Some(id)
    case Receive(h) => if h in w.life.handles then Some(w.life.handles[h].entry) else None
    case Unregister(h) => if h in w.life.handles then Some(w.life.handles[h].entry) else None
    case _ => None
  }

  ghost predicate LifeEnabled(l: Life, s: Step)
  {
    match s
    case BeginSubscribe(_, id, _) => l.holder == None && id !in l.entries
    case FinishSubscribe(h) => l.holder.Some? && h !in l.handles
    case Receive(h) => h in l.handles
    case Unregister(h) => h in l.handles && l.handles[h].phase == Live
    case Release(h) => h in l.handles && l.handles[h].phase == Unregistered && l.holder == None
    case _ => true
  }

  ghost predicate Enabled(w: World, s: Step)
  {
    && LifeEnabled(w.life, s)
    && var id := Touched(w, s);
       id.Some? ==> id.value in w.streams && Stream.Enabled(w.streams[id.value], StreamStep(s))
  }

  ghost function NextLife(l: Life, s: Step): Life
    requires LifeInv(l) && LifeEnabled(l, s)
  {
    match s
    case BeginSubscribe(key, id, sourceOk) => Begin(l, key, id, sourceOk)
    case FinishSubscribe(h) => Finish(l, h)
    case Unregister(h) => SetPhase(l, h, Unregistered)
    case Release(h) => DropRef(l, h)
    case _ => l
  }

  ghost function Next(w: World, s: Step): World
    requires Inv(w) && Enabled(w, s)
  {
    var life := NextLife(w.life, s);
    var id := Touched(w, s);
    World(life,
          if id.Some? then w.streams[id.value := Stream.Next(w.streams[id.value], StreamStep(s))]
          else if s.BeginSubscribe? && s.id in life.entries then w.streams[s.id := Stream.NEW_STREAM]
          else w.streams)
  }

  lemma LifeKeeps(l: Life, s: Step)
    requires LifeInv(l) && LifeEnabled(l, s)
    ensures LifeInv(NextLife(l, s))
  {
    match s
    case BeginSubscribe(key, id, sourceOk) => BeginKeeps(l, key, id, sourceOk);
    case FinishSubscribe(h) => FinishKeeps(l, h);
    case Unregister(h) => UnregisterKeeps(l, h);
    case Release(h) => DropRefKeeps(l, h);
    case _ =>
  }

  lemma SetPhaseHandles(l: Life, handle: nat, phase: Phase, id: nat)
    requires handle in l.handles
    ensures HandlesOf(SetPhase(l, handle, phase), id) == HandlesOf(l, id)
  {
  }

  lemma DropRefHandles(l: Life, handle: nat, id: nat)
    requires handle in l.handles && l.handles[handle].entry in l.entries
    ensures HandlesOf(DropRef(l, handle), id) == HandlesOf(l, id)
  {
    SetPhaseHandles(l, handle, Released, id);
    assert DropRef(l, handle).handles == SetPhase(l, handle, Released).handles;
  }

  lemma FinishHandles(l: Life, handle: nat, id: nat)
    requires l.holder.Some? && l.holder.value in l.entries && handle !in l.handles
    ensures HandlesOf(Finish(l, handle), id) == HandlesOf(l, id) + (if l.holder == Some(id) then {handle} else {})
  {
  }

  lemma HandlesStep(l: Life, s: Step, id: nat)
    requires LifeInv(l) && LifeEnabled(l, s)
    ensures HandlesOf(NextLife(l, s), id) ==
            HandlesOf(l, id) + (if s.FinishSubscribe? && l.holder == Some(id) then {s.handle} else {})
  {
    match s
    case BeginSubscribe(_, _, _) =>
    case FinishSubscribe(h) => FinishHandles(l, h, id);
    case Unregister(h) => SetPhaseHandles(l, h, Unregistered, id);
    case Release(h) => DropRefHandles(l, h, id);
    case _ =>
  }

  lemma NewEntryHasNoHandles(l: Life, id: nat)
    requires LifeInv(l) && id !in l.entries
    ensures HandlesOf(l, id) == {}
  {
  }

  lemma EntriesStep(l: Life, s: Step)
    requires LifeInv(l) && LifeEnabled(l, s)
    ensures NextLife(l, s).entries.Keys ==
            l.entries.Keys + (if s.BeginSubscribe? && s.key !in l.registry && s.sourceOk then {s.id} else {})
  {
    hide Counted;
  }

  lemma StreamsStep(w: World, s: Step)
    requires Inv(w) && Enabled(w, s)
    ensures Next(w, s).streams.Keys == Next(w, s).life.entries.Keys
  {
    EntriesStep(w.life, s);
  }

  lemma TouchedLinkKeeps(w: World, s: Step, id: nat)
    requires Inv(w) && Enabled(w, s) && Touched(w, s) == Some(id)
    ensures Next(w, s).streams[id].chans.Keys == HandlesOf(Next(w, s).life, id)
  {
    HandlesStep(w.life, s, id);
    Stream.StepChans(w.streams[id], StreamStep(s));
  }

  lemma UntouchedLinkKeeps(w: World, s: Step, id: nat)
    requires Inv(w) && Enabled(w, s) && Touched(w, s) != Some(id) && id in w.streams
    ensures Next(w, s).streams[id].chans.Keys == HandlesOf(Next(w, s).life, id)
  {
    hide HandlesOf, LifeInv, Stream.Inv, Stream.Next, Stream.Enabled, NextLife;
    HandlesStep(w.life, s, id);
    assert s.BeginSubscribe? ==> s.id != id;
  }

  lemma NewLinkKeeps(w: World, s: Step, id: nat)
    requires Inv(w) && Enabled(w, s) && id in Next(w, s).streams && id !in w.streams
    ensures Next(w, s).streams[id].chans.Keys == HandlesOf(Next(w, s).life, id)
  {
    HandlesStep(w.life, s, id);
    NewEntryHasNoHandles(w.life, id);
  }

  lemma LinkKeeps(w: World, s: Step, id: nat)
    requires Inv(w) && Enabled(w, s) && id in Next(w, s).streams
    ensures Next(w, s).streams[id].chans.Keys == HandlesOf(Next(w, s).life, id)
  {
    if id !in w.streams {
      NewLinkKeeps(w, s, id);
    } else if Touched(w, s) == Some(id) {
      TouchedLinkKeeps(w, s, id);
    } else {
      UntouchedLinkKeeps(w, s, id);
    }
  }

  lemma LinksKeep(w: World, s: Step)
    requires Inv(w) && Enabled(w, s)
    ensures Linked(Next(w, s))
  {
    StreamsStep(w, s);
    forall id | id in Next(w, s).streams ensures Next(w, s).streams[id].chans.Keys == HandlesOf(Next(w, s).life, id) {
      LinkKeeps(w, s, id);
    }
  }

  lemma StepKeeps(w: World, s: Step)
    requires Inv(w) && Enabled(w, s)
    ensures Inv(Next(w, s))
  {
    LifeKeeps(w.life, s);
    LinksKeep(w, s);
    StreamsKeep(w, s);
  }

  lemma StreamsKeep(w: World, s: Step)
    requires Inv(w) && Enabled(w, s)
    ensures forall id | id in Next(w, s).streams :: Stream.Inv(Next(w, s).streams[id])
  {
    var id := Touched(w, s);
    if id.Some? { Stream.StepKeeps(w.streams[id.value], StreamStep(s)); }
  }

  ghost predicate Valid(w: World, steps: seq<Step>)
    requires Inv(w)
    decreases |steps|
  {
    steps == [] || (Enabled(w, steps[0]) && (StepKeeps(w, steps[0]); Valid(Next(w, steps[0]), steps[1..])))
  }

  ghost function Exec(w: World, steps: seq<Step>): World
    requires Inv(w) && Valid(w, steps)
    decreases |steps|
  {
    if steps == [] then w else StepKeeps(w, steps[0]); Exec(Next(w, steps[0]), steps[1..])
  }

  const EMPTY := World(Life(map[], map[], map[], None, false), map[])

  lemma EmptyInv()
    ensures Inv(EMPTY)
  {
  }

  /**
  Every interleaving of subscribes, cancels, emissions, exits and reads: counts are exact, entries are
  mapped iff in use, no entry is torn down twice, no closed channel is used, and every channel is in order.
   */
  lemma {:induction false} EveryInterleaving(w: World, steps: seq<Step>)
    requires Inv(w) && Valid(w, steps)
    ensures Inv(Exec(w, steps))
    decreases |steps|
  {
    if steps != [] {
      StepKeeps(w, steps[0]);
      EveryInterleaving(Next(w, steps[0]), steps[1..]);
    }
  }

  // ---- What a subscriber of the whole registry gets -----------------------------------------

  /** The step emits on this entry while the handle's unread backlog fills its channel. */
  ghost predicate Overflows(w: World, s: Step, id: nat, h: nat)
  {
    s.Emit? && s.id == id && id in w.streams && h in w.streams[id].chans && Stream.Full(w.streams[id].chans[h])
  }

  /** At every emission of the run the handle's channel has room, or is not registered. */
  ghost predicate RoomThroughout(w: World, steps: seq<Step>, id: nat, h: nat)
    requires Inv(w) && Valid(w, steps)
    decreases |steps|
  {
    steps == [] ||
    (!Overflows(w, steps[0], id, h) && (StepKeeps(w, steps[0]); RoomThroughout(Next(w, steps[0]), steps[1..], id, h)))
  }

  ghost predicate NoGapYet(w: World, id: nat, h: nat)
  {
    id in w.streams && h in w.streams[id].chans ==> w.streams[id].chans[h].gap == None
  }

  lemma GapStep(w: World, s: Step, id: nat, h: nat)
    requires Inv(w) && Enabled(w, s)
    ensures NoGapYet(Next(w, s), id, h) <==> NoGapYet(w, id, h) && !Overflows(w, s, id, h)
  {
    hide LifeInv, Linked, Stream.Inv, Stream.Next;
    if Touched(w, s) == Some(id) {
      Stream.StepChans(w.streams[id], StreamStep(s));
      if h in Next(w, s).streams[id].chans { Stream.GapStep(w.streams[id], StreamStep(s), h); }
    } else if s.BeginSubscribe? && s.id == id {
      NewStreamHasNoChannels(w, s);
    }
  }

  lemma NewStreamHasNoChannels(w: World, s: Step)
    requires Inv(w) && Enabled(w, s) && s.BeginSubscribe?
    ensures s.id !in w.streams && (s.id in Next(w, s).streams ==> Next(w, s).streams[s.id] == Stream.NEW_STREAM)
  {
  }

  lemma {:induction false} GapRun(w: World, steps: seq<Step>, id: nat, h: nat)
    requires Inv(w) && Valid(w, steps)
    ensures NoGapYet(Exec(w, steps), id, h) <==> NoGapYet(w, id, h) && RoomThroughout(w, steps, id, h)
    decreases |steps|
  {
    if steps != [] {
      StepKeeps(w, steps[0]);
      GapStep(w, steps[0], id, h);
      GapRun(Next(w, steps[0]), steps[1..], id, h);
    }
  }

  ghost predicate FromEmpty(steps: seq<Step>)
  {
    EmptyInv(); Valid(EMPTY, steps)
  }

  ghost function RunFromEmpty(steps: seq<Step>): (w: World)
    requires FromEmpty(steps)
    ensures Inv(w)
  {
    EmptyInv();
    EveryInterleaving(EMPTY, steps);
    Exec(EMPTY, steps)
  }

  ghost predicate HadRoom(steps: seq<Step>, id: nat, h: nat)
    requires FromEmpty(steps)
  {
    EmptyInv(); RoomThroughout(EMPTY, steps, id, h)
  }

  /** Over every run a subscriber misses nothing iff its channel had room at every emission while it was registered. */
  lemma MissesNothingIff(steps: seq<Step>, id: nat, h: nat)
    requires FromEmpty(steps) && id in RunFromEmpty(steps).streams && h in RunFromEmpty(steps).streams[id].chans
    ensures RunFromEmpty(steps).streams[id].chans[h].gap == None <==> HadRoom(steps, id, h)
  {
    EmptyInv();
    GapRun(EMPTY, steps, id, h);
  }

  /** One unbroken stretch from min(n, 4096) bars before joining, up to the present while registered. */
  ghost predicate Unbroken(s: Stream.Stream, c: Stream.Chan)
  {
    var start := if c.joined > 4096 then c.joined - 4096 else 0;
    && start + |c.delivered| <= |s.emitted| && c.delivered == s.emitted[start..start + |c.delivered|]
    && (c.registered ==> c.delivered == s.emitted[start..])
  }

  /** An unbroken stretch up to the bar missed first, which came after cap bars, then a subsequence without that bar. */
  ghost predicate BrokenOnce(s: Stream.Stream, c: Stream.Chan)
  {
    var start := if c.joined > 4096 then c.joined - 4096 else 0;
    && c.gap.Some? && start <= c.gap.value < |s.emitted| && c.gap.value - start <= |c.delivered| && |c.delivered| >= c.cap
    && c.delivered[..c.gap.value - start] == s.emitted[start..c.gap.value]
    && Stream.InOrder(s.emitted, c) && c.gap.value !in c.at
  }

  /** The bars a run emits on an entry, in order. */
  ghost function Emitted(steps: seq<Step>, id: nat): seq<Candle>
  {
    if steps == [] then []
    else (if steps[0].Emit? && steps[0].id == id then [steps[0].bar] else []) + Emitted(steps[1..], id)
  }

  ghost function EmittedSoFar(w: World, id: nat): seq<Candle>
  {
    if id in w.streams then w.streams[id].emitted else []
  }

  lemma EmittedStep(w: World, s: Step, id: nat)
    requires Inv(w) && Enabled(w, s)
    ensures EmittedSoFar(Next(w, s), id) == EmittedSoFar(w, id) + if s.Emit? && s.id == id then [s.bar] else []
  {
    hide LifeInv, Linked, Stream.Inv;
    if s.BeginSubscribe? && s.id == id { NewStreamHasNoChannels(w, s); }
  }

  lemma Regroup(a: seq<Candle>, b: seq<Candle>, c: seq<Candle>)
    ensures (a + b) + c == a + (b + c)
  {
  }

  lemma {:induction false} EmittedRun(w: World, steps: seq<Step>, id: nat)
    requires Inv(w) && Valid(w, steps)
    ensures EmittedSoFar(Exec(w, steps), id) == EmittedSoFar(w, id) + Emitted(steps, id)
    decreases |steps|
  {
    if steps != [] {
      hide Inv, Enabled, Next, EmittedSoFar;
      StepKeeps(w, steps[0]);
      EmittedStep(w, steps[0], id);
      EmittedRun(Next(w, steps[0]), steps[1..], id);
      Regroup(EmittedSoFar(w, id), if steps[0].Emit? && steps[0].id == id then [steps[0].bar] else [], Emitted(steps[1..], id));
    }
  }

  /** An entry's stream is exactly what the run emitted on it, in the order of the run. */
  lemma StreamIsEmissions(steps: seq<Step>, id: nat)
    requires FromEmpty(steps) && id in RunFromEmpty(steps).streams
    ensures RunFromEmpty(steps).streams[id].emitted == Emitted(steps, id)
  {
    EmptyInv();
    EmittedRun(EMPTY, steps, id);
  }

  /** So on every run from the empty registry, whatever interleaves: unbroken if there was always room, broken once if not. */
  lemma EverySubscriber(steps: seq<Step>, id: nat, h: nat)
    requires FromEmpty(steps) && id in RunFromEmpty(steps).streams && h in RunFromEmpty(steps).streams[id].chans
    ensures var s := RunFromEmpty(steps).streams[id];
            if HadRoom(steps, id, h) then Unbroken(s, s.chans[h]) else BrokenOnce(s, s.chans[h])
  {
    MissesNothingIff(steps, id, h);
    var s := RunFromEmpty(steps).streams[id];
    hide LifeInv, Linked, RunFromEmpty, HadRoom, FromEmpty;
    if s.chans[h].gap == None {
      Stream.NoGapNoDuplicate(s, h);
    } else {
      Stream.StretchThenSubsequence(s, h);
    }
  }

  /** With the registry lock free, an entry is live, mapped and not torn down exactly while someone holds it. */
  lemma LiveIffHeld(w: World, id: nat)
    requires Inv(w) && w.life.holder == None && id in w.life.entries
    ensures Mapped(w.life, id) <==> Holders(w.life, id) != {}
    ensures w.life.entries[id].torn <==> Holders(w.life, id) == {}
  {
    assert Counted(w.life, id);
  }
}
