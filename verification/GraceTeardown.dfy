/**
The refcounted order-update subscriptions: one open WebSocket per user, torn down by a goroutine some
time after the last run stops. A caller may wait on that goroutine while it holds the mutex; every other
step is either one mutex section or one step of a goroutine that holds nothing.
 */
module GraceTeardown {
  import opened Prelude

  /** Where a teardown goroutine is; Fired and Stopping are about to close the done channel. */
  datatype Pc = Selecting | Fired | Stopping | Locking | Finished

  /** One arming of the grace timer, with its two channels. */
  datatype Arm = Arm(sub: nat, pc: Pc, stopClosed: bool, doneClosed: bool)

  /** `grace` is the arming the two replaceable grace fields belong to; None is the pair made at creation. */
  datatype Sub = Sub(user: string, count: int, cancelled: bool, grace: Option<nat>)

  /** `waiter` is the subscription on which a caller blocks with the mutex held; `held` counts a user's runs. */
  datatype Manager = Manager(subs: seq<Sub>, arms: seq<Arm>, registry: map<string, nat>, held: map<string, nat>,
                             waiter: Option<nat>, closed: bool, panicked: bool)

  const EMPTY := Manager([], [], map[], map[], None, false, false)

  datatype Step =
    | EnsureSubscribed(user: string)
    | Resume
    | Unsubscribe(user: string)
    | Fire(arm: nat)
    | SeeStop(arm: nat)
    | CloseDone(arm: nat)
    | Teardown(arm: nat)
    | Close

  function Held(m: Manager, user: string): nat
  {
    if user in m.held then m.held[user] else 0
  }

  predicate Registered(m: Manager, s: nat)
    requires s < |m.subs|
  {
    m.subs[s].user in m.registry && m.registry[m.subs[s].user] == s
  }

  /** Every reference points at something of the right kind. */
  ghost predicate Shape(m: Manager)
  {
    && (forall user | user in m.registry :: m.registry[user] < |m.subs| && m.subs[m.registry[user]].user == user)
    && (forall a | 0 <= a < |m.arms| :: m.arms[a].sub < |m.subs| && m.subs[m.arms[a].sub].grace.Some?)
    && (forall s | 0 <= s < |m.subs| && m.subs[s].grace.Some? ::
          m.subs[s].grace.value < |m.arms| && m.arms[m.subs[s].grace.value].sub == s)
    && (m.waiter.Some? ==> m.waiter.value < |m.subs| && m.subs[m.waiter.value].grace.Some? && Registered(m, m.waiter.value))
  }

  // ---- Steps --------------------------------------------------------------------------------

  function Admit(m: Manager, s: nat): Manager
    requires s < |m.subs|
  {
    var sub := m.subs[s];
    m.(subs := m.subs[s := sub.(count := sub.count + 1)], held := m.held[sub.user := Held(m, sub.user) + 1], waiter := None)
  }

  function Open(m: Manager, user: string): Manager
  {
    m.(subs := m.subs + [Sub(user, 1, false, None)], registry := m.registry[user := |m.subs|],
       held := m.held[user := Held(m, user) + 1])
  }

  /** An armed timer is stopped and waited for, every time: stopping the same one twice closes a closed channel. */
  function Ensure(m: Manager, user: string): Manager
    requires Shape(m)
  {
    if user !in m.registry then Open(m, user)
    else
      var s := m.registry[user];
      if m.subs[s].grace == None then Admit(m, s)
      else
        var a := m.subs[s].grace.value;
        if m.arms[a].stopClosed then m.(panicked := true)
        else m.(arms := m.arms[a := m.arms[a].(stopClosed := true)], waiter := Some(s))
  }

  /** One run fewer; the last one leaves a goroutine behind. */
  function Decrement(m: Manager, s: nat): Manager
    requires s < |m.subs|
  {
    var sub := m.subs[s].(count := m.subs[s].count - 1);
    if sub.count > 0 then m.(subs := m.subs[s := sub])
    else m.(subs := m.subs[s := sub.(grace := Some(|m.arms|))], arms := m.arms + [Arm(s, Selecting, false, false)])
  }

  function Drop(m: Manager, user: string): Manager
    requires Shape(m) && Held(m, user) > 0
  {
    var v := if user in m.registry then Decrement(m, m.registry[user]) else m;
    v.(held := m.held[user := Held(m, user) - 1])
  }

  function SetPc(m: Manager, a: nat, pc: Pc): Manager
    requires a < |m.arms|
  {
    m.(arms := m.arms[a := m.arms[a].(pc := pc)])
  }

  /** The goroutine closes the done channel its subscription has now. */
  function Signal(m: Manager, a: nat): Manager
    requires Shape(m) && a < |m.arms|
  {
    var d := m.subs[m.arms[a].sub].grace.value;
    var v := SetPc(m, a, if m.arms[a].pc == Fired then Locking else Finished);
    if m.arms[d].doneClosed then v.(panicked := true)
    else v.(arms := v.arms[d := v.arms[d].(doneClosed := true)])
  }

  /** Nobody came back: cancel, and delete whatever the map holds for this user. */
  function Retire(m: Manager, s: nat): Manager
    requires s < |m.subs|
  {
    m.(subs := m.subs[s := m.subs[s].(cancelled := true)], registry := m.registry - {m.subs[s].user})
  }

  function TearDown(m: Manager, a: nat): Manager
    requires Shape(m) && a < |m.arms|
  {
    var v, s := SetPc(m, a, Finished), m.arms[a].sub;
    if m.subs[s].count > 0 then v else Retire(v, s)
  }

  function Shutdown(m: Manager): Manager
  {
    m.(subs := seq(|m.subs|, s requires 0 <= s < |m.subs| =>
                 if Registered(m, s) then m.subs[s].(cancelled := true) else m.subs[s]),
       registry := map[], closed := true)
  }

  /** Balanced callers: nobody unsubscribes without a run of that user, or calls after Close. */
  ghost predicate Enabled(m: Manager, step: Step)
  {
    match step
    case EnsureSubscribed(_) => m.waiter == None && !m.closed
    case Resume => m.waiter.Some? && m.waiter.value < |m.subs| && Signalled(m, m.waiter.value)
    case Unsubscribe(user) => m.waiter == None && !m.closed && Held(m, user) > 0
    case Fire(a) => a < |m.arms| && m.arms[a].pc == Selecting && !m.arms[a].stopClosed
    case SeeStop(a) => a < |m.arms| && m.arms[a].pc == Selecting && m.arms[a].stopClosed
    case CloseDone(a) => a < |m.arms| && (m.arms[a].pc == Fired || m.arms[a].pc == Stopping)
    case Teardown(a) => m.waiter == None && a < |m.arms| && m.arms[a].pc == Locking
    case Close => m.waiter == None
  }

  predicate Signalled(m: Manager, s: nat)
    requires s < |m.subs|
  {
    m.subs[s].grace.Some? && m.subs[s].grace.value < |m.arms| && m.arms[m.subs[s].grace.value].doneClosed
  }

  ghost function Next(m: Manager, step: Step): Manager
    requires Shape(m) && Enabled(m, step)
  {
    match step
    case EnsureSubscribed(user) => Ensure(m, user)
    case Resume => Admit(m, m.waiter.value)
    case Unsubscribe(user) => Drop(m, user)
    case Fire(a) => SetPc(m, a, Fired)
    case SeeStop(a) => SetPc(m, a, Stopping)
    case CloseDone(a) => Signal(m, a)
    case Teardown(a) => TearDown(m, a)
    case Close => Shutdown(m)
  }

  // ---- The invariant ------------------------------------------------------------------------

  /** A goroutine past its signal has closed its own channel; only a subscription's last arming may still owe it. */
  ghost predicate ArmOk(m: Manager, a: nat)
    requires Shape(m) && a < |m.arms|
  {
    var arm, last := m.arms[a], m.subs[m.arms[a].sub].grace.value;
    && (arm.doneClosed <==> arm.pc == Locking || arm.pc == Finished)
    && (arm.pc == Stopping ==> arm.stopClosed)
    && a <= last && (a < last ==> arm.doneClosed)
  }

  /** Open means mapped; a subscription in use was never armed, or its last timer was stopped and waited for. */
  ghost predicate SubOk(m: Manager, s: nat)
    requires Shape(m) && s < |m.subs|
  {
    && (Registered(m, s) <==> !m.subs[s].cancelled)
    && (m.subs[s].count > 0 && m.subs[s].grace.Some? ==> Signalled(m, s) && m.arms[m.subs[s].grace.value].stopClosed)
  }

  /** Until Close, a user with runs has a mapped subscription and its count is the number of runs. */
  ghost predicate Served(m: Manager, user: string)
    requires Shape(m)
  {
    m.closed || Held(m, user) == if user in m.registry then m.subs[m.registry[user]].count else 0
  }

  ghost predicate Inv(m: Manager)
  {
    && Shape(m) && !m.panicked
    && (forall a | 0 <= a < |m.arms| :: ArmOk(m, a))
    && (forall s | 0 <= s < |m.subs| :: SubOk(m, s))
    && (forall user :: Served(m, user))
    && (m.waiter.Some? ==> !m.closed && m.arms[m.subs[m.waiter.value].grace.value].stopClosed)
  }

  /** The armed timer of this user's subscription has been stopped before. */
  ghost predicate StopsTwice(m: Manager, user: string)
    requires Shape(m)
  {
    user in m.registry && m.subs[m.registry[user]].grace.Some? && m.arms[m.subs[m.registry[user]].grace.value].stopClosed
  }

  /** The goroutine's subscription is idle and the map holds a different one for the same user. */
  ghost predicate Stale(m: Manager, a: nat)
    requires Shape(m) && a < |m.arms|
  {
    var s := m.arms[a].sub;
    m.subs[s].count <= 0 && m.subs[s].user in m.registry && !Registered(m, s)
  }

  ghost predicate Safe(m: Manager, step: Step)
    requires Shape(m) && Enabled(m, step)
  {
    match step
    case EnsureSubscribed(user) => !StopsTwice(m, user)
    case Teardown(a) => !Stale(m, a)
    case _ => true
  }

  lemma AdmitKeeps(m: Manager, s: nat)
    requires Inv(m) && s < |m.subs| && Registered(m, s) && !m.closed
    requires m.subs[s].grace.Some? ==> Signalled(m, s) && m.arms[m.subs[s].grace.value].stopClosed
    ensures Inv(Admit(m, s))
  {
    var v := Admit(m, s);
    forall a | 0 <= a < |v.arms| ensures ArmOk(v, a) { assert ArmOk(m, a); }
    forall t | 0 <= t < |v.subs| ensures SubOk(v, t) { assert SubOk(m, t); }
    forall user ensures Served(v, user) { assert Served(m, user); }
  }

  lemma OpenKeeps(m: Manager, user: string)
    requires Inv(m) && user !in m.registry && m.waiter == None
    ensures Inv(Open(m, user))
  {
    var v := Open(m, user);
    forall a | 0 <= a < |v.arms| ensures ArmOk(v, a) { assert ArmOk(m, a); }
    forall s | 0 <= s < |v.subs| ensures SubOk(v, s) { if s < |m.subs| { assert SubOk(m, s); } }
    forall u ensures Served(v, u) { assert Served(m, u); }
  }

  lemma StopKeeps(m: Manager, user: string)
    requires Inv(m) && Enabled(m, EnsureSubscribed(user)) && user in m.registry && m.subs[m.registry[user]].grace.Some?
    ensures StopsTwice(m, user) || Inv(Ensure(m, user))
  {
    if !StopsTwice(m, user) {
      var v := Ensure(m, user);
      forall a | 0 <= a < |v.arms| ensures ArmOk(v, a) { assert ArmOk(m, a); }
      forall s | 0 <= s < |v.subs| ensures SubOk(v, s) { assert SubOk(m, s); }
      forall u ensures Served(v, u) { assert Served(m, u); }
    }
  }

  lemma DropShape(m: Manager, user: string)
    requires Inv(m) && Enabled(m, Unsubscribe(user))
    ensures user in m.registry && m.subs[m.registry[user]].count == Held(m, user) && Shape(Drop(m, user))
  {
    assert Served(m, user);
  }

  lemma DropKeeps(m: Manager, user: string)
    requires Inv(m) && Enabled(m, Unsubscribe(user))
    ensures Inv(Drop(m, user))
  {
    DropShape(m, user);
    var v, s := Drop(m, user), m.registry[user];
    assert SubOk(m, s);
    forall a | 0 <= a < |v.arms| ensures ArmOk(v, a) { if a < |m.arms| { assert ArmOk(m, a); } }
    forall t | 0 <= t < |v.subs| ensures SubOk(v, t) { assert SubOk(m, t); }
    forall u ensures Served(v, u) { assert Served(m, u); }
  }

  lemma SetPcKeeps(m: Manager, a: nat, pc: Pc)
    requires Inv(m) && a < |m.arms|
    requires match pc
             case Fired => m.arms[a].pc == Selecting
             case Stopping => m.arms[a].pc == Selecting && m.arms[a].stopClosed
             case Finished => m.arms[a].pc == Locking
             case _ => false
    ensures Inv(SetPc(m, a, pc))
  {
    var v := SetPc(m, a, pc);
    forall b | 0 <= b < |v.arms| ensures ArmOk(v, b) { assert ArmOk(m, b); }
    forall s | 0 <= s < |v.subs| ensures SubOk(v, s) { assert SubOk(m, s); }
    forall u ensures Served(v, u) { assert Served(m, u); }
  }

  /** The arming a goroutine signals for is its own. */
  lemma SignalsOwn(m: Manager, a: nat)
    requires Inv(m) && Enabled(m, CloseDone(a))
    ensures m.subs[m.arms[a].sub].grace == Some(a) && !m.arms[a].doneClosed
  {
    assert ArmOk(m, a);
  }

  lemma SignalKeeps(m: Manager, a: nat)
    requires Inv(m) && Enabled(m, CloseDone(a))
    ensures Inv(Signal(m, a))
  {
    SignalsOwn(m, a);
    var v := Signal(m, a);
    assert v.arms == m.arms[a := m.arms[a].(pc := v.arms[a].pc, doneClosed := true)];
    forall b | 0 <= b < |v.arms| ensures ArmOk(v, b) { assert ArmOk(m, b); }
    forall s | 0 <= s < |v.subs| ensures SubOk(v, s) { assert SubOk(m, s); }
    forall u ensures Served(v, u) { assert Served(m, u); }
  }

  lemma RetireKeeps(m: Manager, s: nat)
    requires Inv(m) && m.waiter == None && s < |m.subs| && m.subs[s].count <= 0
    requires m.subs[s].user in m.registry ==> Registered(m, s)
    ensures Inv(Retire(m, s))
  {
    var v := Retire(m, s);
    forall b | 0 <= b < |v.arms| ensures ArmOk(v, b) { assert ArmOk(m, b); }
    forall t | 0 <= t < |v.subs| ensures SubOk(v, t) { assert SubOk(m, t); }
    forall u ensures Served(v, u) { assert Served(m, u); }
  }

  lemma TearDownKeeps(m: Manager, a: nat)
    requires Inv(m) && Enabled(m, Teardown(a))
    ensures Stale(m, a) || Inv(TearDown(m, a))
  {
    SetPcKeeps(m, a, Finished);
    if m.subs[m.arms[a].sub].count <= 0 && !Stale(m, a) { RetireKeeps(SetPc(m, a, Finished), m.arms[a].sub); }
  }

  lemma ShutdownKeeps(m: Manager)
    requires Inv(m) && m.waiter == None
    ensures Inv(Shutdown(m))
  {
    var v := Shutdown(m);
    forall b | 0 <= b < |v.arms| ensures ArmOk(v, b) { assert ArmOk(m, b); }
    forall s | 0 <= s < |v.subs| ensures SubOk(v, s) { assert SubOk(m, s); }
  }

  /** A stale teardown unmaps a subscription that is still open. */
  lemma StaleLeaks(m: Manager, a: nat)
    requires Inv(m) && Enabled(m, Teardown(a)) && Stale(m, a)
    ensures !Inv(TearDown(m, a))
  {
    var v, t := TearDown(m, a), m.registry[m.subs[m.arms[a].sub].user];
    assert SubOk(m, t);
    assert Shape(v) ==> !SubOk(v, t);
  }

  /** The invariant survives a step of balanced callers exactly when the step is safe. */
  lemma StepKeepsIff(m: Manager, step: Step)
    requires Inv(m) && Enabled(m, step)
    ensures Inv(Next(m, step)) <==> Safe(m, step)
  {
    match step
    case EnsureSubscribed(user) =>
      if user !in m.registry {
        OpenKeeps(m, user);
      } else if m.subs[m.registry[user]].grace.Some? {
        StopKeeps(m, user);
      } else {
        AdmitKeeps(m, m.registry[user]);
      }
    case Resume => AdmitKeeps(m, m.waiter.value);
    case Unsubscribe(user) => DropKeeps(m, user);
    case Fire(a) => SetPcKeeps(m, a, Fired);
    case SeeStop(a) => SetPcKeeps(m, a, Stopping);
    case CloseDone(a) => SignalKeeps(m, a);
    case Teardown(a) =>
      TearDownKeeps(m, a);
      if Stale(m, a) { StaleLeaks(m, a); }
    case Close => ShutdownKeeps(m);
  }

  // ---- Whole runs ---------------------------------------------------------------------------

  ghost predicate Valid(m: Manager, steps: seq<Step>)
    decreases |steps|
  {
    steps == [] || (Shape(m) && Enabled(m, steps[0]) && Valid(Next(m, steps[0]), steps[1..]))
  }

  ghost predicate AllSafe(m: Manager, steps: seq<Step>)
    requires Valid(m, steps)
    decreases |steps|
  {
    steps == [] || (Safe(m, steps[0]) && AllSafe(Next(m, steps[0]), steps[1..]))
  }

  ghost predicate InvThroughout(m: Manager, steps: seq<Step>)
    requires Valid(m, steps)
    decreases |steps|
  {
    Inv(m) && (steps == [] || InvThroughout(Next(m, steps[0]), steps[1..]))
  }

  ghost function Exec(m: Manager, steps: seq<Step>): Manager
    requires Valid(m, steps)
    decreases |steps|
  {
    if steps == [] then m else Exec(Next(m, steps[0]), steps[1..])
  }

  /** Balanced callers stay served, with no panic and no leak, in exactly the runs without an unsafe step. */
  lemma {:induction false} RunKeepsIff(m: Manager, steps: seq<Step>)
    requires Inv(m) && Valid(m, steps)
    ensures InvThroughout(m, steps) <==> AllSafe(m, steps)
    decreases |steps|
  {
    if steps != [] {
      StepKeepsIff(m, steps[0]);
      if Safe(m, steps[0]) {
        RunKeepsIff(Next(m, steps[0]), steps[1..]);
      } else {
        assert !Inv(Next(m, steps[0]));
      }
    }
  }

  /** In a good state a user with runs has an open subscription whose count is the number of runs. */
  lemma RunsAreServed(m: Manager, user: string)
    requires Inv(m) && !m.closed && Held(m, user) > 0
    ensures user in m.registry && var sub := m.subs[m.registry[user]]; !sub.cancelled && sub.count == Held(m, user)
  {
    assert Served(m, user);
    assert SubOk(m, m.registry[user]);
  }

  /** Once a subscription has gone idle and come back, starting one more run on it closes a closed channel. */
  lemma SecondRunPanics(m: Manager, user: string)
    requires Inv(m) && Held(m, user) > 0 && Enabled(m, EnsureSubscribed(user))
    ensures user in m.registry && (Next(m, EnsureSubscribed(user)).panicked <==> m.subs[m.registry[user]].grace.Some?)
  {
    RunsAreServed(m, user);
    assert SubOk(m, m.registry[user]);
  }

  // ---- Waiting with the mutex held ----------------------------------------------------------

  /** The step that brings the blocked caller closer to its turn. */
  ghost function Helper(m: Manager): Step
    requires Inv(m) && m.waiter.Some?
  {
    var a := m.subs[m.waiter.value].grace.value;
    if m.arms[a].doneClosed then Resume else if m.arms[a].pc == Selecting then SeeStop(a) else CloseDone(a)
  }

  ghost function Remaining(m: Manager): nat
    requires Shape(m)
  {
    if m.waiter == None then 0
    else
      var arm := m.arms[m.subs[m.waiter.value].grace.value];
      if arm.doneClosed then 1 else if arm.pc == Selecting then 3 else 2
  }

  /** No deadlock: while a caller waits with the mutex held, some goroutine can bring it closer. */
  lemma HelperHelps(m: Manager)
    requires Inv(m) && m.waiter.Some?
    ensures Enabled(m, Helper(m)) && Inv(Next(m, Helper(m)))
    ensures Remaining(Next(m, Helper(m))) == Remaining(m) - 1
  {
    assert ArmOk(m, m.subs[m.waiter.value].grace.value);
    StepKeepsIff(m, Helper(m));
  }

  /** And nothing else delays it: every other step leaves the caller waiting and no further from its turn. */
  lemma NothingDelays(m: Manager, step: Step)
    requires Inv(m) && m.waiter.Some? && Enabled(m, step)
    ensures Inv(Next(m, step)) && (step == Resume || Next(m, step).waiter == m.waiter)
    ensures Remaining(Next(m, step)) <= Remaining(m)
  {
    assert ArmOk(m, m.subs[m.waiter.value].grace.value);
    StepKeepsIff(m, step);
    if step.CloseDone? { assert ArmOk(m, step.arm); }
  }

  // ---- Both unsafe steps happen -------------------------------------------------------------

  lemma {:induction false} Snoc(m: Manager, steps: seq<Step>, last: Step)
    requires Valid(m, steps) && Shape(Exec(m, steps)) && Enabled(Exec(m, steps), last)
    ensures Valid(m, steps + [last]) && Exec(m, steps + [last]) == Next(Exec(m, steps), last)
    decreases |steps|
  {
    if steps == [] {
      assert Valid(Next(m, last), []) && [last][1..] == [];
    } else {
      Snoc(Next(m, steps[0]), steps[1..], last);
      assert (steps + [last])[1..] == steps[1..] + [last];
    }
  }

  /** Some balanced run from the start ends here. */
  ghost predicate Reachable(m: Manager)
  {
    exists steps :: Valid(EMPTY, steps) && Exec(EMPTY, steps) == m
  }

  ghost predicate Reached(m: Manager)
  {
    Reachable(m) && Inv(m)
  }

  lemma Reach(m: Manager, step: Step)
    requires Reached(m) && Enabled(m, step)
    ensures Reachable(Next(m, step)) && (Safe(m, step) ==> Reached(Next(m, step)))
  {
    var steps :| Valid(EMPTY, steps) && Exec(EMPTY, steps) == m;
    Snoc(EMPTY, steps, step);
    StepKeepsIff(m, step);
  }

  /** One user, with the given subscriptions and armings, none of them blocked on. */
  function Sole(user: string, subs: seq<Sub>, arms: seq<Arm>, mapped: nat, held: nat): Manager
  {
    Manager(subs, arms, map[user := mapped], map[user := held], None, false, false)
  }

  function Idle(user: string): Manager
  {
    Sole(user, [Sub(user, 0, false, Some(0))], [Arm(0, Selecting, false, false)], 0, 0)
  }

  lemma IdleReachable(user: string)
    ensures Reached(Idle(user))
  {
    assert Valid(EMPTY, []) && Exec(EMPTY, []) == EMPTY;
    var m := Sole(user, [Sub(user, 1, false, None)], [], 0, 1);
    assert Next(EMPTY, EnsureSubscribed(user)) == m;
    Reach(EMPTY, EnsureSubscribed(user));
    assert Next(m, Unsubscribe(user)) == Idle(user);
    Reach(m, Unsubscribe(user));
  }

  /** From an idle subscription whose goroutine is at pc, back in use. */
  lemma Readmit(user: string, m: Manager, pc: Pc)
    requires Reached(m) && pc != Selecting
    requires m == Sole(user, [Sub(user, 0, false, Some(0))], [Arm(0, pc, true, true)], 0, 0).(waiter := Some(0))
    ensures Reached(Sole(user, [Sub(user, 1, false, Some(0))], [Arm(0, pc, true, true)], 0, 1))
  {
    assert Next(m, Resume) == Sole(user, [Sub(user, 1, false, Some(0))], [Arm(0, pc, true, true)], 0, 1);
    Reach(m, Resume);
  }

  /** Start, stop, start again within the grace time, start a second run: balanced calls that panic. */
  lemma SecondRunAfterRestart(user: string)
    ensures exists m :: Reachable(m) && m.panicked
  {
    var idle := [Sub(user, 0, false, Some(0))];
    IdleReachable(user);
    var m1 := Sole(user, idle, [Arm(0, Selecting, true, false)], 0, 0).(waiter := Some(0));
    assert Reached(m1) by {
      assert Next(Idle(user), EnsureSubscribed(user)) == m1;
      Reach(Idle(user), EnsureSubscribed(user));
    }
    var m2 := m1.(arms := [Arm(0, Stopping, true, false)]);
    assert Reached(m2) by {
      assert Next(m1, SeeStop(0)) == m2;
      Reach(m1, SeeStop(0));
    }
    var m3 := m1.(arms := [Arm(0, Finished, true, true)]);
    assert Reached(m3) by {
      assert Next(m2, CloseDone(0)) == m3;
      Reach(m2, CloseDone(0));
    }
    Readmit(user, m3, Finished);
    Reach(Sole(user, [Sub(user, 1, false, Some(0))], m3.arms, 0, 1), EnsureSubscribed(user));
  }

  /** An idle subscription with two goroutines: the first one's timer fired before the restart and stop. */
  function TwoTimers(user: string): Manager
  {
    Sole(user, [Sub(user, 0, false, Some(1))], [Arm(0, Locking, true, true), Arm(0, Selecting, false, false)], 0, 0)
  }

  /** The timer fired first: the goroutine has signalled and waits for the mutex. */
  lemma FiredReachable(user: string)
    ensures Reached(Sole(user, [Sub(user, 0, false, Some(0))], [Arm(0, Locking, false, true)], 0, 0))
  {
    IdleReachable(user);
    var m := Idle(user).(arms := [Arm(0, Fired, false, false)]);
    assert Reached(m) by {
      assert Next(Idle(user), Fire(0)) == m;
      Reach(Idle(user), Fire(0));
    }
    assert Next(m, CloseDone(0)) == Idle(user).(arms := [Arm(0, Locking, false, true)]);
    Reach(m, CloseDone(0));
  }

  lemma TwoTimersReachable(user: string)
    ensures Reached(TwoTimers(user))
  {
    FiredReachable(user);
    var m2 := Sole(user, [Sub(user, 0, false, Some(0))], [Arm(0, Locking, false, true)], 0, 0);
    var m3 := m2.(arms := [Arm(0, Locking, true, true)], waiter := Some(0));
    assert Reached(m3) by {
      assert Next(m2, EnsureSubscribed(user)) == m3;
      Reach(m2, EnsureSubscribed(user));
    }
    Readmit(user, m3, Locking);
    var m4 := Sole(user, [Sub(user, 1, false, Some(0))], m3.arms, 0, 1);
    assert Next(m4, Unsubscribe(user)) == TwoTimers(user);
    Reach(m4, Unsubscribe(user));
  }

  /** The first goroutine tears the idle subscription down and the user starts a new one. */
  function Renewed(user: string): Manager
  {
    Sole(user, [Sub(user, 0, true, Some(1)), Sub(user, 1, false, None)],
         [Arm(0, Finished, true, true), Arm(0, Selecting, false, false)], 1, 1)
  }

  lemma RenewedReachable(user: string)
    ensures Reached(Renewed(user))
  {
    TwoTimersReachable(user);
    var m0 := TwoTimers(user);
    var m1 := m0.(subs := [Sub(user, 0, true, Some(1))], arms := Renewed(user).arms, registry := map[]);
    assert Reached(m1) by {
      assert Next(m0, Teardown(0)) == m1;
      Reach(m0, Teardown(0));
    }
    assert Next(m1, EnsureSubscribed(user)) == Renewed(user);
    Reach(m1, EnsureSubscribed(user));
  }

  /** From there the second goroutine deletes the next subscription: a run whose open stream is unmapped. */
  lemma StaleTimerDropsLiveUser(user: string)
    ensures exists m :: Reachable(m) && Held(m, user) == 1 && user !in m.registry
                        && |m.subs| == 2 && m.subs[1] == Sub(user, 1, false, None)
  {
    RenewedReachable(user);
    var m2 := Renewed(user);
    var m3 := m2.(arms := m2.arms[1 := Arm(0, Fired, false, false)]);
    assert Reached(m3) by {
      assert Next(m2, Fire(1)) == m3;
      Reach(m2, Fire(1));
    }
    var m4 := m2.(arms := m2.arms[1 := Arm(0, Locking, false, true)]);
    assert Reached(m4) by {
      assert Next(m3, CloseDone(1)) == m4;
      Reach(m3, CloseDone(1));
    }
    Reach(m4, Teardown(1));
  }
}
