/** What the calls and the teardown goroutine of an order-update subscription do to it, and that an idle one goes away. */
module GraceOutcomes {
  import opened Prelude
  import opened GraceTeardown

  // ---- One call -------------------------------------------------------------------------------

  /**
  A new user gets an open subscription of its own, counted once. A known one is counted once more at once if it was
  never idle; if its timer runs, the caller stops that timer and waits, counting nothing yet.
   */
  lemma EnsureOutcome(m: Manager, user: string)
    requires Inv(m) && Enabled(m, EnsureSubscribed(user)) && !StopsTwice(m, user)
    ensures var v := Next(m, EnsureSubscribed(user));
            if user !in m.registry then
              && v.subs == m.subs + [Sub(user, 1, false, None)] && v.registry == m.registry[user := |m.subs|]
              && v.arms == m.arms && v.waiter == None
            else
              var s := m.registry[user];
              && v.registry == m.registry
              && (m.subs[s].grace == None ==>
                    v.arms == m.arms && v.waiter == None && v.subs == m.subs[s := m.subs[s].(count := m.subs[s].count + 1)])
              && (m.subs[s].grace.Some? ==>
                    var a := m.subs[s].grace.value;
                    v.subs == m.subs && v.waiter == Some(s) && v.arms == m.arms[a := m.arms[a].(stopClosed := true)])
  {
  }

  /** Every run but the last only counts down; the last one leaves a fresh goroutine with a running timer. */
  lemma UnsubscribeOutcome(m: Manager, user: string)
    requires Inv(m) && Enabled(m, Unsubscribe(user))
    ensures user in m.registry && m.registry[user] < |m.subs|
    ensures var v, s := Next(m, Unsubscribe(user)), m.registry[user];
            && v.registry == m.registry && v.waiter == m.waiter && |v.subs| == |m.subs|
            && v.subs[s].count == m.subs[s].count - 1 && !v.subs[s].cancelled
            && (forall t | 0 <= t < |m.subs| && t != s :: v.subs[t] == m.subs[t])
            && (if Held(m, user) > 1 then v.arms == m.arms && v.subs[s].grace == m.subs[s].grace
                else v.arms == m.arms + [Arm(s, Selecting, false, false)] && v.subs[s].grace == Some(|m.arms|))
  {
    DropShape(m, user);
    assert SubOk(m, m.registry[user]);
  }

  /** A goroutine that gets the mutex cancels and unmaps an idle subscription, and leaves one in use alone. */
  lemma TeardownOutcome(m: Manager, a: nat)
    requires Inv(m) && Enabled(m, Teardown(a))
    ensures var v, s := Next(m, Teardown(a)), m.arms[a].sub;
            && v.held == m.held && |v.subs| == |m.subs| && (forall t | 0 <= t < |m.subs| && t != s :: v.subs[t] == m.subs[t])
            && (if m.subs[s].count > 0 then v.subs[s] == m.subs[s] && v.registry == m.registry
                else v.subs[s].cancelled && v.registry == m.registry - {m.subs[s].user})
  {
  }

  /** After Close nothing is mapped, and every subscription ever opened is cancelled. */
  lemma CloseOutcome(m: Manager)
    requires Inv(m) && Enabled(m, Close)
    ensures var v := Next(m, Close);
            && v.closed && v.registry == map[] && |v.subs| == |m.subs|
            && forall s | 0 <= s < |m.subs| :: v.subs[s] == m.subs[s].(cancelled := true)
  {
    forall s | 0 <= s < |m.subs| ensures Next(m, Close).subs[s] == m.subs[s].(cancelled := true) { assert SubOk(m, s); }
  }

  // ---- An idle subscription goes away ---------------------------------------------------------

  /** An open subscription that nobody uses or waits for has a goroutine on its way to tear it down. */
  ghost predicate IdleOk(m: Manager, s: nat)
    requires Shape(m) && s < |m.subs|
  {
    m.subs[s].count <= 0 && Registered(m, s) && m.waiter != Some(s) ==>
      && m.subs[s].grace.Some?
      && var arm := m.arms[m.subs[s].grace.value];
         !arm.stopClosed && (arm.pc == Selecting || arm.pc == Fired || arm.pc == Locking)
  }

  ghost predicate IdleInv(m: Manager)
  {
    Inv(m) && forall s | 0 <= s < |m.subs| :: IdleOk(m, s)
  }

  lemma EmptyIdle()
    ensures IdleInv(EMPTY)
  {
  }

  lemma SignalIs(m: Manager, a: nat)
    requires Inv(m) && Enabled(m, CloseDone(a))
    ensures var pc := if m.arms[a].pc == Fired then Locking else Finished;
            Signal(m, a) == m.(arms := m.arms[a := m.arms[a].(pc := pc, doneClosed := true)])
  {
    SignalsOwn(m, a);
  }

  lemma ArmStepIdle(m: Manager, step: Step, s: nat)
    requires IdleInv(m) && Enabled(m, step) && Safe(m, step) && Shape(Next(m, step)) && s < |Next(m, step).subs|
    requires step.Fire? || step.SeeStop? || step.CloseDone?
    ensures IdleOk(Next(m, step), s)
  {
    assert IdleOk(m, s);
    if step.CloseDone? {
      SignalIs(m, step.arm);
      assert ArmOk(m, step.arm);
    }
  }

  lemma TeardownIdle(m: Manager, a: nat, s: nat)
    requires IdleInv(m) && Enabled(m, Teardown(a)) && Safe(m, Teardown(a)) && Shape(Next(m, Teardown(a))) && s < |m.subs|
    ensures IdleOk(Next(m, Teardown(a)), s)
  {
    assert IdleOk(m, s) && ArmOk(m, a);
  }

  lemma EnsureIdle(m: Manager, user: string, s: nat)
    requires IdleInv(m) && Enabled(m, EnsureSubscribed(user)) && Safe(m, EnsureSubscribed(user))
    requires Shape(Ensure(m, user)) && s < |Ensure(m, user).subs|
    ensures IdleOk(Ensure(m, user), s)
  {
    EnsureOutcome(m, user);
    if s < |m.subs| { assert IdleOk(m, s); }
    hide Inv, IdleInv;
  }

  lemma ResumeIdle(m: Manager, s: nat)
    requires IdleInv(m) && Enabled(m, Resume) && Shape(Next(m, Resume)) && s < |m.subs|
    ensures IdleOk(Next(m, Resume), s)
  {
    assert IdleOk(m, s) && Served(m, m.subs[m.waiter.value].user);
    hide Inv, IdleInv;
  }

  lemma UnsubscribeIdle(m: Manager, user: string, s: nat)
    requires IdleInv(m) && Enabled(m, Unsubscribe(user)) && Shape(Next(m, Unsubscribe(user))) && s < |m.subs|
    ensures IdleOk(Next(m, Unsubscribe(user)), s)
  {
    assert IdleOk(m, s);
    DropShape(m, user);
    UnsubscribeOutcome(m, user);
    hide Inv, IdleInv, Drop;
  }

  lemma StepKeepsIdle(m: Manager, step: Step)
    requires IdleInv(m) && Enabled(m, step) && Safe(m, step)
    ensures IdleInv(Next(m, step))
  {
    StepKeepsIff(m, step);
    forall s | 0 <= s < |Next(m, step).subs| ensures IdleOk(Next(m, step), s) {
      match step
      case Fire(_) => ArmStepIdle(m, step, s);
      case SeeStop(_) => ArmStepIdle(m, step, s);
      case CloseDone(_) => ArmStepIdle(m, step, s);
      case Teardown(a) => TeardownIdle(m, a, s);
      case EnsureSubscribed(user) => EnsureIdle(m, user, s);
      case Resume => ResumeIdle(m, s);
      case Unsubscribe(user) => UnsubscribeIdle(m, user, s);
      case Close =>
    }
  }

  lemma {:induction false} RunKeepsIdle(m: Manager, steps: seq<Step>)
    requires IdleInv(m) && Valid(m, steps) && AllSafe(m, steps)
    ensures IdleInv(Exec(m, steps))
    decreases |steps|
  {
    if steps != [] {
      StepKeepsIdle(m, steps[0]);
      RunKeepsIdle(Next(m, steps[0]), steps[1..]);
    }
  }

  /** The steps the goroutine of an arming has left. */
  function OwnSteps(a: nat, pc: Pc): seq<Step>
  {
    match pc
    case Selecting => [Fire(a), CloseDone(a), Teardown(a)]
    case Fired => [CloseDone(a), Teardown(a)]
    case _ => [Teardown(a)]
  }

  /** The subscription is cancelled and its user unmapped. */
  predicate Gone(m: Manager, s: nat, user: string)
  {
    s < |m.subs| && m.subs[s].cancelled && user !in m.registry
  }

  lemma LastStep(m: Manager, a: nat)
    requires Inv(m) && m.waiter == None && a < |m.arms| && m.arms[a].pc == Locking
    requires Registered(m, m.arms[a].sub) && m.subs[m.arms[a].sub].count <= 0
    ensures Valid(m, [Teardown(a)])
    ensures Gone(Exec(m, [Teardown(a)]), m.arms[a].sub, m.subs[m.arms[a].sub].user)
  {
    TeardownOutcome(m, a);
    assert [Teardown(a)][1..] == [];
    assert Valid(Next(m, Teardown(a)), []);
  }

  lemma LastTwo(m: Manager, a: nat)
    requires Inv(m) && m.waiter == None && a < |m.arms| && m.arms[a].pc == Fired
    requires Registered(m, m.arms[a].sub) && m.subs[m.arms[a].sub].count <= 0
    ensures Valid(m, [CloseDone(a), Teardown(a)])
    ensures Gone(Exec(m, [CloseDone(a), Teardown(a)]), m.arms[a].sub, m.subs[m.arms[a].sub].user)
  {
    StepKeepsIff(m, CloseDone(a));
    SignalIs(m, a);
    LastStep(Next(m, CloseDone(a)), a);
    assert [CloseDone(a), Teardown(a)][1..] == [Teardown(a)];
  }

  lemma LastThree(m: Manager, a: nat)
    requires Inv(m) && m.waiter == None && a < |m.arms| && m.arms[a].pc == Selecting && !m.arms[a].stopClosed
    requires Registered(m, m.arms[a].sub) && m.subs[m.arms[a].sub].count <= 0
    ensures Valid(m, [Fire(a), CloseDone(a), Teardown(a)])
    ensures Gone(Exec(m, [Fire(a), CloseDone(a), Teardown(a)]), m.arms[a].sub, m.subs[m.arms[a].sub].user)
  {
    StepKeepsIff(m, Fire(a));
    LastTwo(Next(m, Fire(a)), a);
    assert [Fire(a), CloseDone(a), Teardown(a)][1..] == [CloseDone(a), Teardown(a)];
  }

  /**
  No leak: in every safe run, an open subscription nobody uses has a goroutine whose own remaining steps, at most
  three, cancel and unmap it.
   */
  lemma IdleIsTornDown(steps: seq<Step>, s: nat)
    requires Valid(EMPTY, steps) && AllSafe(EMPTY, steps)
    requires var m := Exec(EMPTY, steps); s < |m.subs| && !m.subs[s].cancelled && m.subs[s].count <= 0 && m.waiter == None
    ensures var m := Exec(EMPTY, steps);
            && m.subs[s].grace.Some? && m.subs[s].grace.value < |m.arms|
            && var a := m.subs[s].grace.value;
               var own := OwnSteps(a, m.arms[a].pc);
               Valid(m, own) && Gone(Exec(m, own), s, m.subs[s].user)
  {
    EmptyIdle();
    RunKeepsIdle(EMPTY, steps);
    var m := Exec(EMPTY, steps);
    assert SubOk(m, s) && IdleOk(m, s);
    var a := m.subs[s].grace.value;
    match m.arms[a].pc
    case Selecting => LastThree(m, a);
    case Fired => LastTwo(m, a);
    case _ => LastStep(m, a);
  }
}
