/** The timer queue on its event loop: additions and cancellations from other threads travel as
    functors of the loop's queue, `handleRead` is a handler of the loop, and user code on the loop
    thread adds and cancels at once. */
module TimerLoop {
  import L = LoopProtocol
  import opened LoopTheorems
  import opened TimerSet
  import T = TimerProtocol
  import TimerInvariants
  import TimerTheorems
  import opened Util

  datatype Functor = Timed(f: T.Functor) | Task(id: nat)

  datatype Sys = Sys(loop: L.State<Functor>, tq: T.State)

  datatype SysStep =
    | LoopOnly(step: L.Step<Functor>)                             // any step without timers
    | Tick(d: nat)
    | OtherAdd(t: L.Tid, a: Addr, when: int, every: nat)          // addTimer off the loop thread
    | OtherCancel(t: L.Tid, id: T.TimerId)                        // cancelTimer off the loop thread
    | RunTimed                                                    // the loop runs a queued addition or cancel
    | OwnTimer(call: T.Step)                                      // addTimer, cancelTimer on the loop thread
    | Reading(part: T.Step)                                       // a step of TimerQueue::handleRead

  predicate IsOwnCall(step: T.Step) {
    step.OwnAdd? || step.OwnCancel?
  }

  predicate IsHandleRead(step: T.Step) {
    step.StartRead? || step.ReadTimerfd? || step.FireNext? || step.StartReset? || step.ResetNext? || step.FinishReset?
  }

  function Start(clock: int): Sys {
    Sys(L.Init(), T.Start(clock))
  }

  /** Timer functors are queued and run by the timer queue's own code; a handler returns only when
      its `handleRead` is over. */
  predicate Foreign(s: Sys, step: L.Step<Functor>)
    requires L.Enabled(s.loop, step)
  {
    match step
    case OwnPush(f) => f.Task?
    case OtherPush(_, f) => f.Task?
    case RunOne => s.loop.batch[0].Task?
    case HandlerReturn => s.tq.phase.Idle?
    case _ => true
  }

  predicate Enabled(s: Sys, step: SysStep) {
    match step
    case LoopOnly(st) => L.Enabled(s.loop, st) && Foreign(s, st)
    case Tick(_) => true
    case OtherAdd(t, a, when, every) => t !in s.loop.others && T.Enabled(s.tq, T.QueueAdd(a, when, every))
    case OtherCancel(t, id) => t !in s.loop.others && T.Enabled(s.tq, T.QueueCancel(id))
    case RunTimed => L.Enabled(s.loop, L.RunOne) && s.loop.batch[0].Timed? && T.Enabled(s.tq, T.RunQueued)
    case OwnTimer(call) => L.InUserCode(s.loop.pc) && !s.loop.ownPushed && IsOwnCall(call) && T.Enabled(s.tq, call)
    case Reading(part) => s.loop.pc.InHandler? && !s.loop.ownPushed && IsHandleRead(part) && T.Enabled(s.tq, part)
  }

  function Apply(s: Sys, step: SysStep): Sys
    requires Enabled(s, step)
  {
    match step
    case LoopOnly(st) => s.(loop := L.Apply(s.loop, st))
    case Tick(d) => s.(tq := T.Apply(s.tq, T.Tick(d)))
    case OtherAdd(t, a, when, every) =>
      Sys(L.Apply(s.loop, L.OtherPush(t, Timed(T.AddInLoop(a)))), T.Apply(s.tq, T.QueueAdd(a, when, every)))
    case OtherCancel(t, id) =>
      Sys(L.Apply(s.loop, L.OtherPush(t, Timed(T.CancelInLoop(id)))), T.Apply(s.tq, T.QueueCancel(id)))
    case RunTimed => Sys(L.Apply(s.loop, L.RunOne), T.Apply(s.tq, T.RunQueued))
    case OwnTimer(call) => s.(tq := T.Apply(s.tq, call))
    case Reading(part) => s.(tq := T.Apply(s.tq, part))
  }

  predicate ValidRun(s: Sys, steps: seq<SysStep>)
    decreases |steps|, 0
  {
    steps == [] ||
    (ValidRun(s, steps[..|steps| - 1]) && Enabled(After(s, steps[..|steps| - 1]), steps[|steps| - 1]))
  }

  function After(s: Sys, steps: seq<SysStep>): Sys
    requires ValidRun(s, steps)
    decreases |steps|, 1
  {
    if steps == [] then s
    else Apply(After(s, steps[..|steps| - 1]), steps[|steps| - 1])
  }

  // ---------------------------------------------------------------- the invariant

  /** The timer functors of a queue, in order. */
  function TimedOf(fs: seq<Functor>): seq<T.Functor> {
    if fs == [] then []
    else TimedOf(fs[..|fs| - 1]) + if fs[|fs| - 1].Timed? then [fs[|fs| - 1].f] else []
  }

  lemma {:induction false} TimedConcat(a: seq<Functor>, b: seq<Functor>)
    ensures TimedOf(a + b) == TimedOf(a) + TimedOf(b)
    decreases |b|
  {
    if b == [] {
      assert a + b == a;
    } else {
      var n := |b| - 1;
      TimedConcat(a, b[..n]);
      assert (a + b)[..|a + b| - 1] == a + b[..n];
    }
  }

  lemma TimedSingle(f: Functor)
    ensures TimedOf([f]) == if f.Timed? then [f.f] else []
  {
    assert [f][..0] == [];
  }

  /** The timer queue's queue is the loop's, and `handleRead` runs inside one handler. */
  predicate Linked(s: Sys) {
    && s.tq.queue == TimedOf(s.loop.batch + s.loop.pending)
    && (!s.tq.phase.Idle? ==> s.loop.pc.InHandler?)
  }

  ghost predicate Inv(s: Sys) {
    L.Inv(s.loop) && TimerTheorems.Inv(s.tq) && Linked(s)
  }

  lemma PushTimed(loop: L.State<Functor>, f: Functor)
    ensures TimedOf(loop.batch + (loop.pending + [f])) == TimedOf(loop.batch + loop.pending) + TimedOf([f])
  {
    assert loop.batch + (loop.pending + [f]) == loop.batch + loop.pending + [f];
    TimedConcat(loop.batch + loop.pending, [f]);
  }

  lemma RunTakesHead(loop: L.State<Functor>)
    requires L.Enabled(loop, L.RunOne)
    ensures TimedOf(loop.batch + loop.pending) == TimedOf([loop.batch[0]]) + TimedOf(loop.batch[1..] + loop.pending)
  {
    assert loop.batch + loop.pending == [loop.batch[0]] + (loop.batch[1..] + loop.pending);
    TimedConcat([loop.batch[0]], loop.batch[1..] + loop.pending);
  }

  /** What a protocol step does to the queued functors. */
  lemma StepOnQueue(loop: L.State<Functor>, step: L.Step<Functor>)
    requires L.Inv(loop) && L.Enabled(loop, step)
    ensures var loop' := L.Apply(loop, step);
            loop'.batch + loop'.pending ==
              (if step.RunOne? then loop.batch[1..] else loop.batch) + (loop.pending + PushOf(step))
  {
    if step.SwapQueue? {
      assert loop.batch + (loop.pending + []) == loop.pending + [];
    }
  }

  lemma ForeignKeepsTimed(s: Sys, step: L.Step<Functor>)
    requires L.Inv(s.loop) && L.Enabled(s.loop, step) && Foreign(s, step)
    ensures var loop' := L.Apply(s.loop, step);
            TimedOf(loop'.batch + loop'.pending) == TimedOf(s.loop.batch + s.loop.pending)
  {
    StepOnQueue(s.loop, step);
    if PushOf(step) == [] {
      assert s.loop.pending + [] == s.loop.pending;
      if step.RunOne? {
        RunTakesHead(s.loop);
        TimedSingle(s.loop.batch[0]);
      }
    } else {
      PushTimed(s.loop, PushOf(step)[0]);
      TimedSingle(PushOf(step)[0]);
    }
  }

  lemma LoopOnlyKeeps(s: Sys, step: L.Step<Functor>)
    requires L.Inv(s.loop) && Linked(s) && Enabled(s, LoopOnly(step))
    ensures Linked(Apply(s, LoopOnly(step)))
  {
    ForeignKeepsTimed(s, step);
  }

  lemma QueueingKeeps(s: Sys, t: L.Tid, f: T.Functor, call: T.Step)
    requires Linked(s) && t !in s.loop.others && T.Enabled(s.tq, call)
    requires match call
             case QueueAdd(a, _, _) => f == T.AddInLoop(a)
             case QueueCancel(id) => f == T.CancelInLoop(id)
             case _ => false
    ensures Linked(Sys(L.Apply(s.loop, L.OtherPush(t, Timed(f))), T.Apply(s.tq, call)))
  {
    PushTimed(s.loop, Timed(f));
    TimedSingle(Timed(f));
    QueueGrows(s.tq, call);
  }

  lemma QueueGrows(tq: T.State, call: T.Step)
    requires T.Enabled(tq, call) && (call.QueueAdd? || call.QueueCancel?)
    ensures var f := if call.QueueAdd? then T.AddInLoop(call.a) else T.CancelInLoop(call.id);
            T.Apply(tq, call).queue == tq.queue + [f] && T.Apply(tq, call).phase == tq.phase
  {
  }

  /** The functor the loop takes is the one the timer queue expects. */
  lemma QueuesAgreeOnHead(s: Sys)
    requires Linked(s) && L.Enabled(s.loop, L.RunOne) && s.loop.batch[0].Timed?
    ensures s.tq.phase.Idle? && s.tq.queue != [] && s.tq.queue[0] == s.loop.batch[0].f
    ensures s.tq.queue[1..] == TimedOf(s.loop.batch[1..] + s.loop.pending)
  {
    RunTakesHead(s.loop);
    TimedSingle(s.loop.batch[0]);
  }

  lemma RunTimedKeeps(s: Sys)
    requires Linked(s) && Enabled(s, RunTimed)
    ensures Linked(Apply(s, RunTimed))
  {
    QueuesAgreeOnHead(s);
    TimerTheorems.QueueStep(s.tq, T.RunQueued);
    RunFunctorKeepsPhase(s.tq);
  }

  lemma RunFunctorKeepsPhase(tq: T.State)
    requires T.Enabled(tq, T.RunQueued)
    ensures T.Apply(tq, T.RunQueued).phase == tq.phase
  {
  }

  lemma OwnKeeps(s: Sys, call: T.Step)
    requires Linked(s) && T.Enabled(s.tq, call)
    requires call.Tick? || IsOwnCall(call) || (IsHandleRead(call) && s.loop.pc.InHandler?)
    ensures Linked(s.(tq := T.Apply(s.tq, call)))
  {
    TimerTheorems.QueueStep(s.tq, call);
    if !IsHandleRead(call) {
      OwnCallKeepsPhase(s.tq, call);
    }
  }

  lemma OwnCallKeepsPhase(tq: T.State, call: T.Step)
    requires T.Enabled(tq, call) && (call.Tick? || IsOwnCall(call))
    ensures T.Apply(tq, call).phase == tq.phase
  {
  }

  lemma LinkedStep(s: Sys, step: SysStep)
    requires L.Inv(s.loop) && Linked(s) && Enabled(s, step)
    ensures Linked(Apply(s, step))
  {
    match step
    case LoopOnly(st) => LoopOnlyKeeps(s, st);
    case Tick(d) => OwnKeeps(s, T.Tick(d));
    case OtherAdd(t, a, when, every) => QueueingKeeps(s, t, T.AddInLoop(a), T.QueueAdd(a, when, every));
    case OtherCancel(t, id) => QueueingKeeps(s, t, T.CancelInLoop(id), T.QueueCancel(id));
    case RunTimed => RunTimedKeeps(s);
    case OwnTimer(call) => OwnKeeps(s, call);
    case Reading(part) => OwnKeeps(s, part);
  }

  /** A composed step is a step of the loop, a step of the timer queue, or both. */
  function LoopSteps(step: SysStep): seq<L.Step<Functor>> {
    match step
    case LoopOnly(st) => [st]
    case OtherAdd(t, a, _, _) => [L.OtherPush(t, Timed(T.AddInLoop(a)))]
    case OtherCancel(t, id) => [L.OtherPush(t, Timed(T.CancelInLoop(id)))]
    case RunTimed => [L.RunOne]
    case _ => []
  }

  function TimerSteps(step: SysStep): seq<T.Step> {
    match step
    case LoopOnly(_) => []
    case Tick(d) => [T.Tick(d)]
    case OtherAdd(_, a, when, every) => [T.QueueAdd(a, when, every)]
    case OtherCancel(_, id) => [T.QueueCancel(id)]
    case RunTimed => [T.RunQueued]
    case OwnTimer(call) => [call]
    case Reading(part) => [part]
  }

  lemma StepProjects(s: Sys, step: SysStep)
    requires Enabled(s, step)
    ensures var ls, ts := LoopSteps(step), TimerSteps(step);
            && (if ls == [] then Apply(s, step).loop == s.loop
                else L.Enabled(s.loop, ls[0]) && Apply(s, step).loop == L.Apply(s.loop, ls[0]))
            && (if ts == [] then Apply(s, step).tq == s.tq
                else T.Enabled(s.tq, ts[0]) && Apply(s, step).tq == T.Apply(s.tq, ts[0]))
  {
  }

  lemma InvStep(s: Sys, step: SysStep)
    requires Inv(s) && Enabled(s, step)
    ensures Inv(Apply(s, step))
  {
    LinkedStep(s, step);
    StepProjects(s, step);
    if LoopSteps(step) != [] {
      L.InvStep(s.loop, LoopSteps(step)[0]);
    }
    if TimerSteps(step) != [] {
      TimerTheorems.InvStep(s.tq, TimerSteps(step)[0]);
    }
  }

  lemma StartInv(clock: int)
    requires clock > 0
    ensures Inv(Start(clock))
  {
    LoopStartInv();
    TimerTheorems.StartInv(clock);
    LinkedAtStart(clock);
  }

  lemma LoopStartInv()
    ensures L.Inv(L.Init<Functor>())
  {
  }

  lemma LinkedAtStart(clock: int)
    ensures Linked(Start(clock))
  {
  }

  lemma {:induction false} InvAlways(clock: int, steps: seq<SysStep>)
    requires clock > 0 && ValidRun(Start(clock), steps)
    ensures Inv(After(Start(clock), steps))
    decreases |steps|
  {
    if steps == [] {
      StartInv(clock);
    } else {
      var n := |steps| - 1;
      InvAlways(clock, steps[..n]);
      InvStep(After(Start(clock), steps[..n]), steps[n]);
    }
  }

  function LoopRun(steps: seq<SysStep>): seq<L.Step<Functor>> {
    if steps == [] then [] else LoopRun(steps[..|steps| - 1]) + LoopSteps(steps[|steps| - 1])
  }

  function TimerRun(steps: seq<SysStep>): seq<T.Step> {
    if steps == [] then [] else TimerRun(steps[..|steps| - 1]) + TimerSteps(steps[|steps| - 1])
  }

  lemma LoopSnoc(s: L.State<Functor>, run: seq<L.Step<Functor>>, more: seq<L.Step<Functor>>)
    requires L.ValidRun(s, run) && |more| <= 1
    requires more != [] ==> L.Enabled(L.After(s, run), more[0])
    ensures L.ValidRun(s, run + more)
    ensures L.After(s, run + more) == if more == [] then L.After(s, run) else L.Apply(L.After(s, run), more[0])
  {
    if more == [] {
      assert run + more == run;
    } else {
      L.RunSnoc(s, run, more[0]);
      assert run + more == run + [more[0]];
    }
  }

  lemma TimerSnoc(s: T.State, run: seq<T.Step>, more: seq<T.Step>)
    requires T.ValidRun(s, run) && |more| <= 1
    requires more != [] ==> T.Enabled(T.After(s, run), more[0])
    ensures T.ValidRun(s, run + more)
    ensures T.After(s, run + more) == if more == [] then T.After(s, run) else T.Apply(T.After(s, run), more[0])
  {
    if more == [] {
      assert run + more == run;
    } else {
      T.RunSnoc(s, run, more[0]);
      assert run + more == run + [more[0]];
    }
  }

  /** Every composed run is a run of the event loop and a run of the timer queue, so what is proved
      of either holds here. */
  lemma {:induction false} ProjectionsAreRuns(s: Sys, steps: seq<SysStep>)
    requires ValidRun(s, steps)
    ensures L.ValidRun(s.loop, LoopRun(steps)) && T.ValidRun(s.tq, TimerRun(steps))
    ensures After(s, steps).loop == L.After(s.loop, LoopRun(steps))
    ensures After(s, steps).tq == T.After(s.tq, TimerRun(steps))
    decreases |steps|
  {
    if steps != [] {
      var n := |steps| - 1;
      ProjectionsAreRuns(s, steps[..n]);
      StepProjects(After(s, steps[..n]), steps[n]);
      LoopSnoc(s.loop, LoopRun(steps[..n]), LoopSteps(steps[n]));
      TimerSnoc(s.tq, TimerRun(steps[..n]), TimerSteps(steps[n]));
    }
  }

  // ---------------------------------------------------------------- early functors

  /** What the loop thread queues before `loop()` is never a timer functor of another thread. */
  predicate NoEarlyTimer(loop: L.State<Functor>) {
    loop.early + |TimedOf(loop.pending)| <= |loop.pending|
  }

  lemma NoEarlyTimerStep(loop: L.State<Functor>, step: L.Step<Functor>)
    requires NoEarlyTimer(loop) && L.Enabled(loop, step) && !(step.OwnPush? && step.f.Timed?)
    ensures NoEarlyTimer(L.Apply(loop, step))
  {
    if PushOf(step) != [] {
      TimedConcat(loop.pending, PushOf(step));
      TimedSingle(PushOf(step)[0]);
    }
  }

  lemma {:induction false} NoEarlyTimerAlways(clock: int, steps: seq<SysStep>)
    requires ValidRun(Start(clock), steps)
    ensures NoEarlyTimer(After(Start(clock), steps).loop)
    decreases |steps|
  {
    if steps != [] {
      var n := |steps| - 1;
      NoEarlyTimerAlways(clock, steps[..n]);
      NoEarlyTimerKept(After(Start(clock), steps[..n]), steps[n]);
    }
  }

  lemma NoEarlyTimerKept(s: Sys, step: SysStep)
    requires NoEarlyTimer(s.loop) && Enabled(s, step)
    ensures NoEarlyTimer(Apply(s, step).loop)
  {
    StepProjects(s, step);
    if LoopSteps(step) != [] {
      NoEarlyTimerStep(s.loop, LoopSteps(step)[0]);
    }
  }

  lemma SleepingLoopHasNoTimers(loop: L.State<Functor>)
    requires L.Inv(loop) && NoEarlyTimer(loop) && Asleep(loop)
    ensures TimedOf(loop.batch + loop.pending) == []
  {
    assert loop.batch + loop.pending == loop.pending;
  }

  // ---------------------------------------------------------------- end to end

  ghost predicate Reaches(clock: int, steps: seq<SysStep>, s: Sys) {
    clock > 0 && ValidRun(Start(clock), steps) && After(Start(clock), steps) == s
  }

  /** A loop asleep in `poll` has taken in every timer any thread has added: each allocated timer is
      in the set, and the kernel timer expires no later than any of their stamps, or than 100us
      after it was last set. */
  lemma SleepingLoopCoversEveryTimer(clock: int, steps: seq<SysStep>, s: Sys, a: Addr)
    requires Reaches(clock, steps, s)
    requires Asleep(s.loop) && a in s.tq.heap
    ensures TimerInvariants.InTimers(s.tq, a)
    ensures s.tq.deadline.Some? && s.tq.deadline.value <= Max(s.tq.heap[a].stamp, s.tq.lastArm + 100)
  {
    InvAlways(clock, steps);
    NoEarlyTimerAlways(clock, steps);
    SleepingLoopHasNoTimers(s.loop);
    assert TimerInvariants.OneOwner(s.tq, a);
    TimerTheorems.FirstIsEarliest(s.tq.timers);
  }

  /** When the loop takes a timer functor, the timer queue is ready to run that very functor:
      nothing of `handleRead` is under way, and only a cancel of a dead timer is shut out. */
  lemma LoopRunsTheNextTimerFunctor(clock: int, steps: seq<SysStep>, s: Sys)
    requires Reaches(clock, steps, s)
    requires L.Enabled(s.loop, L.RunOne) && s.loop.batch[0].Timed?
    ensures s.tq.phase.Idle? && s.tq.queue != [] && s.tq.queue[0] == s.loop.batch[0].f
    ensures Enabled(s, RunTimed) <==>
              (s.loop.batch[0].f.CancelInLoop? ==> T.Alive(s.tq, s.loop.batch[0].f.id))
  {
    InvAlways(clock, steps);
    QueuesAgreeOnHead(s);
  }

  /** A cancel from another thread finds its timer in the set when the loop comes to it, and
      frees it. */
  lemma RemoteCancelIsEffective(clock: int, steps: seq<SysStep>, s: Sys, a: Addr)
    requires Reaches(clock, steps, s) && Enabled(s, RunTimed)
    requires s.loop.batch[0].f.CancelInLoop? && s.loop.batch[0].f.id.addr == a
    ensures a in s.tq.heap && TimerInvariants.InTimers(s.tq, a)
    ensures a !in Apply(s, RunTimed).tq.heap
  {
    InvAlways(clock, steps);
    QueuesAgreeOnHead(s);
    TimerTheorems.QueuedCancelFindsItsTimer(s.tq);
  }

  /** What is pushed and not yet executed of the timer functors is the timer queue's queue. */
  lemma QueueIsUnexecuted(s: Sys)
    requires Inv(s)
    ensures TimedOf(s.loop.pushed) == TimedOf(s.loop.executed) + s.tq.queue
  {
    assert s.loop.pushed == s.loop.executed + (s.loop.batch + s.loop.pending);
    TimedConcat(s.loop.executed, s.loop.batch + s.loop.pending);
  }

  lemma TimedPrefix(a: seq<Functor>, b: seq<Functor>)
    requires a <= b
    ensures TimedOf(a) <= TimedOf(b)
  {
    TimedConcat(a, b[|a|..]);
    assert b == a + b[|a|..];
  }

  /** One return of `poll` runs every addition and cancel that other threads had queued before it, in
      order, before the loop is back at its quit test. */
  lemma OneIterationRunsEveryTimerFunctor(clock: int, xs: seq<SysStep>, s: Sys, ys: seq<SysStep>, s': Sys)
    requires Reaches(clock, xs, s) && s.loop.pc.Poll?
    requires ValidRun(s, ys) && s' == After(s, ys) && s'.loop.pc.CheckQuit?
    requires PollReturns(LoopRun(ys)) >= 1
    ensures TimedOf(s.loop.executed) + s.tq.queue <= TimedOf(s'.loop.executed)
  {
    InvAlways(clock, xs);
    ProjectionsAreRuns(s, ys);
    OneIterationServesAll(s.loop, LoopRun(ys));
    QueueIsUnexecuted(s);
    TimedPrefix(s.loop.pushed, s'.loop.executed);
  }
}
