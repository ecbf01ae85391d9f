/** The cross-thread protocol of `EventLoop`: any number of threads push functors under the
    mutex and write the eventfd, while the loop thread polls, dispatches, swaps the queue out
    and runs the batch.  Every atomic step of every thread is one `Step`; a run is a sequence
    of enabled steps, so a fact proved for `After(Init(), steps)` holds in every interleaving. */
module LoopProtocol {

  /** A thread other than the loop's own. */
  type Tid = nat

  /** Which thread calls: `isInLoopThread()` is `caller.LoopThread?`. */
  datatype Caller = LoopThread | Other(t: Tid)

  /** The eventfd counter saturates here: a non-blocking write that would pass it fails. */
  const EVENTFD_MAX: nat := 0xFFFF_FFFF_FFFF_FFFE

  /** Where the loop thread stands.  User code runs on it in `Before`, `InHandler`, `InFunctor`
      and `Stopped`; `Dispatch(w)` and `InHandler(w)` remember whether the eventfd channel is
      among the active channels not yet handled. */
  datatype LoopPc =
    | Before
    | CheckQuit
    | Poll
    | Dispatch(wake: bool)
    | InHandler(wake: bool)
    | Enter
    | Swap
    | Running
    | InFunctor
    | Stopped

  /** Where another thread stands: between its push and its wakeup, or between storing `_quit`
      and its wakeup.  A thread not in the map is in neither call. */
  datatype OtherPc = Pushed | QuitSet

  datatype State<F> = State(
    quit: bool,
    calling: bool,
    pending: seq<F>,
    eventfd: nat,
    pc: LoopPc,
    ownPushed: bool,           // the loop thread is inside queueInLoop, past its push
    others: map<Tid, OtherPc>,
    batch: seq<F>,             // the part of `tempRuns` not started yet
    pushed: seq<F>,            // history: every push, in mutex order
    executed: seq<F>,          // history: every functor started, in order
    early: nat                 // history: functors pushed by the loop thread before loop(), not swapped yet
  )

  datatype Step<F> =
    | OwnPush(f: F)            // queueInLoop on the loop thread: the critical section
    | OwnCheck                 // ... and the test that decides on wakeup()
    | OwnQuit
    | StartLoop
    | TestQuit                 // while(!_quit)
    | PollReturn(wakeActive: bool)
    | DrainEventfd             // handleRead of the eventfd channel
    | HandlerStart
    | HandlerReturn
    | DispatchDone
    | SetCalling
    | SwapQueue
    | RunOne
    | FunctorReturn
    | ClearCalling
    | OtherPush(t: Tid, f: F)
    | OtherQuit(t: Tid)
    | OtherWake(t: Tid)
  {
    predicate ByOther() {
      OtherPush? || OtherQuit? || OtherWake?
    }
  }

  function Init<F>(): State<F> {
    State(false, false, [], 0, Before, false, map[], [], [], [], 0)
  }

  /** The value of the counter after `write(_eventfd, 1)`. */
  function Written(eventfd: nat): (r: nat)
    ensures r > 0 && eventfd <= r <= eventfd + 1 && (r == eventfd ==> EVENTFD_MAX <= eventfd)
  {
    if eventfd < EVENTFD_MAX then eventfd + 1 else eventfd
  }

  predicate InUserCode(pc: LoopPc) {
    pc.Before? || pc.InHandler? || pc.InFunctor? || pc.Stopped?
  }

  predicate Enabled<F>(s: State<F>, step: Step<F>) {
    match step
    case OwnPush(_) => InUserCode(s.pc) && !s.ownPushed
    case OwnCheck => s.ownPushed
    case OwnQuit => InUserCode(s.pc) && !s.ownPushed
    case StartLoop => (s.pc.Before? || s.pc.Stopped?) && !s.ownPushed
    case TestQuit => s.pc.CheckQuit?
    case PollReturn(wakeActive) => s.pc.Poll? && (wakeActive ==> s.eventfd > 0)
    case DrainEventfd => s.pc == Dispatch(true)
    case HandlerStart => s.pc.Dispatch?
    case HandlerReturn => s.pc.InHandler? && !s.ownPushed
    case DispatchDone => s.pc == Dispatch(false)
    case SetCalling => s.pc.Enter?
    case SwapQueue => s.pc.Swap?
    case RunOne => s.pc.Running? && s.batch != []
    case FunctorReturn => s.pc.InFunctor? && !s.ownPushed
    case ClearCalling => s.pc.Running? && s.batch == []
    case OtherPush(t, _) => t !in s.others
    case OtherQuit(t) => t !in s.others
    case OtherWake(t) => t in s.others
  }

  function Apply<F>(s: State<F>, step: Step<F>): State<F>
    requires Enabled(s, step)
  {
    match step
    case OwnPush(f) =>
      s.(pending := s.pending + [f], pushed := s.pushed + [f], ownPushed := true,
         early := s.early + if s.pc.Before? then 1 else 0)
    case OwnCheck =>
      s.(ownPushed := false, eventfd := if s.calling then Written(s.eventfd) else s.eventfd)
    case OwnQuit => s.(quit := true)
    case StartLoop => s.(pc := CheckQuit)
    case TestQuit => s.(pc := if s.quit then Stopped else Poll)
    case PollReturn(wakeActive) => s.(pc := Dispatch(wakeActive))
    case DrainEventfd => s.(pc := Dispatch(false), eventfd := 0)
    case HandlerStart => s.(pc := InHandler(s.pc.wake))
    case HandlerReturn => s.(pc := Dispatch(s.pc.wake))
    case DispatchDone => s.(pc := Enter)
    case SetCalling => s.(pc := Swap, calling := true)
    case SwapQueue => s.(pc := Running, batch := s.pending, pending := [], early := 0)
    case RunOne => s.(pc := InFunctor, executed := s.executed + [s.batch[0]], batch := s.batch[1..])
    case FunctorReturn => s.(pc := Running)
    case ClearCalling => s.(pc := CheckQuit, calling := false)
    case OtherPush(t, f) =>
      s.(pending := s.pending + [f], pushed := s.pushed + [f], others := s.others[t := Pushed])
    case OtherQuit(t) => s.(quit := true, others := s.others[t := QuitSet])
    case OtherWake(t) => s.(eventfd := Written(s.eventfd), others := s.others - {t})
  }

  /** A state without its histories. */
  function Bare<F>(s: State<F>): State<F> {
    s.(pushed := [], executed := [], early := 0)
  }

  /** The histories decide nothing. */
  lemma HistoriesDecideNothing<F>(s: State<F>, step: Step<F>)
    ensures Enabled(Bare(s), step) <==> Enabled(s, step)
    ensures Enabled(s, step) ==> Bare(Apply(Bare(s), step)) == Bare(Apply(s, step))
  {
  }

  predicate ValidRun<F>(s: State<F>, steps: seq<Step<F>>)
    decreases |steps|, 0
  {
    steps == [] ||
    (ValidRun(s, steps[..|steps| - 1]) && Enabled(After(s, steps[..|steps| - 1]), steps[|steps| - 1]))
  }

  function After<F>(s: State<F>, steps: seq<Step<F>>): State<F>
    requires ValidRun(s, steps)
    decreases |steps|, 1
  {
    if steps == [] then s
    else Apply(After(s, steps[..|steps| - 1]), steps[|steps| - 1])
  }

  lemma RunSnoc<F>(s: State<F>, steps: seq<Step<F>>, step: Step<F>)
    requires ValidRun(s, steps) && Enabled(After(s, steps), step)
    ensures ValidRun(s, steps + [step])
    ensures After(s, steps + [step]) == Apply(After(s, steps), step)
  {
    assert (steps + [step])[..|steps|] == steps;
  }

  // ---------------------------------------------------------------- the inductive invariant

  ghost predicate SomeOther<F>(s: State<F>, pc: OtherPc) {
    exists t :: t in s.others && s.others[t] == pc
  }

  /** A wakeup that is written, or that some thread is bound to write next. */
  ghost predicate WakeupDue<F>(s: State<F>) {
    s.eventfd > 0 || SomeOther(s, Pushed) || (s.ownPushed && s.calling)
  }

  /** Program points at which unserved functors must have a wakeup due, unless all of them are
      early; in between, the loop thread is on its way to the swap. */
  predicate NeedsWakeup<F>(s: State<F>) {
    s.pc.Before? || (s.pc.CheckQuit? && !s.quit) || s.pc.Poll? || s.pc.Running? || s.pc.InFunctor?
  }

  /** Nothing lost, duplicated or reordered; flags and batch as the control point says. */
  ghost predicate Flow<F>(s: State<F>) {
    && s.pushed == s.executed + s.batch + s.pending
    && (s.calling <==> s.pc.Swap? || s.pc.Running? || s.pc.InFunctor?)
    && (s.batch != [] ==> s.pc.Running? || s.pc.InFunctor?)
    && (s.ownPushed ==> InUserCode(s.pc))
    && (s.pc.Stopped? ==> s.quit)
    // early pushes stay queued until the first swap
    && s.early <= |s.pending| && (s.pc.Running? || s.pc.InFunctor? ==> s.early == 0)
  }

  /** No functor and no quit is slept through. */
  ghost predicate Wakeups<F>(s: State<F>) {
    && (NeedsWakeup(s) && s.early < |s.pending| ==> WakeupDue(s))
    && (s.pc.Poll? && s.quit ==> s.eventfd > 0 || SomeOther(s, QuitSet))
  }

  ghost predicate Inv<F>(s: State<F>) {
    Flow(s) && Wakeups(s)
  }

  lemma SomeOtherSurvives<F>(s: State<F>, s': State<F>, pc: OtherPc)
    requires SomeOther(s, pc)
    requires forall t :: t in s.others ==> t in s'.others && s'.others[t] == s.others[t]
    ensures SomeOther(s', pc)
  {
    var t :| t in s.others && s.others[t] == pc;
    assert t in s'.others && s'.others[t] == pc;
  }

  lemma FlowStep<F>(s: State<F>, step: Step<F>)
    requires Flow(s) && Enabled(s, step)
    ensures Flow(Apply(s, step))
  {
    if step.RunOne? {
      assert s.batch == [s.batch[0]] + s.batch[1..];
    }
  }

  /** Every push and every quit puts a wakeup on the way, and only its write takes it off again. */
  lemma OtherStepWakeups<F>(s: State<F>, step: Step<F>)
    requires Flow(s) && Wakeups(s) && Enabled(s, step) && step.ByOther()
    ensures Wakeups(Apply(s, step))
  {
    var s' := Apply(s, step);
    if !step.OtherWake? {
      forall pc | SomeOther(s, pc) ensures SomeOther(s', pc) {
        SomeOtherSurvives(s, s', pc);
      }
    }
    match step
    case OtherPush(t, f) => assert t in s'.others && s'.others[t] == Pushed;
    case OtherQuit(t) => assert t in s'.others && s'.others[t] == QuitSet;
    case _ =>
  }

  lemma LoopStepWakeups<F>(s: State<F>, step: Step<F>)
    requires Flow(s) && Wakeups(s) && Enabled(s, step) && !step.ByOther()
    ensures Wakeups(Apply(s, step))
  {
    var s' := Apply(s, step);
    assert s'.others == s.others;
    forall pc | SomeOther(s, pc) ensures SomeOther(s', pc) {
      SomeOtherSurvives(s, s', pc);
    }
  }

  lemma InvStep<F>(s: State<F>, step: Step<F>)
    requires Inv(s) && Enabled(s, step)
    ensures Inv(Apply(s, step))
  {
    FlowStep(s, step);
    if step.ByOther() {
      OtherStepWakeups(s, step);
    } else {
      LoopStepWakeups(s, step);
    }
  }

  lemma {:induction false} InvAlways<F>(s: State<F>, steps: seq<Step<F>>)
    requires Inv(s) && ValidRun(s, steps)
    ensures Inv(After(s, steps))
    decreases |steps|
  {
    if steps != [] {
      InvAlways(s, steps[..|steps| - 1]);
      InvStep(After(s, steps[..|steps| - 1]), steps[|steps| - 1]);
    }
  }
}
