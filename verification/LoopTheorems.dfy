/** What the cross-thread protocol of `EventLoop` guarantees over every run. */
module LoopTheorems {
  import opened LoopProtocol

  // ---------------------------------------------------------------- what a run did

  function PushOf<F>(step: Step<F>): seq<F> {
    match step case OwnPush(f) => [f] case OtherPush(_, f) => [f] case _ => []
  }

  function PushesOf<F>(steps: seq<Step<F>>): seq<F> {
    if steps == [] then [] else PushesOf(steps[..|steps| - 1]) + PushOf(steps[|steps| - 1])
  }

  function RunCount<F>(steps: seq<Step<F>>): nat {
    if steps == [] then 0
    else RunCount(steps[..|steps| - 1]) + if steps[|steps| - 1].RunOne? then 1 else 0
  }

  function PollReturns<F>(steps: seq<Step<F>>): nat {
    if steps == [] then 0
    else PollReturns(steps[..|steps| - 1]) + if steps[|steps| - 1].PollReturn? then 1 else 0
  }

  /** The run leads from the start to `s`. */
  ghost predicate Reaches<F>(steps: seq<Step<F>>, s: State<F>) {
    ValidRun(Init(), steps) && After(Init(), steps) == s
  }

  ghost predicate Reachable<F(!new)>(s: State<F>) {
    exists steps :: Reaches(steps, s)
  }

  lemma ReachableInv<F(!new)>(s: State<F>)
    requires Reachable(s)
    ensures Inv(s)
  {
    var steps :| Reaches(steps, s);
    InvAlways(Init(), steps);
  }

  // ---------------------------------------------------------------- conservation and order

  lemma StepHistory<F>(s: State<F>, step: Step<F>)
    requires Enabled(s, step)
    ensures var s' := Apply(s, step);
            && s'.pushed == s.pushed + PushOf(step)
            && |s'.executed| == |s.executed| + (if step.RunOne? then 1 else 0)
            && s.executed <= s'.executed
  {
  }

  lemma {:induction false} PushHistory<F>(s: State<F>, steps: seq<Step<F>>)
    requires ValidRun(s, steps)
    ensures After(s, steps).pushed == s.pushed + PushesOf(steps)
    ensures |After(s, steps).executed| == |s.executed| + RunCount(steps)
    ensures s.executed <= After(s, steps).executed
    decreases |steps|
  {
    if steps != [] {
      var n := |steps| - 1;
      PushHistory(s, steps[..n]);
      StepHistory(After(s, steps[..n]), steps[n]);
    }
  }

  /** In every interleaving: nothing is lost, duplicated or reordered, and the functor run by the
      k-th execution is the functor of the k-th push. */
  lemma FunctorsRunOnceInPushOrder<F>(steps: seq<Step<F>>, s: State<F>)
    requires Reaches(steps, s)
    ensures s.executed + s.batch + s.pending == PushesOf(steps)
    ensures |s.executed| == RunCount(steps) && s.executed == PushesOf(steps)[..RunCount(steps)]
  {
    InvAlways(Init<F>(), steps);
    PushHistory(Init<F>(), steps);
    PrefixOfSum(s.executed, s.batch, s.pending);
  }

  lemma PrefixOfSum<F>(a: seq<F>, b: seq<F>, c: seq<F>)
    ensures (a + b + c)[..|a|] == a
  {
  }

  // ---------------------------------------------------------------- no lost wakeup

  /** Nobody is between a store and its wakeup, and the eventfd is not readable: `epoll_wait`
      returns for I/O only. */
  predicate Asleep<F>(s: State<F>) {
    s.pc.Poll? && s.eventfd == 0 && s.others == map[]
  }

  /** The functors that the loop's own thread has queued before `loop()`, until a swap takes them. */
  ghost function QueuedBeforeLoop<F>(steps: seq<Step<F>>): seq<F> {
    if steps == [] then []
    else
      var n := |steps| - 1;
      match steps[n]
      case OwnPush(f) => QueuedBeforeLoop(steps[..n]) + if StartLoop in steps[..n] then [] else [f]
      case SwapQueue => []
      case _ => QueuedBeforeLoop(steps[..n])
  }

  /** Until the first swap `pending` holds them all, in order, and nothing else unless `early` says so. */
  ghost predicate EarlyOnes<F>(s: State<F>, early: seq<F>, started: bool) {
    && (s.pc.Before? <==> !started)
    && |early| == s.early <= |s.pending|
    && (s.early == |s.pending| ==> early == s.pending)
  }

  lemma EarlyOnesStep<F>(s: State<F>, early: seq<F>, started: bool, step: Step<F>)
    requires EarlyOnes(s, early, started) && Enabled(s, step)
    ensures EarlyOnes(Apply(s, step),
                      match step
                      case OwnPush(f) => early + (if started then [] else [f])
                      case SwapQueue => []
                      case _ => early,
                      started || step.StartLoop?)
  {
  }

  lemma {:induction false} EarlyOnesOfRun<F>(steps: seq<Step<F>>)
    requires ValidRun(Init(), steps)
    ensures EarlyOnes(After(Init(), steps), QueuedBeforeLoop(steps), StartLoop in steps)
    decreases |steps|
  {
    if steps != [] {
      var n := |steps| - 1;
      EarlyOnesOfRun(steps[..n]);
      EarlyOnesStep(After(Init(), steps[..n]), QueuedBeforeLoop(steps[..n]), StartLoop in steps[..n], steps[n]);
      assert steps == steps[..n] + [steps[n]];
    }
  }

  /** In every interleaving, a loop in `poll` with any functor queued that its own thread did not
      queue before `loop()` has the eventfd readable, or a pusher that has not written yet. */
  lemma NoLostWakeup<F>(steps: seq<Step<F>>, s: State<F>)
    requires Reaches(steps, s) && s.pc.Poll? && s.pending != QueuedBeforeLoop(steps)
    ensures s.eventfd > 0 || SomeOther(s, Pushed)
  {
    InvAlways(Init<F>(), steps);
    EarlyOnesOfRun(steps);
  }

  /** The functors a sleeping loop leaves unserved are exactly those that its own thread queued
      before `loop()` and no swap has taken; these pushes write no wakeup. */
  lemma SleepsOnlyOnEarlyFunctors<F>(steps: seq<Step<F>>, s: State<F>)
    requires Reaches(steps, s) && Asleep(s)
    ensures s.batch == [] && s.pending == QueuedBeforeLoop(steps)
  {
    InvAlways(Init<F>(), steps);
    EarlyOnesOfRun(steps);
  }

  /** The failing family is real: queueInLoop by the loop's own thread, then loop(). */
  lemma EarlyPushSleeps<F(!new)>(f: F)
    ensures exists s: State<F> :: Reachable(s) && Asleep(s) && s.pending == [f]
  {
    var init := Init<F>();
    var run: seq<Step<F>> := [];
    RunSnoc(init, run, OwnPush(f));
    run := run + [OwnPush(f)];
    RunSnoc(init, run, OwnCheck);
    run := run + [OwnCheck];
    RunSnoc(init, run, StartLoop);
    run := run + [StartLoop];
    RunSnoc(init, run, TestQuit);
    run := run + [TestQuit];
    var s := After(init, run);
    assert Reaches(run, s);
    assert Reachable(s) && Asleep(s) && s.pending == [f];
  }

  // ---------------------------------------------------------------- quit

  lemma QuitNotSleptThrough<F(!new)>(s: State<F>)
    requires Reachable(s) && s.pc.Poll? && s.quit
    ensures s.eventfd > 0 || SomeOther(s, QuitSet)
  {
    ReachableInv(s);
  }

  function InPoll<F>(s: State<F>): nat {
    if s.pc.Poll? then 1 else 0
  }

  lemma QuitStep<F>(s: State<F>, step: Step<F>)
    requires Enabled(s, step) && s.quit
    ensures Apply(s, step).quit
    ensures (if step.PollReturn? then 1 else 0) + InPoll(Apply(s, step)) <= InPoll(s)
  {
  }

  /** Once `_quit` is stored, `poll` returns at most once more, and only if the loop was already
      in it; a loop outside `poll` never enters it again. */
  lemma {:induction false} QuitEndsCurrentIteration<F>(s: State<F>, steps: seq<Step<F>>)
    requires ValidRun(s, steps) && s.quit
    ensures After(s, steps).quit
    ensures PollReturns(steps) + InPoll(After(s, steps)) <= InPoll(s)
    decreases |steps|
  {
    if steps != [] {
      var n := |steps| - 1;
      QuitEndsCurrentIteration(s, steps[..n]);
      QuitStep(After(s, steps[..n]), steps[n]);
    }
  }

  // ---------------------------------------------------------------- one iteration

  predicate InBatch<F>(s: State<F>) {
    s.pc.Running? || s.pc.InFunctor?
  }

  lemma BatchStep<F>(s: State<F>, step: Step<F>)
    requires InBatch(s) && Enabled(s, step) && !step.ClearCalling?
    ensures var s' := Apply(s, step);
            && InBatch(s')
            && s'.pending == s.pending + PushOf(step)
            && if step.RunOne?
               then s.batch != [] && s'.executed == s.executed + [s.batch[0]] && s'.batch == s.batch[1..]
               else s'.executed == s.executed && s'.batch == s.batch
  {
  }

  /** While a batch runs, executions consume it in order and pushes go to the next one. */
  lemma {:induction false} BatchProgress<F>(s: State<F>, steps: seq<Step<F>>)
    requires ValidRun(s, steps) && InBatch(s) && ClearCalling !in steps
    ensures RunCount(steps) <= |s.batch|
    ensures var s' := After(s, steps);
            && InBatch(s')
            && s'.executed == s.executed + s.batch[..RunCount(steps)]
            && s'.batch == s.batch[RunCount(steps)..]
            && s'.pending == s.pending + PushesOf(steps)
    decreases |steps|
  {
    if steps != [] {
      var n := |steps| - 1;
      BatchProgress(s, steps[..n]);
      assert steps[n] in steps;
      BatchStep(After(s, steps[..n]), steps[n]);
      var k := RunCount(steps[..n]);
      if steps[n].RunOne? {
        assert s.batch[..k + 1] == s.batch[..k] + [s.batch[k]];
      }
    }
  }

  /** `doPendingFunctors` from the swap to its end: it runs exactly the functors present at the
      swap, in order.  Whatever is queued meanwhile, by running functors too, waits for a later
      iteration and has its wakeup due, so a batch ends even if every functor requeues itself. */
  lemma BatchRunsExactlyTheSwapped<F>(s: State<F>, steps: seq<Step<F>>)
    requires Inv(s) && s.pc.Swap?
    requires ClearCalling !in steps
    requires ValidRun(Apply(s, SwapQueue), steps + [ClearCalling])
    ensures RunCount(steps) == |s.pending|
    ensures var s' := After(Apply(s, SwapQueue), steps + [ClearCalling]);
            && s'.executed == s.executed + s.pending
            && s'.batch == []
            && s'.pending == PushesOf(steps)
            && (s'.pending != [] ==> WakeupDue(s'))
  {
    var s0 := Apply(s, SwapQueue);
    assert (steps + [ClearCalling])[..|steps|] == steps;
    BatchProgress(s0, steps);
    InvStep(s, SwapQueue);
    InvAlways(s0, steps);
    BatchEnd(After(s0, steps));
  }

  /** A batch leaves what was queued meanwhile, with the wakeup for it. */
  lemma BatchEnd<F>(s: State<F>)
    requires Inv(s) && Enabled(s, ClearCalling)
    ensures var s' := Apply(s, ClearCalling);
            s'.pending == s.pending && s'.executed == s.executed && (s'.pending != [] ==> WakeupDue(s'))
  {
    forall pc | SomeOther(s, pc) ensures SomeOther(Apply(s, ClearCalling), pc) {
      SomeOtherSurvives(s, Apply(s, ClearCalling), pc);
    }
  }

  /** How far the functors of `s0` have come once `poll` has returned. */
  ghost predicate OnTheWay<F>(s0: State<F>, s: State<F>) {
    || s.pc.Dispatch? || s.pc.InHandler? || s.pc.Enter? || s.pc.Swap?
    || (InBatch(s) && s0.pushed <= s.executed + s.batch)
    || s0.pushed <= s.executed
  }

  lemma IterationStep<F>(s0: State<F>, s: State<F>, step: Step<F>)
    requires Inv(s) && Enabled(s, step) && s0.pushed <= s.pushed && OnTheWay(s0, s)
    ensures OnTheWay(s0, Apply(s, step))
  {
    var s' := Apply(s, step);
    assert s.executed <= s'.executed;
    match step
    case SwapQueue => assert s.executed + s.batch + s.pending == s'.executed + s'.batch;
    case RunOne => assert s.executed + s.batch == s'.executed + s'.batch;
    case ClearCalling => assert s.executed + s.batch == s.executed;
    case _ =>
  }

  /** ... and before that the loop stays in `poll`. */
  ghost predicate Stage<F>(s0: State<F>, s: State<F>, count: nat) {
    if count == 0 then s.pc.Poll? else OnTheWay(s0, s)
  }

  lemma StageStep<F>(s0: State<F>, s: State<F>, step: Step<F>, count: nat)
    requires Inv(s) && Enabled(s, step) && s0.pushed <= s.pushed && Stage(s0, s, count)
    ensures Stage(s0, Apply(s, step), count + if step.PollReturn? then 1 else 0)
  {
    if count > 0 {
      IterationStep(s0, s, step);
    }
  }

  lemma {:induction false} IterationProgress<F>(s0: State<F>, steps: seq<Step<F>>)
    requires Inv(s0) && s0.pc.Poll? && ValidRun(s0, steps)
    ensures Stage(s0, After(s0, steps), PollReturns(steps))
    decreases |steps|
  {
    if steps != [] {
      var n := |steps| - 1;
      IterationProgress(s0, steps[..n]);
      InvAlways(s0, steps[..n]);
      PushHistory(s0, steps[..n]);
      StageStep(s0, After(s0, steps[..n]), steps[n], PollReturns(steps[..n]));
    }
  }

  /** Whatever was queued when the loop sat in `poll` has run by the time the loop is back at its
      quit test: one return of `poll` serves every functor pushed before it. */
  lemma OneIterationServesAll<F>(s0: State<F>, steps: seq<Step<F>>)
    requires Inv(s0) && s0.pc.Poll? && ValidRun(s0, steps) && PollReturns(steps) >= 1
    requires After(s0, steps).pc.CheckQuit? || After(s0, steps).pc.Poll? || After(s0, steps).pc.Stopped?
    ensures s0.pushed <= After(s0, steps).executed
  {
    IterationProgress(s0, steps);
  }
}
