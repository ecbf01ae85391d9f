/** `BlockingQueue` under its mutex and condition variable: any number of producers and consumers,
    single-signal notify, spurious wakeups.  Taking the lock, each action under it, `wait` and
    being woken are separate steps. */
module QueueProtocol {
  import opened Util

  type Tid = nat

  /** Where a thread stands in `put` or `take`; a thread not in the map is in neither. */
  datatype Pc<T> =
    | PutLock(x: T)        // about to lock
    | PutPush(x: T)        // locked
    | PutSignal            // locked, element pushed
    | PutUnlock            // locked, signalled
    | TakeLock             // about to lock
    | TakeTest             // locked, at while(_queue.empty())
    | Asleep               // in wait, lock released
    | Woken                // out of the wait set, about to lock again
    | TakePop              // locked, queue seen non-empty
    | TakeUnlock(y: T)     // locked, element taken
  {
    predicate HoldsLock() {
      PutPush? || PutSignal? || PutUnlock? || TakeTest? || TakePop? || TakeUnlock?
    }
    predicate WantsLock() {
      PutLock? || TakeLock? || Woken?
    }
  }

  datatype State<T> = State(
    queue: seq<T>,
    owner: Option<Tid>,          // who holds the mutex
    pcs: map<Tid, Pc<T>>,
    put: seq<T>,                 // history: every element pushed, in order
    taken: seq<T>                // history: every element popped, in order
  )

  /** Every step names its thread `t`; a signal also names the sleeper it wakes, if there is one. */
  datatype Step<T> =
    | CallPut(t: Tid, x: T)
    | CallTake(t: Tid)
    | Lock(t: Tid)
    | Push(t: Tid)
    | Signal(t: Tid, w: Tid)
    | Test(t: Tid)
    | SpuriousWake(t: Tid)
    | Pop(t: Tid)
    | Unlock(t: Tid)

  function Init<T>(): State<T> {
    State([], None, map[], [], [])
  }

  predicate SomeAsleep<T>(s: State<T>) {
    exists t :: t in s.pcs && s.pcs[t].Asleep?
  }

  predicate Enabled<T>(s: State<T>, step: Step<T>) {
    match step
    case CallPut(t, _) => t !in s.pcs
    case CallTake(t) => t !in s.pcs
    case Lock(t) => t in s.pcs && s.pcs[t].WantsLock() && s.owner.None?
    case Push(t) => t in s.pcs && s.pcs[t].PutPush?
    case Signal(t, w) =>
      t in s.pcs && s.pcs[t].PutSignal? && (SomeAsleep(s) ==> w in s.pcs && s.pcs[w].Asleep?)
    case Test(t) => t in s.pcs && s.pcs[t].TakeTest?
    case SpuriousWake(t) => t in s.pcs && s.pcs[t].Asleep?
    case Pop(t) => t in s.pcs && s.pcs[t].TakePop? && s.queue != []
    case Unlock(t) => t in s.pcs && (s.pcs[t].PutUnlock? || s.pcs[t].TakeUnlock?)
  }

  function Move<T>(s: State<T>, t: Tid, pc: Pc<T>): State<T> {
    s.(pcs := s.pcs[t := pc])
  }

  function Apply<T>(s: State<T>, step: Step<T>): State<T>
    requires Enabled(s, step)
  {
    match step
    case CallPut(t, x) => Move(s, t, PutLock(x))
    case CallTake(t) => Move(s, t, TakeLock)
    case Lock(t) =>
      Move(s, t, if s.pcs[t].PutLock? then PutPush(s.pcs[t].x) else TakeTest).(owner := Some(t))
    case Push(t) =>
      Move(s, t, PutSignal).(queue := s.queue + [s.pcs[t].x], put := s.put + [s.pcs[t].x])
    case Signal(t, w) =>
      if SomeAsleep(s) then Move(Move(s, t, PutUnlock), w, Woken) else Move(s, t, PutUnlock)
    case Test(t) =>
      if s.queue == [] then Move(s, t, Asleep).(owner := None) else Move(s, t, TakePop)
    case SpuriousWake(t) => Move(s, t, Woken)
    case Pop(t) =>
      Move(s, t, TakeUnlock(s.queue[0])).(queue := s.queue[1..], taken := s.taken + [s.queue[0]])
    case Unlock(t) => s.(pcs := s.pcs - {t}, owner := None)
  }

  /** A state without its histories. */
  function Bare<T>(s: State<T>): State<T> {
    s.(put := [], taken := [])
  }

  /** The histories decide nothing. */
  lemma HistoriesDecideNothing<T>(s: State<T>, step: Step<T>)
    ensures Enabled(Bare(s), step) <==> Enabled(s, step)
    ensures Enabled(s, step) ==> Bare(Apply(Bare(s), step)) == Bare(Apply(s, step))
  {
    assert SomeAsleep(Bare(s)) <==> SomeAsleep(s);
  }

  ghost predicate ValidRun<T>(s: State<T>, steps: seq<Step<T>>)
    decreases |steps|, 0
  {
    steps == [] ||
    (ValidRun(s, steps[..|steps| - 1]) && Enabled(After(s, steps[..|steps| - 1]), steps[|steps| - 1]))
  }

  ghost function After<T>(s: State<T>, steps: seq<Step<T>>): State<T>
    requires ValidRun(s, steps)
    decreases |steps|, 1
  {
    if steps == [] then s
    else Apply(After(s, steps[..|steps| - 1]), steps[|steps| - 1])
  }

  lemma RunSnoc<T>(s: State<T>, steps: seq<Step<T>>, step: Step<T>)
    requires ValidRun(s, steps) && Enabled(After(s, steps), step)
    ensures ValidRun(s, steps + [step])
    ensures After(s, steps + [step]) == Apply(After(s, steps), step)
  {
    assert (steps + [step])[..|steps|] == steps;
  }

  // ---------------------------------------------------------------- who exchanged what

  /** What one step puts for thread `t`, and what it takes for it. */
  function PutIn<T>(s: State<T>, step: Step<T>, t: Tid): seq<T>
    requires Enabled(s, step)
  {
    if step.Push? && step.t == t then [s.pcs[t].x] else []
  }

  function TakenIn<T>(s: State<T>, step: Step<T>, t: Tid): seq<T>
    requires Enabled(s, step)
  {
    if step.Pop? && step.t == t then [s.queue[0]] else []
  }

  /** The elements that thread `t` has put over a run, in order. */
  ghost function PutBy<T>(steps: seq<Step<T>>, t: Tid): seq<T>
    requires ValidRun(Init<T>(), steps)
  {
    if steps == [] then []
    else
      var n := |steps| - 1;
      PutBy(steps[..n], t) + PutIn(After(Init<T>(), steps[..n]), steps[n], t)
  }

  /** The elements that thread `t` has taken over a run, in order. */
  ghost function TakenBy<T>(steps: seq<Step<T>>, t: Tid): seq<T>
    requires ValidRun(Init<T>(), steps)
  {
    if steps == [] then []
    else
      var n := |steps| - 1;
      TakenBy(steps[..n], t) + TakenIn(After(Init<T>(), steps[..n]), steps[n], t)
  }

  lemma ExchangeSnoc<T>(steps: seq<Step<T>>, step: Step<T>, t: Tid)
    requires ValidRun(Init<T>(), steps) && Enabled(After(Init<T>(), steps), step)
    ensures ValidRun(Init<T>(), steps + [step])
    ensures PutBy(steps + [step], t) == PutBy(steps, t) + PutIn(After(Init<T>(), steps), step, t)
    ensures TakenBy(steps + [step], t) == TakenBy(steps, t) + TakenIn(After(Init<T>(), steps), step, t)
  {
    assert (steps + [step])[..|steps|] == steps;
  }

  // ---------------------------------------------------------------- the invariant

  /** Threads woken and not yet back at the test. */
  function WokenSet<T>(pcs: map<Tid, Pc<T>>): set<Tid> {
    set t | t in pcs && pcs[t].Woken?
  }

  /** The lock holder will take an element, or wake somebody for the one it has pushed. */
  function Credit<T>(s: State<T>): nat {
    if s.owner.Some? && s.owner.value in s.pcs
       && (s.pcs[s.owner.value].PutSignal? || s.pcs[s.owner.value].TakeTest? || s.pcs[s.owner.value].TakePop?)
    then 1 else 0
  }

  ghost predicate Exclusive<T>(s: State<T>) {
    && (forall t :: t in s.pcs && s.pcs[t].HoldsLock() ==> s.owner == Some(t))
    && (s.owner.Some? ==> s.owner.value in s.pcs && s.pcs[s.owner.value].HoldsLock())
  }

  ghost predicate Inv<T>(s: State<T>) {
    && Exclusive(s)
    && s.put == s.taken + s.queue
    && (forall t :: t in s.pcs && s.pcs[t].TakePop? ==> s.queue != [])
    // while anybody sleeps, every element has a thread coming for it
    && (SomeAsleep(s) ==> |s.queue| <= |WokenSet(s.pcs)| + Credit(s))
  }

  lemma WokenAfterMove<T>(pcs: map<Tid, Pc<T>>, t: Tid, pc: Pc<T>)
    ensures WokenSet(pcs[t := pc]) == if pc.Woken? then WokenSet(pcs) + {t} else WokenSet(pcs) - {t}
    ensures |WokenSet(pcs[t := pc])| ==
              |WokenSet(pcs)| + (if pc.Woken? then 1 else 0) - (if t in pcs && pcs[t].Woken? then 1 else 0)
  {
    var w := WokenSet(pcs);
    assert WokenSet(pcs[t := pc]) == if pc.Woken? then w + {t} else w - {t};
  }

  lemma AsleepBefore<T>(s: State<T>, t: Tid, pc: Pc<T>)
    requires !pc.Asleep? && SomeAsleep(Move(s, t, pc))
    ensures SomeAsleep(s)
  {
    var u :| u in Move(s, t, pc).pcs && Move(s, t, pc).pcs[u].Asleep?;
    assert u in s.pcs && s.pcs[u].Asleep?;
  }

  /** A change that keeps the lock where it is and gives nobody a lock position. */
  lemma ExclusiveKept<T>(s: State<T>, t: Tid, pc: Pc<T>)
    requires Exclusive(s)
    requires pc.HoldsLock() <==> t in s.pcs && s.pcs[t].HoldsLock()
    ensures Exclusive(Move(s, t, pc))
  {
  }

  /** Whoever is signalled counts as woken from then on, which pays for the element pushed. */
  lemma SignalCounts<T>(s: State<T>, t: Tid, w: Tid)
    requires Exclusive(s) && Enabled(s, Signal(t, w)) && SomeAsleep(s)
    ensures var s' := Apply(s, Signal(t, w));
            |WokenSet(s'.pcs)| == |WokenSet(s.pcs)| + 1 && Credit(s) == 1
  {
    WokenAfterMove(s.pcs, t, PutUnlock);
    WokenAfterMove(s.pcs[t := PutUnlock], w, Woken);
  }

  lemma SignalKeepsInv<T>(s: State<T>, t: Tid, w: Tid)
    requires Inv(s) && Enabled(s, Signal(t, w))
    ensures Inv(Apply(s, Signal(t, w)))
  {
    ExclusiveKept(s, t, PutUnlock);
    var s1 := Move(s, t, PutUnlock);
    if SomeAsleep(s) {
      ExclusiveKept(s1, w, Woken);
      SignalCounts(s, t, w);
    } else if SomeAsleep(s1) {
      AsleepBefore(s, t, PutUnlock);
    }
  }

  lemma UnlockKeepsInv<T>(s: State<T>, t: Tid)
    requires Inv(s) && Enabled(s, Unlock(t))
    ensures Inv(Apply(s, Unlock(t)))
  {
    var s' := Apply(s, Unlock(t));
    assert WokenSet(s'.pcs) == WokenSet(s.pcs);
    if SomeAsleep(s') {
      var u :| u in s'.pcs && s'.pcs[u].Asleep?;
      assert u in s.pcs && s.pcs[u].Asleep?;
    }
  }

  lemma MoveKeepsExclusive<T>(s: State<T>, step: Step<T>)
    requires Inv(s) && Enabled(s, step) && !step.Signal? && !step.Unlock?
    ensures Exclusive(Apply(s, step))
  {
  }

  /** A test that finds the queue empty leaves it empty; every other move balances the account. */
  lemma MoveCounts<T>(s: State<T>, step: Step<T>)
    requires Inv(s) && Enabled(s, step) && !step.Signal? && !step.Unlock?
    ensures var s' := Apply(s, step);
            || s'.queue == []
            || |s'.queue| + |WokenSet(s.pcs)| + Credit(s) <= |s.queue| + |WokenSet(s'.pcs)| + Credit(s')
  {
    var s' := Apply(s, step);
    assert s'.pcs == s.pcs[step.t := s'.pcs[step.t]];
    WokenAfterMove(s.pcs, step.t, s'.pcs[step.t]);
  }

  lemma MoveKeepsInv<T>(s: State<T>, step: Step<T>)
    requires Inv(s) && Enabled(s, step) && !step.Signal? && !step.Unlock?
    ensures Inv(Apply(s, step))
  {
    var s' := Apply(s, step);
    var t := step.t;
    MoveKeepsExclusive(s, step);
    MoveCounts(s, step);
    assert s'.pcs == s.pcs[t := s'.pcs[t]];
    if SomeAsleep(s') && !s'.pcs[t].Asleep? {
      AsleepBefore(s, t, s'.pcs[t]);
    }
  }

  lemma InvStep<T>(s: State<T>, step: Step<T>)
    requires Inv(s) && Enabled(s, step)
    ensures Inv(Apply(s, step))
  {
    match step
    case Signal(t, w) => SignalKeepsInv(s, t, w);
    case Unlock(t) => UnlockKeepsInv(s, t);
    case _ => MoveKeepsInv(s, step);
  }

  lemma {:induction false} InvAlways<T>(s: State<T>, steps: seq<Step<T>>)
    requires Inv(s) && ValidRun(s, steps)
    ensures Inv(After(s, steps))
    decreases |steps|
  {
    if steps != [] {
      var n := |steps| - 1;
      InvAlways(s, steps[..n]);
      InvStep(After(s, steps[..n]), steps[n]);
    }
  }

  // ---------------------------------------------------------------- what it guarantees

  /** While anybody sleeps, the queue is no longer than the number of threads that are awake and
      have yet to look at it, counting the lock holder if it is about to wake somebody or to take
      an element; with the lock free, woken threads alone account for the whole queue. */
  lemma NoLostWakeup<T>(steps: seq<Step<T>>)
    requires ValidRun(Init(), steps)
    ensures var s := After(Init(), steps);
            SomeAsleep(s) ==>
              && |s.queue| <= |WokenSet(s.pcs)| + Credit(s)
              && (s.owner.None? ==> |s.queue| <= |WokenSet(s.pcs)|)
  {
    InvAlways(Init<T>(), steps);
  }

  /** Nobody inside `put` or `take` can move any more unless woken from outside. */
  ghost predicate Quiescent<T>(s: State<T>) {
    forall t :: t in s.pcs ==> s.pcs[t].Asleep?
  }

  /** Consumers are never all asleep on a non-empty queue; when they sleep, every element ever put
      has been handed out, each once and in the order of the puts. */
  lemma SleepersHaveDrainedTheQueue<T>(steps: seq<Step<T>>)
    requires ValidRun(Init(), steps)
    requires Quiescent(After(Init(), steps)) && SomeAsleep(After(Init(), steps))
    ensures After(Init(), steps).queue == [] && After(Init(), steps).taken == After(Init(), steps).put
  {
    InvAlways(Init<T>(), steps);
    var s := After(Init(), steps);
    assert WokenSet(s.pcs) == {};
  }

  /** Elements leave in the order they came, and no two threads are ever between lock and unlock. */
  lemma FifoAndExclusive<T>(steps: seq<Step<T>>, t: Tid, u: Tid)
    requires ValidRun(Init(), steps)
    ensures After(Init(), steps).taken <= After(Init(), steps).put
    ensures var s := After(Init(), steps);
            t in s.pcs && u in s.pcs && s.pcs[t].HoldsLock() && s.pcs[u].HoldsLock() ==> t == u
  {
    InvAlways(Init<T>(), steps);
  }
}
