/** `BlockingQueue` and `ThreadPool` as their methods run.  Whenever the calling thread does not
    move, other threads may (`Environment`); what happened is one run of `QueueProtocol`, kept in
    `trace`.  A call that has to wait is observed for `patience` turns only. */
module Pool {
  import opened QueueProtocol
  import opened Util

  class BlockingQueue<T(0)> {
    var queue: seq<T>
    var owner: Option<Tid>
    var pcs: map<Tid, Pc<T>>
    ghost var put: seq<T>        // histories
    ghost var taken: seq<T>
    ghost var trace: seq<Step<T>>

    ghost function View(): State<T>
      reads this
    {
      State(queue, owner, pcs, put, taken)
    }

    function Observed(): (s: State<T>)
      reads this
      ensures s == Bare(View())
    {
      State(queue, owner, pcs, [], [])
    }

    ghost predicate Valid()
      reads this
    {
      ValidRun(Init<T>(), trace) && After(Init<T>(), trace) == View()
    }

    twostate predicate Continues()
      reads this
    {
      Valid() && old(trace) <= trace && old(put) <= put && old(taken) <= taken
    }

    twostate predicate Took(step: Step<T>)
      reads this
    {
      Valid() && trace == old(trace) + [step]
    }

    /** What `t` itself has put and taken meanwhile. */
    twostate predicate Exchanged(t: Tid, new putNow: seq<T>, new takenNow: seq<T>)
      requires old(Valid()) && Valid()
      reads this
    {
      && PutBy(trace, t) == PutBy(old(trace), t) + putNow
      && TakenBy(trace, t) == TakenBy(old(trace), t) + takenNow
    }

    constructor ()
      ensures Valid() && View() == Init() && trace == []
    {
      queue, owner, pcs, put, taken, trace := [], None, map[], [], [], [];
    }

    ghost method Log(before: State<T>, step: Step<T>, t: Tid)
      requires ValidRun(Init<T>(), trace) && After(Init<T>(), trace) == before
      requires Enabled(before, step) && Apply(before, step) == View()
      modifies this`trace
      ensures Valid() && trace == old(trace) + [step]
      ensures PutBy(trace, t) == PutBy(old(trace), t) + PutIn(before, step, t)
      ensures TakenBy(trace, t) == TakenBy(old(trace), t) + TakenIn(before, step, t)
    {
      RunSnoc(Init<T>(), trace, step);
      ExchangeSnoc(trace, step, t);
      trace := trace + [step];
    }

    method Execute(step: Step<T>, ghost t: Tid)
      requires Valid() && Enabled(View(), step)
      modifies this
      ensures Took(step) && View() == Apply(old(View()), step)
      ensures Exchanged(t, PutIn(old(View()), step, t), TakenIn(old(View()), step, t))
    {
      ghost var before := View();
      ghost var after := Apply(before, step);
      HistoriesDecideNothing(before, step);
      var s := Apply(Observed(), step);
      queue, owner, pcs, put, taken := s.queue, s.owner, s.pcs, after.put, after.taken;
      Log(before, step, t);
    }

    /** What the other threads leave of `me`: its place, unless it sleeps and is woken; and all shared
        state while it holds the lock. */
    ghost predicate LeftAlone(me: Tid, s: State<T>, s': State<T>) {
      && (me in s'.pcs <==> me in s.pcs)
      && (me in s.pcs ==> s'.pcs[me] == s.pcs[me] || (s.pcs[me].Asleep? && s'.pcs[me].Woken?))
      && s.put <= s'.put && s.taken <= s'.taken
      && (s.owner == Some(me) && me in s.pcs && s.pcs[me].HoldsLock() ==>
            s'.owner == Some(me) && s'.queue == s.queue && s'.put == s.put && s'.taken == s.taken)
    }

    lemma StepLeavesAlone(me: Tid, s: State<T>, step: Step<T>)
      requires Inv(s) && Enabled(s, step) && (step.t != me || step.SpuriousWake?)
      ensures LeftAlone(me, s, Apply(s, step))
    {
    }

    lemma LeftAloneTransitive(me: Tid, a: State<T>, b: State<T>, c: State<T>)
      requires LeftAlone(me, a, b) && LeftAlone(me, b, c)
      ensures LeftAlone(me, a, c)
    {
    }

    /** Any steps of the other threads; one of them may wake `me`, nothing else happens to it. */
    method Environment(me: Tid)
      requires Valid()
      modifies this
      ensures Continues() && LeftAlone(me, old(View()), View()) && Exchanged(me, [], [])
    {
      var count: nat := *;
      InvAlways(Init<T>(), trace);
      while count > 0
        invariant Valid() && old(trace) <= trace
        invariant Inv(View()) && LeftAlone(me, old(View()), View()) && Exchanged(me, [], [])
      {
        var step: Step<T> := *;
        HistoriesDecideNothing(View(), step);
        if Enabled(Observed(), step) && (step.t != me || step.SpuriousWake?) {
          ghost var before := View();
          OtherStep(me, step);
          LeftAloneTransitive(me, old(View()), before, View());
        }
        count := count - 1;
      }
    }

    method OtherStep(me: Tid, step: Step<T>)
      requires Valid() && Inv(View()) && Enabled(View(), step) && (step.t != me || step.SpuriousWake?)
      modifies this
      ensures Took(step) && Inv(View()) && LeftAlone(me, old(View()), View()) && Exchanged(me, [], [])
    {
      InvStep(View(), step);
      StepLeavesAlone(me, View(), step);
      Execute(step, me);
    }

    /** Enters `put` or `take`. */
    method Call(t: Tid, element: Option<T>)
      requires Valid() && t !in pcs
      modifies this
      ensures Took(if element.Some? then CallPut(t, element.value) else CallTake(t)) && Exchanged(t, [], [])
      ensures View() == Move(old(View()), t, if element.Some? then PutLock(element.value) else TakeLock)
    {
      ghost var before := View();
      pcs := pcs[t := if element.Some? then PutLock(element.value) else TakeLock];
      Log(before, if element.Some? then CallPut(t, element.value) else CallTake(t), t);
    }

    /** `MutexLockGuard`, or `pthread_cond_wait` taking the mutex again. */
    method Acquire(t: Tid, patience: nat) returns (locked: bool)
      requires Valid() && t in pcs && pcs[t].WantsLock()
      modifies this
      ensures Continues() && t in pcs && Exchanged(t, [], [])
      ensures locked ==> owner == Some(t) && pcs[t] == if old(pcs)[t].PutLock? then PutPush(old(pcs)[t].x) else TakeTest
      ensures !locked ==> pcs[t] == old(pcs)[t]
    {
      for turn := 0 to patience
        invariant Continues() && t in pcs && pcs[t] == old(pcs)[t] && Exchanged(t, [], [])
      {
        Environment(t);
        if owner.None? {
          TakeLockNow(t);
          return true;
        }
      }
      return false;
    }

    method TakeLockNow(t: Tid)
      requires Valid() && t in pcs && pcs[t].WantsLock() && owner.None?
      modifies this
      ensures Took(Lock(t)) && put == old(put) && taken == old(taken) && Exchanged(t, [], [])
      ensures owner == Some(t) && t in pcs
      ensures pcs[t] == if old(pcs)[t].PutLock? then PutPush(old(pcs)[t].x) else TakeTest
    {
      ghost var before := View();
      owner := Some(t);
      pcs := pcs[t := if pcs[t].PutLock? then PutPush(pcs[t].x) else TakeTest];
      Log(before, Lock(t), t);
    }

    method PushBack(t: Tid)
      requires Valid() && t in pcs && pcs[t].PutPush? && owner == Some(t)
      modifies this
      ensures Took(Push(t)) && owner == Some(t) && t in pcs && pcs[t].PutSignal?
      ensures put == old(put) + [old(pcs)[t].x] && taken == old(taken) && Exchanged(t, [old(pcs)[t].x], [])
    {
      ghost var before := View();
      var one := pcs[t].x;
      queue := queue + [one];
      put := put + [one];
      pcs := pcs[t := PutSignal];
      Log(before, Push(t), t);
    }

    /** `pthread_cond_signal`: some sleeper, if there is one, leaves the wait set. */
    method Notify(t: Tid) returns (ghost w: Tid)
      requires Valid() && t in pcs && pcs[t].PutSignal? && owner == Some(t)
      modifies this
      ensures Took(Signal(t, w)) && queue == old(queue) && owner == old(owner)
      ensures t in pcs && pcs[t].PutUnlock? && Exchanged(t, [], [])
      ensures put == old(put) && taken == old(taken)
      ensures if old(SomeAsleep(View()))
              then w in old(pcs) && old(pcs)[w].Asleep? && pcs == old(pcs)[t := PutUnlock][w := Woken]
              else pcs == old(pcs)[t := PutUnlock]
    {
      ghost var before := View();
      assert SomeAsleep(Observed()) <==> SomeAsleep(before);
      if SomeAsleep(Observed()) {
        var sleeper :| sleeper in pcs && pcs[sleeper].Asleep?;
        pcs := pcs[t := PutUnlock][sleeper := Woken];
        w := sleeper;
      } else {
        pcs := pcs[t := PutUnlock];
        w := t;
      }
      Log(before, Signal(t, w), t);
    }

    method Release(t: Tid)
      requires Valid() && t in pcs && (pcs[t].PutUnlock? || pcs[t].TakeUnlock?)
      modifies this
      ensures Took(Unlock(t)) && owner.None? && t !in pcs && put == old(put) && taken == old(taken)
      ensures Exchanged(t, [], [])
    {
      ghost var before := View();
      owner := None;
      pcs := pcs - {t};
      Log(before, Unlock(t), t);
    }

    method Put(t: Tid, one: T, patience: nat) returns (done: bool)
      requires Valid() && t !in pcs
      modifies this
      ensures Continues() && Exchanged(t, if done then [one] else [], [])
      ensures done ==> t !in pcs && exists at :: |old(put)| <= at < |put| && put[at] == one
      ensures !done ==> t in pcs && pcs[t] == PutLock(one)
    {
      Call(t, Some(one));
      done := Acquire(t, patience);
      if done {
        ghost var at := PushAndNotify(t);
        assert put[at] == one;
      }
    }

    /** `put` under the lock. */
    method PushAndNotify(t: Tid) returns (ghost at: nat)
      requires Valid() && t in pcs && pcs[t].PutPush? && owner == Some(t)
      modifies this
      ensures Continues() && t !in pcs && Exchanged(t, [old(pcs)[t].x], [])
      ensures |old(put)| <= at < |put| && put[at] == old(pcs)[t].x
    {
      at := PushUnderLock(t);
      NotifyAndRelease(t);
    }

    method PushUnderLock(t: Tid) returns (ghost at: nat)
      requires Valid() && t in pcs && pcs[t].PutPush? && owner == Some(t)
      modifies this
      ensures Continues() && owner == Some(t) && t in pcs && pcs[t].PutSignal? && Exchanged(t, [old(pcs)[t].x], [])
      ensures |old(put)| <= at < |put| && put[at] == old(pcs)[t].x
    {
      Environment(t);
      at := |put|;
      PushBack(t);
    }

    method NotifyAndRelease(t: Tid)
      requires Valid() && t in pcs && pcs[t].PutSignal? && owner == Some(t)
      modifies this
      ensures Continues() && t !in pcs && Exchanged(t, [], [])
    {
      Environment(t);
      var _ := Notify(t);
      Leave(t);
    }

    /** The end of the critical section. */
    method Leave(t: Tid)
      requires Valid() && t in pcs && (pcs[t].PutUnlock? || pcs[t].TakeUnlock?) && owner == Some(t)
      modifies this
      ensures Continues() && t !in pcs && Exchanged(t, [], [])
    {
      Environment(t);
      Release(t);
    }

    /** The test of `while(_queue.empty())` and, if it is, the start of `wait`. */
    method TestEmpty(t: Tid) returns (empty: bool)
      requires Valid() && t in pcs && pcs[t].TakeTest?
      modifies this
      ensures Took(Test(t)) && empty == (queue == []) && queue == old(queue) && Exchanged(t, [], [])
      ensures t in pcs && pcs[t] == if empty then Asleep else TakePop
      ensures owner == if empty then None else old(owner)
      ensures put == old(put) && taken == old(taken)
    {
      ghost var before := View();
      empty := |queue| == 0;
      if empty {
        owner := None;
        pcs := pcs[t := Asleep];
      } else {
        pcs := pcs[t := TakePop];
      }
      Log(before, Test(t), t);
    }

    method PopFront(t: Tid) returns (front: T)
      requires Valid() && t in pcs && pcs[t].TakePop? && queue != []
      modifies this
      ensures Took(Pop(t)) && t in pcs && pcs[t] == TakeUnlock(front) && Exchanged(t, [], [front])
      ensures taken == old(taken) + [front] && put == old(put) && owner == old(owner)
    {
      ghost var before := View();
      front := queue[0];
      queue := queue[1..];
      taken := taken + [front];
      pcs := pcs[t := TakeUnlock(front)];
      Log(before, Pop(t), t);
    }

    /** `wait`, once the mutex is released: sleeps until woken and locked again. */
    method Wait(t: Tid, patience: nat) returns (back: bool)
      requires Valid() && t in pcs && pcs[t].Asleep?
      modifies this
      ensures Continues() && t in pcs && Exchanged(t, [], [])
      ensures back ==> owner == Some(t) && pcs[t].TakeTest?
      ensures !back ==> pcs[t].Asleep? || pcs[t].Woken?
    {
      for turn := 0 to patience
        invariant Continues() && t in pcs && (pcs[t].Asleep? || pcs[t].Woken?) && Exchanged(t, [], [])
      {
        Environment(t);
        if pcs[t].Woken? && owner.None? {
          TakeLockNow(t);
          return true;
        }
      }
      return false;
    }

    /** The end of `take`, under the lock: nobody else can have emptied the queue since the test. */
    method TakeFront(t: Tid) returns (front: T, ghost at: nat)
      requires Valid() && t in pcs && pcs[t].TakePop? && queue != [] && owner == Some(t)
      modifies this
      ensures Continues() && t !in pcs && Exchanged(t, [], [front])
      ensures |old(taken)| <= at < |taken| && taken[at] == front
    {
      front, at := PopUnderLock(t);
      Leave(t);
    }

    method PopUnderLock(t: Tid) returns (front: T, ghost at: nat)
      requires Valid() && t in pcs && pcs[t].TakePop? && queue != [] && owner == Some(t)
      modifies this
      ensures Continues() && owner == Some(t) && t in pcs && pcs[t].TakeUnlock? && Exchanged(t, [], [front])
      ensures |old(taken)| <= at < |taken| && taken[at] == front
    {
      Environment(t);
      at := |taken|;
      front := PopFront(t);
    }

    /** One turn of the wait loop of `take`: the front element, or a wait. */
    method TakeTurn(t: Tid, patience: nat) returns (front: Option<T>, ghost at: nat, locked: bool)
      requires Valid() && t in pcs && pcs[t].TakeTest? && owner == Some(t)
      modifies this
      ensures Continues() && Exchanged(t, [], if front.Some? then [front.value] else [])
      ensures front.Some? ==> t !in pcs && |old(taken)| <= at < |taken| && taken[at] == front.value
      ensures front.None? ==>
                t in pcs && if locked then owner == Some(t) && pcs[t].TakeTest? else pcs[t].Asleep? || pcs[t].Woken?
    {
      front, at, locked := None, 0, false;
      Environment(t);
      var empty := TestEmpty(t);
      if empty {
        locked := Wait(t, patience);
      } else {
        var one;
        one, at := TakeFront(t);
        front := Some(one);
      }
    }

    /** The wait loop of `take`. */
    method TakeLocked(t: Tid, patience: nat) returns (front: Option<T>, ghost at: nat)
      requires Valid() && t in pcs && pcs[t].TakeTest? && owner == Some(t)
      modifies this
      ensures Continues() && Exchanged(t, [], if front.Some? then [front.value] else [])
      ensures front.Some? ==> t !in pcs && |old(taken)| <= at < |taken| && taken[at] == front.value
      ensures front.None? ==> t in pcs && (pcs[t].WantsLock() || pcs[t].Asleep? || pcs[t].TakeTest?)
    {
      front, at := None, 0;
      var locked, turns := true, 0;
      while locked && turns < patience
        invariant front.None? && Continues() && t in pcs && Exchanged(t, [], [])
        invariant if locked then owner == Some(t) && pcs[t].TakeTest? else pcs[t].WantsLock() || pcs[t].Asleep?
      {
        front, at, locked := TakeTurn(t, patience);
        if front.Some? {
          return;
        }
        turns := turns + 1;
      }
    }

    /** `take`: hands out the front element, or is still waiting when patience runs out; either way it
        has taken nothing else. */
    method Take(t: Tid, patience: nat) returns (front: Option<T>, ghost at: nat)
      requires Valid() && t !in pcs
      modifies this
      ensures Continues() && Exchanged(t, [], if front.Some? then [front.value] else [])
      ensures front.Some? ==> t !in pcs && |old(taken)| <= at < |taken| && taken[at] == front.value
      ensures front.None? ==> t in pcs && (pcs[t].WantsLock() || pcs[t].Asleep? || pcs[t].TakeTest?)
    {
      front, at := None, 0;
      Call(t, None);
      var locked := Acquire(t, patience);
      if locked {
        front, at := TakeLocked(t, patience);
      }
    }
  }

  /** Strictly increasing positions of `xs` in `ys`, none before `from`. */
  ghost predicate PickedInOrder<T>(xs: seq<T>, at: seq<nat>, ys: seq<T>, from: nat) {
    && |at| == |xs|
    && (forall i :: 0 <= i < |xs| ==> from <= at[i] < |ys| && ys[at[i]] == xs[i])
    && (forall i, j :: 0 <= i < j < |xs| ==> at[i] < at[j])
  }

  lemma PickNext<T>(xs: seq<T>, at: seq<nat>, ys: seq<T>, from: nat, ys': seq<T>, x: T, k: nat)
    requires PickedInOrder(xs, at, ys, from) && ys <= ys' && from <= |ys| <= k < |ys'| && ys'[k] == x
    ensures PickedInOrder(xs + [x], at + [k], ys', from)
  {
  }

  lemma OneMore<T>(a: seq<T>, b: seq<T>, x: T)
    ensures a + b + [x] == a + (b + [x])
  {
  }

  /** `ThreadPool`: tasks go through the queue to the workers, or run at once without workers. */
  class ThreadPool<T(0)> {
    const tasks: BlockingQueue<T>
    var threads: nat
    ghost var ranInline: seq<T>  // history: tasks addTask ran itself

    constructor ()
      ensures fresh(tasks) && tasks.Valid() && tasks.View() == Init() && threads == 0 && ranInline == []
    {
      tasks := new BlockingQueue<T>();
      threads, ranInline := 0, [];
    }

    method Start(numThreads: nat)
      modifies this`threads
      ensures threads == old(threads) + numThreads
    {
      threads := threads + numThreads;
    }

    method AddTask(t: Tid, cb: T, patience: nat) returns (done: bool)
      requires tasks.Valid() && t !in tasks.pcs
      modifies this`ranInline, tasks
      ensures tasks.Valid() && tasks.Exchanged(t, if threads > 0 && done then [cb] else [], [])
      ensures threads == 0 ==> done && ranInline == old(ranInline) + [cb] && tasks.View() == old(tasks.View())
      ensures threads > 0 && done ==>
                ranInline == old(ranInline) && exists at :: |old(tasks.put)| <= at < |tasks.put| && tasks.put[at] == cb
    {
      if threads == 0 {
        ranInline := ranInline + [cb];
        done := true;
      } else {
        done := tasks.Put(t, cb, patience);
      }
    }

    /** `runInThread`, observed for `rounds` tasks: a worker runs what it takes, in the order in
        which the queue hands it out. */
    method RunInThread(worker: Tid, rounds: nat, patience: nat) returns (ran: seq<T>, ghost at: seq<nat>)
      requires tasks.Valid() && worker !in tasks.pcs
      modifies tasks
      ensures tasks.Valid() && old(tasks.taken) <= tasks.taken && tasks.Exchanged(worker, [], ran)
      ensures PickedInOrder(ran, at, tasks.taken, |old(tasks.taken)|)
      ensures |ran| < rounds ==> worker in tasks.pcs
    {
      ran, at := [], [];
      while |ran| < rounds
        invariant tasks.Valid() && worker !in tasks.pcs && old(tasks.taken) <= tasks.taken
        invariant tasks.Exchanged(worker, [], ran)
        invariant |ran| <= rounds && PickedInOrder(ran, at, tasks.taken, |old(tasks.taken)|)
        decreases rounds - |ran|
      {
        label before:
        var cb, k := tasks.Take(worker, patience);
        if cb.None? {
          return;
        }
        OneMore(TakenBy(old(tasks.trace), worker), ran, cb.value);
        PickNext(ran, at, old@before(tasks.taken), |old(tasks.taken)|, tasks.taken, cb.value, k);
        ran, at := ran + [cb.value], at + [k];
      }
    }
  }
}
