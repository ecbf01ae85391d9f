/** `TimerQueue` as its methods update it.  The clock runs and other threads queue additions and
    cancellations between any two of its actions (`Environment`); what a method did is one run
    of `TimerProtocol`, kept in `trace`. */
module Timing {
  import opened TimerSet
  import opened TimerProtocol
  import opened Util
  import TimerInvariants
  import T = TimerTheorems
  import LoopProtocol

  /** `std::set::lower_bound`. */
  method FindLowerBound(es: seq<Entry>, x: Entry) returns (k: nat)
    ensures k == LowerBound(es, x)
  {
    k := 0;
    while k < |es| && Less(es[k], x)
      invariant k <= |es| && LowerBound(es, x) == k + LowerBound(es[k..], x)
    {
      assert es[k..][1..] == es[k + 1..];
      k := k + 1;
    }
  }

  /** The `timespec` of `howMuchTimeFromNow`: the same delay, in whole seconds and nanoseconds. */
  method ToTimespec(when: int, now: int) returns (tv_sec: int, tv_nsec: int)
    ensures 0 <= tv_sec && 0 <= tv_nsec < 1_000_000_000
    ensures tv_sec * 1_000_000_000 + tv_nsec == 1000 * HowMuchTimeFromNow(when, now)
  {
    var microseconds := when - now;
    if microseconds < 100 {
      microseconds := 100;
    }
    tv_sec := microseconds / 1_000_000;
    tv_nsec := (microseconds % 1_000_000) * 1000;
  }

  /** Steps the loop thread does not take. */
  predicate IsForeign(step: Step) {
    step.Tick? || step.QueueAdd? || step.QueueCancel?
  }

  /** Calls of addTimer and cancelTimer on the loop thread. */
  predicate IsUserCall(step: Step) {
    step.OwnAdd? || step.OwnCancel?
  }

  function CallOf(step: Step): seq<Step> {
    if IsUserCall(step) then [step] else []
  }

  lemma SplitProgram(program: seq<Step>, done: nat, more: nat)
    requires done + more <= |program|
    ensures program[..done] + program[done..][..more] == program[..done + more]
  {
  }

  class TimerQueue {
    ghost const startClock: int
    var clock: int
    var lastNumber: nat
    var heap: map<Addr, Timer>
    var pTimers: seq<Entry>
    var deadline: Option<int>
    var queue: seq<Functor>
    var phase: Phase
    ghost var lastArm: int          // histories
    ghost var fired: seq<Fired>
    ghost var fault: bool
    ghost var called: seq<Step>     // calls of the user's code on the loop thread
    ghost var trace: seq<Step>

    ghost function View(): State
      reads this
    {
      State(clock, lastNumber, heap, pTimers, deadline, lastArm, queue, phase, fired, fault)
    }

    function Observed(): (s: State)
      reads this
      ensures s == Bare(View())
    {
      State(clock, lastNumber, heap, pTimers, deadline, 0, queue, phase, [], false)
    }

    ghost predicate Valid()
      reads this
    {
      startClock > 0 && ValidRun(Start(startClock), trace) && After(Start(startClock), trace) == View()
    }

    twostate predicate Continues()
      reads this
    {
      Valid() && old(trace) <= trace
    }

    twostate predicate Took(step: Step)
      reads this
    {
      Valid() && trace == old(trace) + [step] && called == old(called) + CallOf(step)
    }

    twostate predicate Called(calls: seq<Step>)
      reads this
    {
      called == old(called) + calls
    }

    constructor (clock: int)
      requires clock > 0
      ensures Valid() && View() == Start(clock) && trace == [] && called == []
    {
      startClock, this.clock, lastNumber, heap, pTimers := clock, clock, 0, map[], [];
      deadline, lastArm, queue, phase, fired, fault, called, trace := None, clock, [], Idle, [], false, [], [];
    }

    ghost method Log(before: State, step: Step)
      requires startClock > 0 && ValidRun(Start(startClock), trace) && After(Start(startClock), trace) == before
      requires Enabled(before, step) && Apply(before, step) == View()
      modifies this`trace, this`called
      ensures Took(step)
    {
      RunSnoc(Start(startClock), trace, step);
      trace, called := trace + [step], called + CallOf(step);
    }

    lemma Invariant()
      requires Valid()
      ensures T.Inv(View())
    {
      T.ReachedInv(startClock, trace, View());
    }

    /** `insert`: true if the entry is the new earliest. */
    method Insert(timer: Addr) returns (earliestChanged: bool)
      requires timer in heap
      modifies this`pTimers, this`fault
      ensures View() == TimerProtocol.Insert(old(View()), Key(heap, timer))
      ensures earliestChanged <==> old(pTimers) == [] || heap[timer].stamp < old(pTimers)[0].stamp
    {
      earliestChanged := false;
      var when := heap[timer].stamp;
      if pTimers == [] || when < pTimers[0].stamp {
        earliestChanged := true;
      }
      var entry := Entry(when, timer);
      var k := FindLowerBound(pTimers, entry);
      if k < |pTimers| && pTimers[k] == entry {
        fault := true;
      } else {
        pTimers := pTimers[..k] + [entry] + pTimers[k..];
      }
    }

    method ResetTimerfd(stamp: int)
      modifies this`deadline, this`lastArm
      ensures View() == Arm(old(View()), stamp)
    {
      var microseconds := HowMuchTimeFromNow(stamp, clock);
      deadline := Some(clock + microseconds);
      lastArm := clock;
    }

    method AddTimerInLoop(timer: Addr)
      requires timer in heap
      modifies this`pTimers, this`deadline, this`lastArm, this`fault
      ensures View() == TimerProtocol.AddTimerInLoop(old(View()), timer)
    {
      var earliestChanged := Insert(timer);
      if earliestChanged {
        ResetTimerfd(heap[timer].stamp);
      }
    }

    method CancelInLoop(id: TimerId)
      requires id.addr in heap
      modifies this`pTimers, this`heap
      ensures View() == CancelTimerInLoop(old(View()), id.addr)
    {
      var timer := Entry(heap[id.addr].stamp, id.addr);
      var it := FindLowerBound(pTimers, timer);
      if it < |pTimers| && pTimers[it] == timer {
        pTimers := pTimers[..it] + pTimers[it + 1..];
        heap := heap - {id.addr};
      }
    }

    /** `getExpired`: cuts the set before the first entry not below (now, UINTPTR_MAX). */
    method GetExpired(now: int) returns (expired: seq<Entry>)
      modifies this`pTimers
      ensures expired == Expired(old(pTimers), now) && pTimers == Remaining(old(pTimers), now)
    {
      var end := FindLowerBound(pTimers, Entry(now, UINTPTR_MAX));
      expired := [];
      for i := 0 to end
        invariant expired == pTimers[..i]
      {
        expired := expired + [pTimers[i]];
      }
      pTimers := pTimers[end..];
    }

    method SetView(s: State, ghost after: State)
      requires Bare(s) == Bare(after)
      modifies this
      ensures View() == after && trace == old(trace) && called == old(called)
    {
      clock, lastNumber, heap, pTimers, deadline := s.clock, s.lastNumber, s.heap, s.timers, s.deadline;
      queue, phase := s.queue, s.phase;
      lastArm, fired, fault := after.lastArm, after.fired, after.fault;
    }

    method Execute(step: Step)
      requires Valid() && Enabled(View(), step)
      modifies this
      ensures Took(step) && View() == Apply(old(View()), step)
    {
      ghost var before := View();
      HistoriesDecideNothing(before, step);
      SetView(Apply(Observed(), step), Apply(before, step));
      Log(before, step);
    }

    /** Time passes, and other threads queue additions and cancellations. */
    method Environment()
      requires Valid()
      modifies this
      ensures Continues() && Called([]) && clock >= old(clock) && old(queue) <= queue
      ensures phase == old(phase) && pTimers == old(pTimers) && fired == old(fired)
      ensures deadline == old(deadline) && lastArm == old(lastArm) && fault == old(fault)
      ensures forall a: Addr :: a in old(heap) ==> a in heap && heap[a] == old(heap)[a]
      ensures forall i :: |old(trace)| <= i < |trace| ==> IsForeign(trace[i])
    {
      var count: nat := *;
      while count > 0
        invariant Continues() && Called([]) && clock >= old(clock) && old(queue) <= queue
        invariant phase == old(phase) && pTimers == old(pTimers) && fired == old(fired)
        invariant deadline == old(deadline) && lastArm == old(lastArm) && fault == old(fault)
        invariant forall a: Addr :: a in old(heap) ==> a in heap && heap[a] == old(heap)[a]
        invariant forall i :: |old(trace)| <= i < |trace| ==> IsForeign(trace[i])
      {
        var step: Step := *;
        HistoriesDecideNothing(View(), step);
        if IsForeign(step) && Enabled(Observed(), step) {
          Execute(step);
        }
        count := count - 1;
      }
    }

    /** `addTimer`: the timer is allocated; on the loop thread it is added at once, from any other
        thread its addition is queued. */
    method AddTimer(caller: LoopProtocol.Caller, a: Addr, when: int, interval: nat) returns (id: TimerId)
      requires Valid() && a !in heap && (caller.LoopThread? ==> InUserCode(phase))
      modifies this
      ensures Took(if caller.LoopThread? then OwnAdd(a, when, interval) else QueueAdd(a, when, interval))
      ensures Alive(View(), id) && id.addr == a && id.number == lastNumber == old(lastNumber) + 1
      ensures heap == old(heap)[a := Timer(when, interval, id.number)] && phase == old(phase)
      ensures if caller.LoopThread?
              then T.EntryAdded(old(View()), View(), Entry(when, a)) && queue == old(queue)
              else pTimers == old(pTimers) && deadline == old(deadline) && queue == old(queue) + [Functor.AddInLoop(a)]
    {
      ghost var before := View();
      Invariant();
      lastNumber := lastNumber + 1;
      heap := heap[a := Timer(when, interval, lastNumber)];
      id := TimerId(a, lastNumber);
      if caller.LoopThread? {
        AddTimerInLoop(a);
        Log(before, OwnAdd(a, when, interval));
        T.OwnAddEffect(before, a, when, interval);
      } else {
        queue := queue + [Functor.AddInLoop(a)];
        Log(before, QueueAdd(a, when, interval));
      }
    }

    /** `cancelTimer`: at once on the loop thread, queued from any other. */
    method CancelTimer(caller: LoopProtocol.Caller, id: TimerId)
      requires Valid()
      requires if caller.LoopThread? then InUserCode(phase) && Alive(View(), id) else id.number <= lastNumber
      modifies this
      ensures Took(if caller.LoopThread? then OwnCancel(id) else QueueCancel(id)) && phase == old(phase)
      ensures caller.LoopThread? ==>
                var e := Entry(old(heap)[id.addr].stamp, id.addr);
                if e in old(pTimers)
                then heap == old(heap) - {id.addr} && forall x :: x in pTimers <==> x in old(pTimers) && x != e
                else heap == old(heap) && pTimers == old(pTimers)
      ensures caller.LoopThread? ==> queue == old(queue) && deadline == old(deadline)
      ensures caller.Other? ==>
                heap == old(heap) && pTimers == old(pTimers) && queue == old(queue) + [Functor.CancelInLoop(id)]
    {
      ghost var before := View();
      if caller.LoopThread? {
        Invariant();
        T.CancelEffectIff(before, id);
        if TimerInvariants.InTimers(before, id.addr) {
          T.CancelEffect(before, OwnCancel(id), id);
        }
        CancelInLoop(id);
        Log(before, OwnCancel(id));
      } else {
        queue := queue + [Functor.CancelInLoop(id)];
        Log(before, QueueCancel(id));
      }
    }

    /** The loop runs the first queued functor of this timer queue. */
    method RunFirstQueued()
      requires Valid() && phase.Idle? && queue != []
      requires queue[0].CancelInLoop? ==> Alive(View(), queue[0].id)
      modifies this
      ensures Took(RunQueued) && queue == old(queue)[1..] && fired == old(fired)
      ensures match old(queue)[0]
              case AddInLoop(a) =>
                && a in old(heap) && heap == old(heap)
                && T.EntryAdded(old(View()), View(), Entry(old(heap)[a].stamp, a))
              case CancelInLoop(id) =>
                && id.addr in old(heap) && heap == old(heap) - {id.addr} && deadline == old(deadline)
                && forall x :: x in pTimers <==> x in old(pTimers) && x != Entry(old(heap)[id.addr].stamp, id.addr)
    {
      Invariant();
      ghost var before := View();
      EffectOfFirst(before);
      TakeFirst();
      Log(before, RunQueued);
    }

    method TakeFirst()
      requires queue != [] && queue[0].TimerAddr() in heap
      modifies this`queue, this`pTimers, this`heap, this`deadline, this`lastArm, this`fault
      ensures View() == RunFunctor(old(View()).(queue := old(queue)[1..]), old(queue)[0])
    {
      var functor := queue[0];
      queue := queue[1..];
      match functor {
        case AddInLoop(a) => AddTimerInLoop(a);
        case CancelInLoop(id) => CancelInLoop(id);
      }
    }

    /** A callback: additions and cancellations, as far along the user's program as `done`. */
    method UserCode(program: seq<Step>) returns (done: nat)
      requires Valid() && phase.Firing? && phase.k > 0
      modifies this
      ensures Continues() && phase == old(phase)
      ensures done <= |program| && Called(program[..done])
      ensures forall i :: |old(trace)| <= i < |trace| ==> !trace[i].StartReset?
    {
      done := 0;
      var stop := false;
      while done < |program| && !stop
        invariant Continues() && phase == old(phase)
        invariant done <= |program| && Called(program[..done])
        invariant forall i :: |old(trace)| <= i < |trace| ==> !trace[i].StartReset?
        decreases |program| - done, !stop
      {
        stop := *;
        Environment();
        HistoriesDecideNothing(View(), program[done]);
        if !stop && IsUserCall(program[done]) && Enabled(Observed(), program[done]) {
          UserCall(program[done]);
          done := done + 1;
        } else {
          stop := true;
        }
      }
      Environment();
    }

    method UserCall(step: Step)
      requires Valid() && IsUserCall(step) && Enabled(View(), step)
      modifies this
      ensures Took(step) && phase == old(phase)
    {
      match step {
        case OwnAdd(a, when, every) => var _ := AddTimer(LoopProtocol.LoopThread, a, when, every);
        case OwnCancel(id) => CancelTimer(LoopProtocol.LoopThread, id);
      }
    }

    method TakeTime() returns (now: int)
      requires Valid() && phase.Idle?
      modifies this
      ensures Took(StartRead) && now == clock && View() == old(View()).(phase := Reading(now))
    {
      ghost var before := View();
      now := clock;
      phase := Reading(now);
      Log(before, StartRead);
    }

    /** `readTimerfd` and `getExpired`. */
    method ReadAndCut(now: int) returns (expired: seq<Entry>)
      requires Valid() && phase == Reading(now)
      modifies this
      ensures Took(ReadTimerfd) && expired == Expired(old(pTimers), now)
      ensures phase == Firing(now, expired, 0) && heap == old(heap) && fired == old(fired)
    {
      ghost var before := View();
      if deadline.Some? && deadline.value <= clock {
        deadline := None;
      }
      expired := GetExpired(now);
      phase := Firing(now, expired, 0);
      Log(before, ReadTimerfd);
    }

    /** `timeout()` of one expired timer, before its callback's own actions. */
    method Timeout(it: Entry)
      requires Valid() && phase.Firing? && phase.k < |phase.batch| && it == phase.batch[phase.k]
      modifies this
      ensures Took(FireNext) && phase == Firing(old(phase).now, old(phase).batch, old(phase).k + 1)
    {
      ghost var before := View();
      HeldTimerIsAlive(it);
      var timer := heap[it.addr];
      fired := fired + [Fired(timer.number, timer.interval, clock)];
      phase := Firing(phase.now, phase.batch, phase.k + 1);
      Log(before, FireNext);
    }

    method BeginReset()
      requires Valid() && phase.Firing? && phase.k == |phase.batch|
      modifies this
      ensures Took(StartReset) && View() == old(View()).(phase := Resetting(old(phase).now, old(phase).batch, 0))
    {
      ghost var before := View();
      phase := Resetting(phase.now, phase.batch, 0);
      Log(before, StartReset);
    }

    /** What `reset` does with one timer: restart and re-insert it, or free it. */
    method RestartOrFree(it: Entry)
      requires it.addr < UINTPTR_MAX && it.addr in heap
      modifies this`heap, this`pTimers, this`fault
      ensures View() == ResetTimer(old(View()), it)
    {
      var timer: Addr := it.addr;
      if heap[timer].interval > 0 {
        heap := heap[timer := heap[timer].(stamp := clock + heap[timer].interval)];
        var _ := Insert(timer);
      } else {
        heap := heap - {timer};
      }
    }

    /** One turn of the loop in `reset`. */
    method ResetOne(it: Entry)
      requires Valid() && phase.Resetting? && phase.k < |phase.batch| && it == phase.batch[phase.k]
      modifies this
      ensures Took(ResetNext) && fired == old(fired)
      ensures phase == Resetting(old(phase).now, old(phase).batch, old(phase).k + 1)
    {
      ghost var before := View();
      HeldTimerIsAlive(it);
      RestartOrFree(it);
      phase := Resetting(phase.now, phase.batch, phase.k + 1);
      Log(before, ResetNext);
    }

    /** The end of `reset`: arms for the earliest entry unless its stamp is not `valid()`. */
    method EndReset()
      requires Valid() && phase.Resetting? && phase.k == |phase.batch|
      modifies this
      ensures Took(FinishReset) && phase.Idle? && fired == old(fired)
      ensures if pTimers != [] && pTimers[0].stamp > 0 then T.ArmedNow(old(View()), View(), pTimers[0].stamp)
              else deadline == old(deadline)
    {
      Invariant();
      ghost var before := View();
      T.RearmEffect(before);
      var nextExpire := 0;
      if pTimers != [] {
        assert TimerInvariants.InSync(heap, pTimers[0]);
        nextExpire := heap[pTimers[0].addr].stamp;
      }
      if nextExpire > 0 {
        ResetTimerfd(nextExpire);
      }
      phase := Idle;
      Log(before, FinishReset);
    }

    /** `reset`: whatever other threads queue meanwhile, every repeating timer of the batch is back
        in the set, for one interval from its turn, and every one-shot is freed. */
    method Reset(expired: seq<Entry>)
      requires Valid() && phase.Firing? && phase.batch == expired && phase.k == |expired|
      modifies this
      ensures Continues() && Called([]) && phase.Idle? && fired == old(fired)
      ensures T.ResetSoFar(old(heap), old(clock), View(), expired, |expired|)
    {
      BeginReset();
      ghost var begun := trace;
      ResetAll(expired);
      ghost var turns := trace[|begun|..];
      assert trace == begun + turns;
      EndReset();
      SuffixResets(startClock, old(trace), turns);
    }

    method ResetAll(expired: seq<Entry>)
      requires Valid() && phase.Resetting? && phase.batch == expired && phase.k == 0
      modifies this
      ensures Continues() && Called([])
      ensures phase == Resetting(old(phase).now, expired, |expired|) && fired == old(fired)
      ensures forall i :: |old(trace)| <= i < |trace| ==> !trace[i].FinishReset?
    {
      for i := 0 to |expired|
        invariant Continues() && Called([])
        invariant phase == Resetting(old(phase).now, expired, i) && fired == old(fired)
        invariant forall i :: |old(trace)| <= i < |trace| ==> !trace[i].FinishReset?
      {
        Environment();
        ResetOne(expired[i]);
      }
      Environment();
    }

    /** The callbacks of the batch, in order. */
    method FireAll(expired: seq<Entry>, program: seq<Step>) returns (done: nat)
      requires Valid() && phase.Firing? && phase.batch == expired && phase.k == 0
      modifies this
      ensures Continues() && phase == Firing(old(phase).now, expired, |expired|)
      ensures done <= |program| && Called(program[..done])
      ensures forall i :: |old(trace)| <= i < |trace| ==> !trace[i].StartReset?
    {
      done := 0;
      for i := 0 to |expired|
        invariant Continues() && phase == Firing(old(phase).now, expired, i)
        invariant done <= |program| && Called(program[..done])
        invariant forall i :: |old(trace)| <= i < |trace| ==> !trace[i].StartReset?
      {
        Environment();
        Timeout(expired[i]);
        var more := UserCode(program[done..]);
        SplitProgram(program, done, more);
        done := done + more;
      }
    }

    /** The callbacks fire the batch completely, once and in order, and the timers are the ones the
        entries were made for. */
    method FireBatch(expired: seq<Entry>, program: seq<Step>) returns (done: nat)
      requires Valid() && phase.Firing? && phase.batch == expired && phase.k == 0
      modifies this
      ensures Continues() && phase == Firing(old(phase).now, expired, |expired|)
      ensures done <= |program| && Called(program[..done])
      ensures T.FiredAll(old(heap), old(fired), expired, fired)
    {
      done := FireAll(expired, program);
      ghost var calls := trace[|old(trace)|..];
      assert trace == old(trace) + calls;
      SuffixFires(startClock, old(trace), calls);
    }

    /** `handleRead` up to `reset`. */
    method ReadAndFire(program: seq<Step>) returns (now: int, expired: seq<Entry>, done: nat)
      requires Valid() && phase.Idle?
      modifies this
      ensures done <= |program| && Called(program[..done])
      ensures Continues() && phase == Firing(now, expired, |expired|)
      ensures now == old(clock) && expired == Expired(old(pTimers), now)
      ensures T.FiredAll(old(heap), old(fired), expired, fired)
    {
      SetIsInOrder();
      SentinelCutsAtNow(pTimers, clock);
      now := TakeTime();
      Environment();
      expired := ReadAndCut(now);
      ghost var heap' := heap;
      done := FireBatch(expired, program);
      FiredFromOlderHeap(old(heap), heap', old(fired), expired, fired);
    }

    /** The pointers of the running batch lead to allocated timers. */
    lemma HeldTimerIsAlive(it: Entry)
      requires Valid() && (phase.Firing? || phase.Resetting?) && phase.k < |phase.batch| && it == phase.batch[phase.k]
      ensures it.addr < UINTPTR_MAX && it.addr in heap
    {
      Invariant();
      assert it in TimerInvariants.Held(phase);
    }

    lemma SetIsInOrder()
      requires Valid()
      ensures Sorted(pTimers) && ObjectAddresses(pTimers)
      ensures forall e :: e in pTimers ==> e.addr in heap
    {
      Invariant();
    }

    lemma IdleIsArmed()
      requires Valid() && phase.Idle?
      ensures !fault
      ensures pTimers != [] ==> deadline.Some? && deadline.value <= Max(pTimers[0].stamp, lastArm + 100)
    {
      Invariant();
    }

    /** `handleRead`: fires exactly the timers of the set that are due at `now`, each once and in
        stamp order, whatever their callbacks and other threads do meanwhile, and leaves the
        kernel timer covering the earliest entry.  Nothing is added or cancelled on the loop thread
        but what the callbacks ask for. */
    method HandleRead(program: seq<Step>) returns (now: int, ghost due: seq<Entry>, done: nat)
      requires Valid() && phase.Idle?
      modifies this
      ensures done <= |program| && Called(program[..done])
      ensures Continues() && phase.Idle? && !fault && now == old(clock)
      ensures Sorted(due) && forall e :: e in due <==> e in old(pTimers) && e.stamp <= now
      ensures T.FiredAll(old(heap), old(fired), due, fired)
      ensures pTimers != [] ==> deadline.Some? && deadline.value <= Max(pTimers[0].stamp, lastArm + 100)
    {
      SetIsInOrder();
      SentinelCutsAtNow(pTimers, clock);
      var expired;
      now, expired, done := ReadAndFire(program);
      due := expired;
      Reset(expired);
      IdleIsArmed();
    }
  }

  lemma EffectOfFirst(s: State)
    requires T.Inv(s) && Enabled(s, RunQueued)
    ensures var s' := Apply(s, RunQueued);
            && s.queue[0].TimerAddr() in s.heap && s'.queue == s.queue[1..] && s'.fired == s.fired
            && match s.queue[0]
            case AddInLoop(a) => a in s.heap && s'.heap == s.heap && T.EntryAdded(s, s', Entry(s.heap[a].stamp, a))
            case CancelInLoop(id) =>
              && id.addr in s.heap && s'.heap == s.heap - {id.addr} && s'.deadline == s.deadline
              && forall x :: x in s'.timers <==> x in s.timers && x != Entry(s.heap[id.addr].stamp, id.addr)
  {
    match s.queue[0]
    case AddInLoop(_) => T.QueuedAddEffect(s);
    case CancelInLoop(id) => T.CancelEffect(s, RunQueued, id);
  }

  lemma SuffixResets(clock: int, soFar: seq<Step>, turns: seq<Step>)
    requires clock > 0 && ValidRun(Start(clock), soFar) && Enabled(After(Start(clock), soFar), StartReset)
    requires ValidRun(Start(clock), soFar + [StartReset] + turns) && FinishReset !in turns
    requires Enabled(After(Start(clock), soFar + [StartReset] + turns), FinishReset)
    ensures var s := After(Start(clock), soFar);
            T.ResetSoFar(s.heap, s.clock, Apply(After(Start(clock), soFar + [StartReset] + turns), FinishReset),
                         s.phase.batch, |s.phase.batch|)
  {
    T.StartInv(clock);
    T.InvAlways(Start(clock), soFar);
    RunSnoc(Start(clock), soFar, StartReset);
    RunSplits(Start(clock), soFar + [StartReset], turns);
    T.ResetHandlesTheBatch(After(Start(clock), soFar), turns);
  }

  /** The timers of the batch were allocated before the callbacks began. */
  lemma FiredFromOlderHeap(heap: map<Addr, Timer>, heap': map<Addr, Timer>, before: seq<Fired>, batch: seq<Entry>, after: seq<Fired>)
    requires T.FiredAll(heap', before, batch, after)
    requires forall a: Addr :: a in heap ==> a in heap' && heap'[a] == heap[a]
    requires forall e :: e in batch ==> e.addr < UINTPTR_MAX && e.addr in heap
    ensures T.FiredAll(heap, before, batch, after)
  {
    forall i | 0 <= i < |batch|
      ensures batch[i].addr < UINTPTR_MAX && batch[i].addr in heap && after[|before| + i].number == heap[batch[i].addr].number
    {
      assert batch[i] in batch;
    }
  }

  lemma SuffixFires(clock: int, soFar: seq<Step>, calls: seq<Step>)
    requires clock > 0 && ValidRun(Start(clock), soFar) && ValidRun(Start(clock), soFar + calls) && StartReset !in calls
    requires After(Start(clock), soFar).phase.Firing? && After(Start(clock), soFar).phase.k == 0
    requires Enabled(After(Start(clock), soFar + calls), StartReset)
    ensures var s := After(Start(clock), soFar);
            T.FiredAll(s.heap, s.fired, s.phase.batch, After(Start(clock), soFar + calls).fired)
  {
    T.StartInv(clock);
    T.InvAlways(Start(clock), soFar);
    RunSplits(Start(clock), soFar, calls);
    T.BatchFiresCompletely(After(Start(clock), soFar), calls);
  }
}
