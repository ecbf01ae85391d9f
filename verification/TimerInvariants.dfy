/** What every step of the timer machine keeps. */
module TimerInvariants {
  import opened TimerSet
  import opened TimerProtocol
  import opened Util

  /** The entries the loop thread still holds in `expired`, not yet reset. */
  function Held(phase: Phase): seq<Entry> {
    match phase
    case Firing(_, batch, _) => batch
    case Resetting(_, batch, k) => if k <= |batch| then batch[k..] else []
    case _ => []
  }

  /** The entry's key is its timer's current stamp. */
  predicate InSync(heap: map<Addr, Timer>, e: Entry) {
    e.addr < UINTPTR_MAX && e.addr in heap && heap[e.addr].stamp == e.stamp
  }

  ghost predicate AllInSync(heap: map<Addr, Timer>, es: seq<Entry>) {
    Sorted(es) && forall e :: e in es ==> InSync(heap, e)
  }

  // Who owns an allocated timer.
  predicate InQueue(s: State, a: Addr) { AddInLoop(a) in s.queue }
  predicate InTimers(s: State, a: Addr) requires a in s.heap { Key(s.heap, a) in s.timers }
  predicate InBatch(s: State, a: Addr) requires a in s.heap { Key(s.heap, a) in Held(s.phase) }

  predicate OneOwner(s: State, a: Addr)
    requires a in s.heap
  {
    || (InQueue(s, a) && !InTimers(s, a) && !InBatch(s, a))
    || (!InQueue(s, a) && InTimers(s, a) && !InBatch(s, a))
    || (!InQueue(s, a) && !InTimers(s, a) && InBatch(s, a))
  }

  ghost predicate QueueDistinct(queue: seq<Functor>) {
    forall i, j :: 0 <= i < j < |queue| && queue[i].AddInLoop? ==> queue[i] != queue[j]
  }

  ghost predicate Ownership(s: State) {
    && AllInSync(s.heap, s.timers) && AllInSync(s.heap, Held(s.phase))
    && (forall a: Addr :: a in s.heap ==> OneOwner(s, a))
    && (forall a: Addr :: InQueue(s, a) ==> a in s.heap)
    && QueueDistinct(s.queue)
  }

  /** Sequence numbers name timers for good. */
  ghost predicate Numbered(s: State) {
    && (forall a: Addr :: a in s.heap ==> 0 < s.heap[a].number <= s.lastNumber)
    && (forall a: Addr, b: Addr :: a in s.heap && b in s.heap && s.heap[a].number == s.heap[b].number ==> a == b)
  }

  predicate ArmedFor(s: State, stamp: int) {
    s.deadline.Some? && s.deadline.value <= Max(stamp, s.lastArm + MIN_DELAY)
  }

  /** Outside `handleRead` the kernel timer covers the earliest entry.  Inside, entries that are due
      were added by callbacks of this batch, and those have armed it. */
  predicate Armed(s: State) {
    s.timers != [] ==>
      match s.phase
      case Firing(now, _, _) => s.timers[0].stamp <= now ==> ArmedFor(s, s.timers[0].stamp)
      case Resetting(now, _, _) => s.timers[0].stamp <= now ==> ArmedFor(s, s.timers[0].stamp)
      case _ => ArmedFor(s, s.timers[0].stamp)
  }

  /** The kernel timer is never set for less than the minimal delay. */
  predicate NeverHasty(s: State) {
    s.deadline.Some? ==> s.lastArm + MIN_DELAY <= s.deadline.value
  }

  predicate ClockOk(s: State) {
    && 0 < s.clock
    && match s.phase
       case Idle => true
       case Reading(now) => 0 < now <= s.clock
       case Firing(now, batch, k) => 0 < now <= s.clock && k <= |batch|
       case Resetting(now, batch, k) => 0 < now <= s.clock && k <= |batch|
  }

  ghost predicate BatchDue(s: State) {
    match s.phase
    case Firing(now, batch, _) => forall e :: e in batch ==> e.stamp <= now
    case _ => true
  }

  // ---------------------------------------------------------------- ownership, operation by operation

  lemma InsertKeeps(heap: map<Addr, Timer>, es: seq<Entry>, e: Entry)
    requires AllInSync(heap, es) && InSync(heap, e)
    ensures AllInSync(heap, Inserted(es, e))
    ensures forall x :: x in Inserted(es, e) <==> x in es || x == e
    ensures Holds(es, e) <==> e in es
  {
    InsertedIsSorted(es, e);
    LowerBoundSplits(es, e);
  }

  lemma AddKeepsOwnership(s: State, a: Addr, when: int, every: nat)
    requires Ownership(s) && a !in s.heap
    ensures var s1 := Allocate(s, a, when, every);
            && Ownership(AddTimerInLoop(s1, a))
            && AddTimerInLoop(s1, a).fault == s.fault
  {
    var s1 := Allocate(s, a, when, every);
    var s' := AddTimerInLoop(s1, a);
    var e := Key(s1.heap, a);
    assert e !in s.timers;
    InsertKeeps(s1.heap, s.timers, e);
    forall b: Addr | b in s'.heap ensures OneOwner(s', b) {
      if b != a {
        assert OneOwner(s, b);
      }
    }
  }

  lemma QueueAddKeepsOwnership(s: State, a: Addr, when: int, every: nat)
    requires Ownership(s) && a !in s.heap
    ensures Ownership(Apply(s, QueueAdd(a, when, every)))
  {
    var s' := Apply(s, QueueAdd(a, when, every));
    forall b: Addr ensures InQueue(s', b) <==> InQueue(s, b) || b == a {
    }
    forall b: Addr | b in s'.heap ensures OneOwner(s', b) {
      if b != a {
        assert OneOwner(s, b);
      }
    }
  }

  /** Taking a queued addition out of the queue takes out that one alone. */
  lemma PoppedAddition(queue: seq<Functor>)
    requires QueueDistinct(queue) && queue != [] && queue[0].AddInLoop?
    ensures QueueDistinct(queue[1..])
    ensures forall b: Addr :: AddInLoop(b) in queue[1..] <==> AddInLoop(b) in queue && b != queue[0].addr
  {
    assert queue == [queue[0]] + queue[1..];
  }

  lemma RunAddKeepsOwnership(s: State)
    requires Ownership(s) && s.queue != [] && s.queue[0].AddInLoop?
    ensures var s' := RunFunctor(s.(queue := s.queue[1..]), s.queue[0]);
            Ownership(s') && s'.fault == s.fault
  {
    var a := s.queue[0].addr;
    var rest := s.queue[1..];
    var s' := RunFunctor(s.(queue := rest), s.queue[0]);
    PoppedAddition(s.queue);
    assert InQueue(s, a) && OneOwner(s, a);
    InsertKeeps(s.heap, s.timers, Key(s.heap, a));
    forall b: Addr | b in s'.heap ensures OneOwner(s', b) {
      assert OneOwner(s, b);
    }
  }

  lemma CancelKeepsOwnership(s: State, a: Addr)
    requires Ownership(s) && a in s.heap
    ensures var s' := CancelTimerInLoop(s, a);
            Ownership(s') && s'.fault == s.fault && (a !in s'.heap <==> InTimers(s, a))
  {
    var e := Key(s.heap, a);
    var s' := CancelTimerInLoop(s, a);
    LowerBoundSplits(s.timers, e);
    if Holds(s.timers, e) {
      ErasedIsSorted(s.timers, e);
      assert OneOwner(s, a);
      forall b: Addr | b in s'.heap ensures OneOwner(s', b) {
        assert OneOwner(s, b);
      }
    }
  }

  /** Queueing or dequeueing a cancel leaves the queued additions alone. */
  lemma QueueCancelKeepsOwnership(s: State, queue: seq<Functor>)
    requires Ownership(s)
    requires forall a: Addr :: AddInLoop(a) in queue <==> AddInLoop(a) in s.queue
    requires QueueDistinct(queue)
    ensures Ownership(s.(queue := queue))
  {
    var s' := s.(queue := queue);
    forall a: Addr | a in s'.heap ensures OneOwner(s', a) {
      assert OneOwner(s, a);
    }
  }

  lemma RunCancelKeepsOwnership(s: State)
    requires Ownership(s) && s.queue != [] && s.queue[0].CancelInLoop? && s.queue[0].id.addr in s.heap
    ensures var s' := RunFunctor(s.(queue := s.queue[1..]), s.queue[0]);
            Ownership(s') && s'.fault == s.fault
  {
    assert s.queue == [s.queue[0]] + s.queue[1..];
    QueueCancelKeepsOwnership(s, s.queue[1..]);
    CancelKeepsOwnership(s.(queue := s.queue[1..]), s.queue[0].id.addr);
  }

  lemma TakeExpiredKeepsOwnership(s: State, now: int)
    requires Ownership(s) && s.phase.Reading?
    ensures Ownership(TakeExpired(s, now)) && BatchDue(TakeExpired(s, now))
    ensures forall e :: e in TakeExpired(s, now).timers <==> e in s.timers && e.stamp > now
    ensures forall e :: e in TakeExpired(s, now).phase.batch <==> e in s.timers && e.stamp <= now
  {
    SentinelCutsAtNow(s.timers, now);
    var s' := TakeExpired(s, now);
    forall a: Addr | a in s'.heap ensures OneOwner(s', a) {
      assert OneOwner(s, a);
    }
  }

  lemma StartResetKeepsOwnership(s: State)
    requires Ownership(s) && s.phase.Firing?
    ensures Ownership(s.(phase := Resetting(s.phase.now, s.phase.batch, 0)))
  {
    var s' := s.(phase := Resetting(s.phase.now, s.phase.batch, 0));
    assert Held(s'.phase) == Held(s.phase);
    forall a: Addr | a in s'.heap ensures OneOwner(s', a) {
      assert OneOwner(s, a);
    }
  }

  /** The first timer still held is owned by the batch alone, through this one entry. */
  lemma HeadIsOwnedByBatch(s: State)
    requires Ownership(s) && Enabled(s, ResetNext)
    ensures var e := s.phase.batch[s.phase.k];
            && InSync(s.heap, e) && e in Held(s.phase)
            && Held(s.phase)[1..] == s.phase.batch[s.phase.k + 1..] && Held(s.phase)[0] == e
            && Sorted(Held(s.phase)[1..])
            && !InQueue(s, e.addr)
            && (forall x :: x in s.timers || x in Held(s.phase)[1..] ==> x.addr != e.addr && InSync(s.heap, x))
            && (forall x :: x in Held(s.phase) <==> x == e || x in Held(s.phase)[1..])
            && Held(Apply(s, ResetNext).phase) == Held(s.phase)[1..]
  {
    var held := Held(s.phase);
    var e := held[0];
    assert InSync(s.heap, e) && InBatch(s, e.addr) && OneOwner(s, e.addr);
    SortedSlices(held, 1);
    assert held[..1] == [e];
    forall x | x in s.timers || x in held[1..] ensures x.addr != e.addr {
      assert InSync(s.heap, x);
    }
  }

  lemma SyncSurvivesUpdate(heap: map<Addr, Timer>, es: seq<Entry>, a: Addr, t: Timer)
    requires AllInSync(heap, es) && forall x :: x in es ==> x.addr != a
    ensures AllInSync(heap[a := t], es)
  {
  }

  lemma SyncSurvivesRemoval(heap: map<Addr, Timer>, es: seq<Entry>, a: Addr)
    requires AllInSync(heap, es) && forall x :: x in es ==> x.addr != a
    ensures AllInSync(heap - {a}, es)
  {
  }

  lemma RestartKeepsOwnership(s: State)
    requires Ownership(s) && Enabled(s, ResetNext) && !s.fault
    requires InSync(s.heap, s.phase.batch[s.phase.k]) && s.heap[s.phase.batch[s.phase.k].addr].interval > 0
    ensures var s' := Apply(s, ResetNext);
            Ownership(s') && !s'.fault
  {
    HeadIsOwnedByBatch(s);
    var s' := Apply(s, ResetNext);
    var a: Addr := s.phase.batch[s.phase.k].addr;
    var t' := s'.heap[a];
    SyncSurvivesUpdate(s.heap, s.timers, a, t');
    SyncSurvivesUpdate(s.heap, Held(s.phase)[1..], a, t');
    InsertKeeps(s'.heap, s.timers, Key(s'.heap, a));
    forall b: Addr | b in s'.heap ensures OneOwner(s', b) {
      assert OneOwner(s, b);
    }
  }

  lemma FreeKeepsOwnership(s: State)
    requires Ownership(s) && Enabled(s, ResetNext) && !s.fault
    requires InSync(s.heap, s.phase.batch[s.phase.k]) && s.heap[s.phase.batch[s.phase.k].addr].interval == 0
    ensures var s' := Apply(s, ResetNext);
            Ownership(s') && !s'.fault
  {
    HeadIsOwnedByBatch(s);
    var s' := Apply(s, ResetNext);
    var a: Addr := s.phase.batch[s.phase.k].addr;
    SyncSurvivesRemoval(s.heap, s.timers, a);
    SyncSurvivesRemoval(s.heap, Held(s.phase)[1..], a);
    forall b: Addr | b in s'.heap ensures OneOwner(s', b) {
      assert OneOwner(s, b) && b != a;
      assert Key(s'.heap, b) == Key(s.heap, b) != s.phase.batch[s.phase.k];
    }
  }

  /** The batch gives up its first timer: to the set again, or to be freed. */
  lemma ResetNextKeepsOwnership(s: State)
    requires Ownership(s) && Enabled(s, ResetNext) && !s.fault
    ensures Ownership(Apply(s, ResetNext)) && !Apply(s, ResetNext).fault
  {
    HeadIsOwnedByBatch(s);
    if s.heap[s.phase.batch[s.phase.k].addr].interval > 0 {
      RestartKeepsOwnership(s);
    } else {
      FreeKeepsOwnership(s);
    }
  }

  lemma FinishResetKeepsOwnership(s: State)
    requires Ownership(s) && Enabled(s, FinishReset) && !s.fault
    ensures Ownership(Apply(s, FinishReset)) && !Apply(s, FinishReset).fault
  {
    var s' := Apply(s, FinishReset);
    assert Held(s.phase) == [];
    if s.timers != [] {
      assert InSync(s.heap, s.timers[0]);
    }
    forall b: Addr | b in s'.heap ensures OneOwner(s', b) {
      assert OneOwner(s, b);
    }
  }

  /** Steps that touch neither timers nor queue. */
  lemma SameOwners(s: State, s': State)
    requires Ownership(s)
    requires s'.heap == s.heap && s'.timers == s.timers && s'.queue == s.queue && Held(s'.phase) == Held(s.phase)
    ensures Ownership(s')
  {
    forall a: Addr | a in s'.heap ensures OneOwner(s', a) {
      assert OneOwner(s, a);
    }
  }

  lemma OwnershipStep(s: State, step: Step)
    requires Ownership(s) && ClockOk(s) && !s.fault && Enabled(s, step)
    ensures Ownership(Apply(s, step)) && !Apply(s, step).fault
  {
    var s' := Apply(s, step);
    match step
    case Tick(_) => SameOwners(s, s');
    case QueueAdd(a, when, every) => QueueAddKeepsOwnership(s, a, when, every);
    case QueueCancel(id) => QueueCancelKeepsOwnership(s, s'.queue);
    case RunQueued =>
      if s.queue[0].AddInLoop? {
        RunAddKeepsOwnership(s);
      } else {
        RunCancelKeepsOwnership(s);
      }
    case OwnAdd(a, when, every) => AddKeepsOwnership(s, a, when, every);
    case OwnCancel(id) => CancelKeepsOwnership(s, id.addr);
    case StartRead => SameOwners(s, s');
    case ReadTimerfd => TakeExpiredKeepsOwnership(s, s.phase.now);
    case FireNext =>
      assert InSync(s.heap, s.phase.batch[s.phase.k]);
      SameOwners(s, s');
    case StartReset => StartResetKeepsOwnership(s);
    case ResetNext => ResetNextKeepsOwnership(s);
    case FinishReset => FinishResetKeepsOwnership(s);
  }

  // ---------------------------------------------------------------- the kernel timer

  /** `addTimerInLoop` arms for a new earliest entry; otherwise the earliest entry stays. */
  lemma AddKeepsArmed(s: State, a: Addr)
    requires AllInSync(s.heap, s.timers) && a in s.heap && Armed(s)
    ensures Armed(AddTimerInLoop(s, a))
  {
    FirstAfterInsert(s.timers, Key(s.heap, a));
    var e := Key(s.heap, a);
    assert s.timers != [] && !(e.stamp < s.timers[0].stamp) ==> Inserted(s.timers, e)[0].stamp == s.timers[0].stamp;
    assert s.timers == [] || e.stamp < s.timers[0].stamp ==> Inserted(s.timers, e)[0] == e;
  }

  /** A removal can only move the earliest entry later. */
  lemma CancelKeepsArmed(s: State, a: Addr)
    requires AllInSync(s.heap, s.timers) && Armed(s)
    ensures Armed(CancelTimerInLoop(s, a))
  {
    if a in s.heap && Erased(s.timers, Key(s.heap, a)) != [] {
      FirstAfterErase(s.timers, Key(s.heap, a));
    }
  }

  /** After the cut at `now` nothing left is due, so nothing needs the expiry that was read. */
  lemma TakeExpiredIsArmed(s: State, now: int)
    requires AllInSync(s.heap, s.timers)
    ensures Armed(TakeExpired(s, now))
  {
    SentinelCutsAtNow(s.timers, now);
    var rest := Remaining(s.timers, now);
    assert rest != [] ==> rest[0] in rest;
  }

  /** A restarted timer is later than `now`, so it never becomes a due earliest entry. */
  lemma ResetNextKeepsArmed(s: State)
    requires ClockOk(s) && Armed(s) && Enabled(s, ResetNext)
    requires AllInSync(s.heap, s.timers) && InSync(s.heap, s.phase.batch[s.phase.k])
    ensures Armed(Apply(s, ResetNext))
  {
    var e := s.phase.batch[s.phase.k];
    ResetNextTimers(s);
    if s.heap[e.addr].interval > 0 {
      LaterInsertKeepsArmed(s, Apply(s, ResetNext), Entry(s.clock + s.heap[e.addr].interval, e.addr));
    }
  }

  lemma HeadInSync(s: State)
    requires Ownership(s) && Enabled(s, ResetNext)
    ensures InSync(s.heap, s.phase.batch[s.phase.k])
  {
    assert Held(s.phase)[0] == s.phase.batch[s.phase.k];
  }

  lemma ResetNextTimers(s: State)
    requires Enabled(s, ResetNext) && InSync(s.heap, s.phase.batch[s.phase.k])
    ensures var s', e := Apply(s, ResetNext), s.phase.batch[s.phase.k];
            && s'.phase == Resetting(s.phase.now, s.phase.batch, s.phase.k + 1)
            && s'.deadline == s.deadline && s'.lastArm == s.lastArm
            && s'.timers == if s.heap[e.addr].interval > 0
                            then Inserted(s.timers, Entry(s.clock + s.heap[e.addr].interval, e.addr))
                            else s.timers
  {
  }

  lemma LaterInsertKeepsArmed(s: State, s': State, e: Entry)
    requires AllInSync(s.heap, s.timers) && Armed(s) && s.phase.Resetting? && s.phase.now < e.stamp
    requires s'.timers == Inserted(s.timers, e) && s'.deadline == s.deadline && s'.lastArm == s.lastArm
    requires s'.phase.Resetting? && s'.phase.now == s.phase.now
    ensures Armed(s')
  {
    FirstAfterInsert(s.timers, e);
  }

  /** `reset` does not arm for a stamp that is not `valid()`; such an entry is due, so a callback of
      this batch added it or one before it, and armed the timer then. */
  lemma FinishResetKeepsArmed(s: State)
    requires Ownership(s) && ClockOk(s) && Armed(s) && Enabled(s, FinishReset)
    ensures Armed(Apply(s, FinishReset))
  {
    if s.timers != [] {
      assert InSync(s.heap, s.timers[0]);
    }
  }

  lemma ArmedStep(s: State, step: Step)
    requires Ownership(s) && ClockOk(s) && Armed(s) && Enabled(s, step)
    ensures Armed(Apply(s, step))
  {
    match step
    case RunQueued =>
      var s1 := s.(queue := s.queue[1..]);
      match s.queue[0] {
        case AddInLoop(a) =>
          assert InQueue(s, a);
          AddKeepsArmed(s1, a);
        case CancelInLoop(id) => CancelKeepsArmed(s1, id.addr);
      }
    case OwnAdd(a, when, every) =>
      var s1 := Allocate(s, a, when, every);
      assert forall e :: e in s.timers ==> e.addr != a;
      AddKeepsArmed(s1, a);
    case OwnCancel(id) => CancelKeepsArmed(s, id.addr);
    case ReadTimerfd => TakeExpiredIsArmed(s, s.phase.now);
    case ResetNext =>
      HeadInSync(s);
      ResetNextKeepsArmed(s);
    case FinishReset => FinishResetKeepsArmed(s);
    case _ =>
  }

  // ---------------------------------------------------------------- numbers, clock, queue order

  /** A queued cancel never stands before the addition of the timer it names. */
  ghost predicate AddsBeforeCancels(s: State) {
    && (forall i :: 0 <= i < |s.queue| && s.queue[i].CancelInLoop? ==> s.queue[i].id.number <= s.lastNumber)
    && (forall i, j :: 0 <= i < j < |s.queue| && s.queue[i].CancelInLoop? && s.queue[j] == AddInLoop(s.queue[i].id.addr)
          ==> s.queue[i].id.addr in s.heap && s.heap[s.queue[i].id.addr].number != s.queue[i].id.number)
  }

  lemma ClockStep(s: State, step: Step)
    requires ClockOk(s) && BatchDue(s) && Ownership(s) && Enabled(s, step)
    ensures ClockOk(Apply(s, step)) && BatchDue(Apply(s, step))
    ensures s.clock <= Apply(s, step).clock && s.lastNumber <= Apply(s, step).lastNumber
  {
    if step.ReadTimerfd? {
      SentinelCutsAtNow(s.timers, s.phase.now);
    }
  }

  /** Live timers keep their number and interval. */
  ghost predicate KeepsTimers(heap: map<Addr, Timer>, heap': map<Addr, Timer>) {
    forall a: Addr :: a in heap' ==>
      a in heap && heap'[a].number == heap[a].number && heap'[a].interval == heap[a].interval
  }

  /** Only addTimer allocates, and it uses the next number; the new timer is at no known address. */
  lemma HeapStep(s: State, step: Step)
    requires Enabled(s, step)
    ensures var s' := Apply(s, step);
            match step
            case QueueAdd(a, when, every) => s'.heap == Allocate(s, a, when, every).heap && s'.lastNumber == s.lastNumber + 1
            case OwnAdd(a, when, every) => s'.heap == Allocate(s, a, when, every).heap && s'.lastNumber == s.lastNumber + 1
            case _ => KeepsTimers(s.heap, s'.heap) && s'.lastNumber == s.lastNumber
  {
  }

  lemma NumberedStep(s: State, step: Step)
    requires Numbered(s) && Enabled(s, step)
    ensures Numbered(Apply(s, step))
  {
    HeapStep(s, step);
  }
}
