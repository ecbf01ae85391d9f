/** What the timer machine guarantees over every run. */
module TimerTheorems {
  import opened TimerSet
  import opened TimerProtocol
  import opened Util
  import opened TimerInvariants

  // ---------------------------------------------------------------- queue order

  /** The queue, or the queue without its head, over a heap that still has the queued timers. */
  lemma ShorterQueueOrder(s: State, s': State, k: nat)
    requires AddsBeforeCancels(s) && k <= |s.queue| && s'.queue == s.queue[k..]
    requires s.lastNumber <= s'.lastNumber
    requires forall a: Addr :: InQueue(s', a) ==>
               a in s.heap && a in s'.heap && s'.heap[a].number == s.heap[a].number
    ensures AddsBeforeCancels(s')
  {
    forall i, j | 0 <= i < j < |s'.queue| && s'.queue[i].CancelInLoop? && s'.queue[j] == AddInLoop(s'.queue[i].id.addr)
      ensures s'.queue[i].id.addr in s'.heap && s'.heap[s'.queue[i].id.addr].number != s'.queue[i].id.number
    {
      assert s.queue[k + i] == s'.queue[i] && s.queue[k + j] == s'.queue[j];
      assert InQueue(s', s'.queue[i].id.addr);
    }
  }

  lemma QueueAddOrder(s: State, a: Addr, when: int, every: nat)
    requires AddsBeforeCancels(s) && a !in s.heap
    requires forall b: Addr :: InQueue(s, b) ==> b in s.heap
    ensures AddsBeforeCancels(Apply(s, QueueAdd(a, when, every)))
  {
    var s' := Apply(s, QueueAdd(a, when, every));
    forall i, j | 0 <= i < j < |s'.queue| && s'.queue[i].CancelInLoop? && s'.queue[j] == AddInLoop(s'.queue[i].id.addr)
      ensures s'.queue[i].id.addr in s'.heap && s'.heap[s'.queue[i].id.addr].number != s'.queue[i].id.number
    {
      if j < |s.queue| {
        assert InQueue(s, s'.queue[i].id.addr);
      }
    }
  }

  lemma QueueCancelOrder(s: State, id: TimerId)
    requires AddsBeforeCancels(s) && id.number <= s.lastNumber
    ensures AddsBeforeCancels(Apply(s, QueueCancel(id)))
  {
    var s' := Apply(s, QueueCancel(id));
    forall i, j | 0 <= i < j < |s'.queue| && s'.queue[i].CancelInLoop? && s'.queue[j] == AddInLoop(s'.queue[i].id.addr)
      ensures s'.queue[i].id.addr in s'.heap && s'.heap[s'.queue[i].id.addr].number != s'.queue[i].id.number
    {
      assert j < |s.queue| && s.queue[i] == s'.queue[i] && s.queue[j] == s'.queue[j];
    }
  }

  /** The other steps leave the queue alone or take its head. */
  lemma QueueStep(s: State, step: Step)
    requires Enabled(s, step) && !step.QueueAdd? && !step.QueueCancel?
    ensures Apply(s, step).queue == s.queue[if step.RunQueued? then 1 else 0..]
  {
  }

  lemma QueuedTimersStay(s: State, step: Step)
    requires Ownership(s) && Enabled(s, step) && Ownership(Apply(s, step))
    requires !step.QueueAdd? && !step.QueueCancel?
    ensures forall a: Addr :: InQueue(Apply(s, step), a) ==>
              a in s.heap && a in Apply(s, step).heap && Apply(s, step).heap[a].number == s.heap[a].number
  {
    HeapStep(s, step);
    QueueStep(s, step);
    forall a: Addr | InQueue(Apply(s, step), a) ensures a in s.heap {
      assert InQueue(s, a);
    }
  }

  lemma AddsBeforeCancelsStep(s: State, step: Step)
    requires Ownership(s) && AddsBeforeCancels(s) && Enabled(s, step) && Ownership(Apply(s, step))
    ensures AddsBeforeCancels(Apply(s, step))
  {
    if step.QueueAdd? {
      QueueAddOrder(s, step.a, step.when, step.every);
    } else if step.QueueCancel? {
      QueueCancelOrder(s, step.id);
    } else {
      HeapStep(s, step);
      QueueStep(s, step);
      QueuedTimersStay(s, step);
      ShorterQueueOrder(s, Apply(s, step), if step.RunQueued? then 1 else 0);
    }
  }

  // ---------------------------------------------------------------- spacing

  /** The timers of the running batch whose callback is still to come. */
  function Unfired(phase: Phase): seq<Entry> {
    match phase
    case Firing(_, batch, k) => if k <= |batch| then batch[k..] else []
    case _ => []
  }

  predicate WillFire(s: State, a: Addr)
    requires a in s.heap
  {
    InTimers(s, a) || Key(s.heap, a) in Unfired(s.phase)
  }

  /** A timer that has fired is a repeating one wherever it may fire again, and not before its
      interval has passed; a timer still in the queue has never fired. */
  ghost predicate NotBeforeStamp(s: State) {
    forall a: Addr, i :: a in s.heap && 0 <= i < |s.fired| && s.fired[i].number == s.heap[a].number ==>
      && s.fired[i].interval == s.heap[a].interval
      && !InQueue(s, a)
      && (WillFire(s, a) ==> s.heap[a].interval > 0 && s.fired[i].at + s.heap[a].interval <= s.heap[a].stamp)
  }

  ghost predicate History(s: State) {
    forall i :: 0 <= i < |s.fired| ==> s.fired[i].number <= s.lastNumber && s.fired[i].at <= s.clock
  }

  /** Two firings of one timer: it repeats, and they are an interval apart. */
  ghost predicate Apart(fired: seq<Fired>) {
    forall i, j :: 0 <= i < j < |fired| && fired[i].number == fired[j].number ==>
      fired[i].interval > 0 && fired[j].interval == fired[i].interval && fired[i].at + fired[i].interval <= fired[j].at
  }

  ghost predicate Spaced(s: State) {
    NotBeforeStamp(s) && History(s) && Apart(s.fired)
  }

  ghost predicate Inv(s: State) {
    && !s.fault && ClockOk(s) && BatchDue(s)
    && Ownership(s) && Numbered(s) && AddsBeforeCancels(s) && Armed(s) && NeverHasty(s) && Spaced(s)
  }

  /** A timer that a step without firings leaves where it may fire was there before, or waited in
      the queue, or is restarted by the step; or the step allocates it. */
  predicate QuietFor(s: State, s': State, a: Addr)
    requires a in s'.heap
  {
    || s'.heap[a].number > s.lastNumber
    || (a in s.heap && s'.heap[a].number == s.heap[a].number && s'.heap[a].interval == s.heap[a].interval
        && (InQueue(s', a) ==> InQueue(s, a))
        && (WillFire(s', a) ==>
              || (WillFire(s, a) && s'.heap[a].stamp == s.heap[a].stamp)
              || InQueue(s, a)
              || (s.heap[a].interval > 0 && s.clock + s.heap[a].interval <= s'.heap[a].stamp)))
  }

  lemma QuietKeepsSpaced(s: State, s': State)
    requires Spaced(s) && s'.fired == s.fired && s.clock <= s'.clock && s.lastNumber <= s'.lastNumber
    requires forall a: Addr :: a in s'.heap ==> QuietFor(s, s', a)
    ensures Spaced(s')
  {
    forall a: Addr, i | a in s'.heap && 0 <= i < |s'.fired| && s'.fired[i].number == s'.heap[a].number
      ensures s'.fired[i].interval == s'.heap[a].interval && !InQueue(s', a)
      ensures WillFire(s', a) ==> s'.heap[a].interval > 0 && s'.fired[i].at + s'.heap[a].interval <= s'.heap[a].stamp
    {
      assert QuietFor(s, s', a);
    }
  }

  lemma AddIsQuiet(s: State, s0: State, a: Addr)
    requires Ownership(s) && a in s.heap && s0 == s.(queue := s0.queue)
    requires forall b: Addr :: AddInLoop(b) in s0.queue ==> InQueue(s, b)
    requires InQueue(s, a)
    ensures var s' := AddTimerInLoop(s0, a);
            forall b: Addr :: b in s'.heap ==> QuietFor(s, s', b)
  {
    InsertKeeps(s.heap, s.timers, Key(s.heap, a));
  }

  lemma AllocateIsQuiet(s: State, a: Addr, when: int, every: nat)
    requires Ownership(s) && a !in s.heap
    ensures var s' := AddTimerInLoop(Allocate(s, a, when, every), a);
            forall b: Addr :: b in s'.heap ==> QuietFor(s, s', b)
  {
    var s1 := Allocate(s, a, when, every);
    SyncSurvivesUpdate(s.heap, s.timers, a, s1.heap[a]);
    InsertKeeps(s1.heap, s.timers, Key(s1.heap, a));
  }

  lemma CancelIsQuiet(s: State, s0: State, a: Addr)
    requires Ownership(s) && a in s.heap && s0 == s.(queue := s0.queue)
    requires forall b: Addr :: AddInLoop(b) in s0.queue ==> InQueue(s, b)
    ensures var s' := CancelTimerInLoop(s0, a);
            forall b: Addr :: b in s'.heap ==> QuietFor(s, s', b)
  {
    ErasedIsSorted(s.timers, Key(s.heap, a));
  }

  lemma TakeExpiredIsQuiet(s: State, now: int)
    requires Ownership(s)
    ensures var s' := TakeExpired(s, now);
            forall b: Addr :: b in s'.heap ==> QuietFor(s, s', b)
  {
    SentinelCutsAtNow(s.timers, now);
  }

  lemma ResetNextIsQuiet(s: State)
    requires Ownership(s) && Enabled(s, ResetNext)
    ensures var s' := Apply(s, ResetNext);
            forall b: Addr :: b in s'.heap ==> QuietFor(s, s', b)
  {
    HeadIsOwnedByBatch(s);
    var a: Addr := s.phase.batch[s.phase.k].addr;
    var s' := Apply(s, ResetNext);
    if s.heap[a].interval > 0 {
      SyncSurvivesUpdate(s.heap, s.timers, a, s'.heap[a]);
      InsertKeeps(s'.heap, s.timers, Key(s'.heap, a));
    }
  }

  lemma RunQueuedIsQuiet(s: State)
    requires Ownership(s) && Enabled(s, RunQueued)
    ensures var s' := Apply(s, RunQueued);
            forall b: Addr :: b in s'.heap ==> QuietFor(s, s', b)
  {
    assert s.queue == [s.queue[0]] + s.queue[1..];
    var s0 := s.(queue := s.queue[1..]);
    match s.queue[0]
    case AddInLoop(a) =>
      assert InQueue(s, a);
      AddIsQuiet(s, s0, a);
    case CancelInLoop(id) => CancelIsQuiet(s, s0, id.addr);
  }

  lemma IsQuiet(s: State, step: Step)
    requires Ownership(s) && ClockOk(s) && Enabled(s, step) && !step.FireNext?
    ensures var s' := Apply(s, step);
            forall b: Addr :: b in s'.heap ==> QuietFor(s, s', b)
  {
    match step
    case RunQueued => RunQueuedIsQuiet(s);
    case OwnAdd(a, when, every) => AllocateIsQuiet(s, a, when, every);
    case OwnCancel(id) => CancelIsQuiet(s, s, id.addr);
    case ReadTimerfd => TakeExpiredIsQuiet(s, s.phase.now);
    case ResetNext => ResetNextIsQuiet(s);
    case _ =>
  }

  lemma FiredStep(s: State, step: Step)
    requires Enabled(s, step) && !step.FireNext?
    ensures Apply(s, step).fired == s.fired
    ensures s.clock <= Apply(s, step).clock && s.lastNumber <= Apply(s, step).lastNumber
  {
  }

  lemma QuietSpacing(s: State, step: Step)
    requires Ownership(s) && ClockOk(s) && Spaced(s) && Enabled(s, step) && !step.FireNext?
    ensures Spaced(Apply(s, step))
  {
    IsQuiet(s, step);
    FiredStep(s, step);
    QuietKeepsSpaced(s, Apply(s, step));
  }

  /** The timer that fires was due to fire; afterwards it is not, and nobody else has become so. */
  lemma FiringTimer(s: State)
    requires Ownership(s) && ClockOk(s) && BatchDue(s) && Enabled(s, FireNext)
    ensures var e, s' := s.phase.batch[s.phase.k], Apply(s, FireNext);
            && InSync(s.heap, e) && e.stamp <= s.clock
            && WillFire(s, e.addr) && !WillFire(s', e.addr) && !InQueue(s, e.addr)
            && (forall b: Addr :: b in s'.heap && WillFire(s', b) ==> WillFire(s, b))
            && s' == s.(fired := s'.fired, phase := s'.phase)
            && s'.fired == s.fired + [Fired(s.heap[e.addr].number, s.heap[e.addr].interval, s.clock)]
  {
    var e := s.phase.batch[s.phase.k];
    assert e in s.phase.batch && InSync(s.heap, e);
    assert InBatch(s, e.addr) && OneOwner(s, e.addr);
    NextUnfired(s.phase.batch, s.phase.k);
  }

  lemma NextUnfired(batch: seq<Entry>, k: nat)
    requires Sorted(batch) && k < |batch|
    ensures batch[k..] == [batch[k]] + batch[k + 1..] && batch[k] !in batch[k + 1..]
  {
    var rest := batch[k + 1..];
    assert forall j :: 0 <= j < |rest| ==> rest[j] == batch[k + 1 + j];
  }

  lemma FireKeepsStamps(s: State, s': State, a: Addr)
    requires Numbered(s) && Spaced(s) && a in s.heap && !InQueue(s, a)
    requires s' == s.(fired := s'.fired, phase := s'.phase)
    requires s'.fired == s.fired + [Fired(s.heap[a].number, s.heap[a].interval, s.clock)]
    requires !WillFire(s', a) && forall b: Addr :: b in s'.heap && WillFire(s', b) ==> WillFire(s, b)
    ensures NotBeforeStamp(s') && History(s')
  {
    forall b: Addr, i | b in s'.heap && 0 <= i < |s'.fired| && s'.fired[i].number == s'.heap[b].number
      ensures s'.fired[i].interval == s'.heap[b].interval && !InQueue(s', b)
      ensures WillFire(s', b) ==> s'.heap[b].interval > 0 && s'.fired[i].at + s'.heap[b].interval <= s'.heap[b].stamp
    {
      if i == |s.fired| {
        assert b == a;
      } else {
        assert s.fired[i].number == s.heap[b].number;
        assert InQueue(s', b) ==> InQueue(s, b);
      }
    }
  }

  /** A firing: its timer's stamp has been reached, and it leaves the places from which it may fire. */
  lemma FireSpacing(s: State)
    requires Ownership(s) && Numbered(s) && ClockOk(s) && BatchDue(s) && Spaced(s) && Enabled(s, FireNext)
    ensures Spaced(Apply(s, FireNext))
  {
    FiringTimer(s);
    var a: Addr := s.phase.batch[s.phase.k].addr;
    FireKeepsStamps(s, Apply(s, FireNext), a);
    FiringIsApart(s.fired, s.heap[a], s.clock);
  }

  lemma FiringIsApart(fired: seq<Fired>, t: Timer, at: int)
    requires Apart(fired) && t.stamp <= at
    requires forall i :: 0 <= i < |fired| && fired[i].number == t.number ==>
               fired[i].interval == t.interval > 0 && fired[i].at + t.interval <= t.stamp
    ensures Apart(fired + [Fired(t.number, t.interval, at)])
  {
  }

  // ---------------------------------------------------------------- over every run

  lemma HastyStep(s: State, step: Step)
    requires NeverHasty(s) && Enabled(s, step)
    ensures NeverHasty(Apply(s, step))
  {
  }

  lemma InvStep(s: State, step: Step)
    requires Inv(s) && Enabled(s, step)
    ensures Inv(Apply(s, step))
  {
    OwnershipStep(s, step);
    ClockStep(s, step);
    NumberedStep(s, step);
    ArmedStep(s, step);
    HastyStep(s, step);
    AddsBeforeCancelsStep(s, step);
    if step.FireNext? {
      FireSpacing(s);
    } else {
      QuietSpacing(s, step);
    }
  }

  lemma {:induction false} InvAlways(s: State, steps: seq<Step>)
    requires Inv(s) && ValidRun(s, steps)
    ensures Inv(After(s, steps))
    decreases |steps|
  {
    if steps != [] {
      var n := |steps| - 1;
      InvAlways(s, steps[..n]);
      InvStep(After(s, steps[..n]), steps[n]);
    }
  }

  lemma StartInv(clock: int)
    requires clock > 0
    ensures Inv(Start(clock))
  {
  }

  /** The run leads from a start at `clock` to `s`. */
  ghost predicate Reaches(clock: int, steps: seq<Step>, s: State) {
    clock > 0 && ValidRun(Start(clock), steps) && After(Start(clock), steps) == s
  }

  lemma ReachedInv(clock: int, steps: seq<Step>, s: State)
    requires Reaches(clock, steps, s)
    ensures Inv(s)
  {
    StartInv(clock);
    InvAlways(Start(clock), steps);
  }

  /** Whenever `handleRead` is not past its read and a timer is set, the kernel timer holds an
      expiry no later than the earliest stamp, or than 100us after it was last set; it is never
      set for less than those 100us. */
  lemma TimerStaysArmed(clock: int, steps: seq<Step>, s: State)
    requires Reaches(clock, steps, s)
    requires s.timers != [] && (s.phase.Idle? || s.phase.Reading?)
    ensures s.deadline.Some? && s.lastArm + 100 <= s.deadline.value <= Max(s.timers[0].stamp, s.lastArm + 100)
    ensures forall e :: e in s.timers ==> s.timers[0].stamp <= e.stamp
  {
    ReachedInv(clock, steps, s);
    FirstIsEarliest(s.timers);
  }

  lemma FirstIsEarliest(es: seq<Entry>)
    requires Sorted(es) && es != []
    ensures forall e :: e in es ==> es[0].stamp <= e.stamp
  {
    forall e | e in es ensures es[0].stamp <= e.stamp {
      var i :| 0 <= i < |es| && es[i] == e;
      assert i > 0 ==> Less(es[0], es[i]);
    }
  }

  /** No timer is used or freed twice, no insertion fails, every allocated timer has exactly one
      owner, and every key in the set is its timer's stamp. */
  lemma TimersHaveOneOwner(clock: int, steps: seq<Step>, s: State)
    requires Reaches(clock, steps, s)
    ensures !s.fault
    ensures forall a: Addr :: a in s.heap ==> OneOwner(s, a)
    ensures forall e :: e in s.timers || e in Held(s.phase) ==> InSync(s.heap, e)
  {
    ReachedInv(clock, steps, s);
  }

  /** Two firings of one timer are at least its interval apart, and a one-shot fires once. */
  lemma FiringsAreSpaced(clock: int, steps: seq<Step>, s: State, i: nat, j: nat)
    requires Reaches(clock, steps, s)
    requires i < j < |s.fired| && s.fired[i].number == s.fired[j].number
    ensures s.fired[i].interval > 0 && s.fired[i].at + s.fired[i].interval <= s.fired[j].at
  {
    ReachedInv(clock, steps, s);
  }

  // ---------------------------------------------------------------- one expiry batch

  /** The first `k` timers of the batch have fired, in batch order, and the batch is as it was. */
  ghost predicate FiredSoFar(s0: State, s: State, now: int, batch: seq<Entry>) {
    && s.phase.Firing? && s.phase.now == now && s.phase.batch == batch && s.phase.k <= |batch|
    && |s.fired| == |s0.fired| + s.phase.k && s0.fired <= s.fired
    && (forall i :: 0 <= i < |batch| ==>
          batch[i].addr in s0.heap && batch[i].addr in s.heap && s.heap[batch[i].addr].number == s0.heap[batch[i].addr].number)
    && (forall i :: 0 <= i < s.phase.k ==> s.fired[|s0.fired| + i].number == s0.heap[batch[i].addr].number)
  }

  /** Until `reset` starts, a step either fires the next timer of the batch or fires nothing. */
  lemma BatchPhase(s: State, step: Step)
    requires s.phase.Firing? && Enabled(s, step) && !step.StartReset?
    ensures Apply(s, step).phase ==
              Firing(s.phase.now, s.phase.batch, s.phase.k + if step.FireNext? then 1 else 0)
  {
  }

  /** The timers of the batch stay allocated and keep their numbers. */
  lemma BatchTimersStay(s: State, step: Step)
    requires Inv(s) && s.phase.Firing? && Enabled(s, step) && !step.StartReset?
    ensures forall e :: e in s.phase.batch ==>
              InSync(s.heap, e) && InSync(Apply(s, step).heap, e)
              && Apply(s, step).heap[e.addr].number == s.heap[e.addr].number
  {
    BatchPhase(s, step);
    InvStep(s, step);
    HeapStep(s, step);
    assert Held(Apply(s, step).phase) == Held(s.phase) == s.phase.batch;
  }

  lemma BatchStep(s0: State, s: State, now: int, batch: seq<Entry>, step: Step)
    requires Inv(s) && FiredSoFar(s0, s, now, batch) && Enabled(s, step) && !step.StartReset?
    ensures FiredSoFar(s0, Apply(s, step), now, batch)
  {
    BatchPhase(s, step);
    BatchTimersStay(s, step);
    assert forall i :: 0 <= i < |batch| ==> batch[i] in batch;
    if step.FireNext? {
      FiringTimer(s);
    } else {
      FiredStep(s, step);
    }
  }

  lemma {:induction false} BatchRun(s0: State, now: int, batch: seq<Entry>, steps: seq<Step>)
    requires Inv(s0) && s0.phase == Firing(now, batch, 0) && ValidRun(s0, steps) && StartReset !in steps
    ensures FiredSoFar(s0, After(s0, steps), now, batch)
    decreases |steps|
  {
    if steps == [] {
      forall i | 0 <= i < |batch| ensures batch[i].addr in s0.heap {
        assert batch[i] in Held(s0.phase);
      }
    } else {
      var n := |steps| - 1;
      assert steps[n] in steps;
      BatchRun(s0, now, batch, steps[..n]);
      InvAlways(s0, steps[..n]);
      BatchStep(s0, After(s0, steps[..n]), now, batch, steps[n]);
    }
  }

  /** The firings added to `before` are those of `batch`, one each, in order. */
  ghost predicate FiredAll(heap: map<Addr, Timer>, before: seq<Fired>, batch: seq<Entry>, after: seq<Fired>) {
    && |after| == |before| + |batch| && before <= after
    && (forall i :: 0 <= i < |batch| ==>
          batch[i].addr < UINTPTR_MAX && batch[i].addr in heap && after[|before| + i].number == heap[batch[i].addr].number)
  }

  /** From the first callback to `reset` the whole batch fires, once and in order. */
  lemma BatchFiresCompletely(s: State, steps: seq<Step>)
    requires Inv(s) && s.phase.Firing? && s.phase.k == 0
    requires ValidRun(s, steps) && StartReset !in steps && Enabled(After(s, steps), StartReset)
    ensures FiredAll(s.heap, s.fired, s.phase.batch, After(s, steps).fired)
  {
    BatchRun(s, s.phase.now, s.phase.batch, steps);
    assert forall i :: 0 <= i < |s.phase.batch| ==> s.phase.batch[i] in Held(s.phase);
  }

  lemma ReadTakesTheDue(s: State)
    requires Inv(s) && s.phase.Reading?
    ensures var s1, due := Apply(s, ReadTimerfd), Expired(s.timers, s.phase.now);
            && Inv(s1) && s1.phase == Firing(s.phase.now, due, 0) && s1.heap == s.heap && s1.fired == s.fired
            && Sorted(due) && (forall e :: e in due <==> e in s.timers && e.stamp <= s.phase.now)
  {
    InvStep(s, ReadTimerfd);
    SentinelCutsAtNow(s.timers, s.phase.now);
  }

  /** A `handleRead` at `now`, up to its `reset`: whatever the callbacks add or cancel, it fires
      exactly the timers that were set for `now` or earlier, each once, in stamp order. */
  lemma HandleReadFiresExactlyTheDue(s0: State, s1: State, steps: seq<Step>)
    requires Inv(s0) && s0.phase.Reading? && s1 == Apply(s0, ReadTimerfd)
    requires ValidRun(s1, steps) && StartReset !in steps && Enabled(After(s1, steps), StartReset)
    ensures var due := Expired(s0.timers, s0.phase.now);
            && (forall e :: e in due <==> e in s0.timers && e.stamp <= s0.phase.now)
            && Sorted(due)
            && FiredAll(s0.heap, s0.fired, due, After(s1, steps).fired)
  {
    ReadTakesTheDue(s0);
    BatchFiresCompletely(s1, steps);
  }

  /** `reset` puts a repeating timer back for one interval from now and frees a one-shot for good. */
  lemma ResetRestartsOrFrees(s: State)
    requires Inv(s) && Enabled(s, ResetNext)
    ensures var s', e := Apply(s, ResetNext), s.phase.batch[s.phase.k];
            && InSync(s.heap, e)
            && (var t := s.heap[e.addr];
                if t.interval > 0
                then e.addr in s'.heap && InTimers(s', e.addr)
                     && s'.heap[e.addr] == Timer(s.clock + t.interval, t.interval, t.number)
                else Gone(s', t.number))
  {
    HeadIsOwnedByBatch(s);
    ResetNextKeepsOwnership(s);
    var s', a: Addr := Apply(s, ResetNext), s.phase.batch[s.phase.k].addr;
    if s.heap[a].interval > 0 {
      InsertedIsSorted(s.timers, Key(s'.heap, a));
    }
  }

  /** What `reset`, begun at `clock`, has made of timer `t` at `a`: a repeating one waits in the set
      for one interval from its turn, a one-shot is freed for good. */
  ghost predicate ResetDone(t: Timer, a: Addr, clock: int, s: State) {
    if t.interval > 0
    then
      && a in s.heap && InTimers(s, a)
      && s.heap[a].number == t.number && s.heap[a].interval == t.interval
      && clock + t.interval <= s.heap[a].stamp <= s.clock + t.interval
    else Gone(s, t.number)
  }

  /** The first `k` timers of the batch are reset, the others as they were in `heap`. */
  ghost predicate ResetSoFar(heap: map<Addr, Timer>, clock: int, s: State, batch: seq<Entry>, k: nat) {
    clock <= s.clock && forall i :: 0 <= i < |batch| ==>
      && batch[i].addr < UINTPTR_MAX && batch[i].addr in heap
      && if i < k then ResetDone(heap[batch[i].addr], batch[i].addr, clock, s)
         else batch[i].addr in s.heap && s.heap[batch[i].addr] == heap[batch[i].addr]
  }

  lemma ResetDoneStays(s: State, step: Step, t: Timer, a: Addr, clock: int)
    requires Inv(s) && s.phase.Resetting? && Enabled(s, step) && ResetDone(t, a, clock, s)
    ensures ResetDone(t, a, clock, Apply(s, step))
  {
    if t.interval == 0 {
      GoneStep(s, step, t.number);
    } else if step.ResetNext? {
      HeadIsOwnedByBatch(s);
      assert Key(s.heap, a) in s.timers;
      var e := s.phase.batch[s.phase.k];
      if s.heap[e.addr].interval > 0 {
        InsertedIsSorted(s.timers, Entry(s.clock + s.heap[e.addr].interval, e.addr));
      }
    }
  }

  /** Timers whose turn has not come are left alone. */
  lemma UnresetStays(s: State, step: Step, i: nat)
    requires Inv(s) && s.phase.Resetting? && Enabled(s, step) && s.phase.k <= i < |s.phase.batch|
    ensures InSync(s.heap, s.phase.batch[i])
    ensures !step.ResetNext? || i > s.phase.k ==>
              var a := s.phase.batch[i].addr; a in Apply(s, step).heap && Apply(s, step).heap[a] == s.heap[a]
  {
    var held := Held(s.phase);
    assert s.phase.batch[i] == held[i - s.phase.k];
    if step.ResetNext? {
      HeadIsOwnedByBatch(s);
      if i > s.phase.k {
        assert held[1..][i - s.phase.k - 1] == s.phase.batch[i];
      }
    }
  }

  lemma ResetPhase(s: State, step: Step)
    requires s.phase.Resetting? && Enabled(s, step) && !step.FinishReset?
    ensures Apply(s, step).phase ==
              Resetting(s.phase.now, s.phase.batch, s.phase.k + if step.ResetNext? then 1 else 0)
  {
  }

  lemma ResetOneTurn(heap: map<Addr, Timer>, clock: int, s: State, step: Step)
    requires Inv(s) && s.phase.Resetting? && Enabled(s, step)
    requires ResetSoFar(heap, clock, s, s.phase.batch, s.phase.k)
    ensures ResetSoFar(heap, clock, Apply(s, step), s.phase.batch, s.phase.k + if step.ResetNext? then 1 else 0)
  {
    var s', batch := Apply(s, step), s.phase.batch;
    ClockStep(s, step);
    forall i | 0 <= i < |batch|
      ensures if i < s.phase.k + (if step.ResetNext? then 1 else 0)
              then ResetDone(heap[batch[i].addr], batch[i].addr, clock, s')
              else batch[i].addr in s'.heap && s'.heap[batch[i].addr] == heap[batch[i].addr]
    {
      if i < s.phase.k {
        ResetDoneStays(s, step, heap[batch[i].addr], batch[i].addr, clock);
      } else {
        UnresetStays(s, step, i);
        if step.ResetNext? && i == s.phase.k {
          ResetRestartsOrFrees(s);
        }
      }
    }
  }

  lemma {:induction false} ResetRun(s: State, steps: seq<Step>)
    requires Inv(s) && s.phase.Resetting? && s.phase.k == 0 && ValidRun(s, steps) && FinishReset !in steps
    ensures var s' := After(s, steps);
            && s'.phase.Resetting? && s'.phase.batch == s.phase.batch
            && ResetSoFar(s.heap, s.clock, s', s.phase.batch, s'.phase.k)
    decreases |steps|
  {
    if steps == [] {
      assert forall i :: 0 <= i < |s.phase.batch| ==> s.phase.batch[i] in Held(s.phase);
    } else {
      var n := |steps| - 1;
      assert steps[n] in steps;
      ResetRun(s, steps[..n]);
      InvAlways(s, steps[..n]);
      ResetPhase(After(s, steps[..n]), steps[n]);
      ResetOneTurn(s.heap, s.clock, After(s, steps[..n]), steps[n]);
    }
  }

  /** `reset` as a whole, whatever other threads queue meanwhile: every timer of the batch is back in
      the set or freed. */
  lemma ResetHandlesTheBatch(s: State, steps: seq<Step>)
    requires Inv(s) && Enabled(s, StartReset) && ValidRun(Apply(s, StartReset), steps)
    requires FinishReset !in steps && Enabled(After(Apply(s, StartReset), steps), FinishReset)
    ensures ResetSoFar(s.heap, s.clock, Apply(After(Apply(s, StartReset), steps), FinishReset),
                       s.phase.batch, |s.phase.batch|)
  {
    var s1 := Apply(s, StartReset);
    InvStep(s, StartReset);
    ResetRun(s1, steps);
    InvAlways(s1, steps);
    ResetOneTurn(s1.heap, s1.clock, After(s1, steps), FinishReset);
  }

  /** An addition on the loop thread is in the set, under its stamp, when `addTimer` returns. */
  lemma AddedIsInTheSet(s: State, a: Addr, when: int, every: nat)
    requires Inv(s) && Enabled(s, OwnAdd(a, when, every))
    ensures var s' := Apply(s, OwnAdd(a, when, every));
            && a in s'.heap && s'.heap[a] == Timer(when, every, s.lastNumber + 1)
            && Entry(when, a) in s'.timers
            && (forall e :: e in s.timers ==> e in s'.timers)
  {
    InsertedIsSorted(s.timers, Entry(when, a));
  }

  // ---------------------------------------------------------------- what each step changes, and all it changes

  /** Nothing differs but the set, the timers and the kernel timer. */
  predicate OnlyTimersChange(s: State, s': State) {
    s' == s.(heap := s'.heap, timers := s'.timers, deadline := s'.deadline, lastArm := s'.lastArm,
             lastNumber := s'.lastNumber, queue := s'.queue)
  }

  /** The kernel timer is set for `stamp`, but not before 100us have passed. */
  predicate ArmedNow(s: State, s': State, stamp: int) {
    s'.deadline == Some(Max(stamp, s.clock + 100)) && s'.lastArm == s.clock
  }

  predicate ArmingKept(s: State, s': State) {
    s'.deadline == s.deadline && s'.lastArm == s.lastArm
  }

  /** The entry joins the set, and the kernel timer is set again exactly if it is the new earliest. */
  ghost predicate EntryAdded(s: State, s': State, e: Entry) {
    && Sorted(s'.timers) && (forall x :: x in s'.timers <==> x in s.timers || x == e)
    && if s.timers == [] || e.stamp < s.timers[0].stamp then ArmedNow(s, s', e.stamp) else ArmingKept(s, s')
  }

  lemma OwnAddEffect(s: State, a: Addr, when: int, every: nat)
    requires Inv(s) && Enabled(s, OwnAdd(a, when, every))
    ensures var s' := Apply(s, OwnAdd(a, when, every));
            && OnlyTimersChange(s, s') && s'.queue == s.queue && s'.lastNumber == s.lastNumber + 1
            && s'.heap == s.heap[a := Timer(when, every, s.lastNumber + 1)]
            && EntryAdded(s, s', Entry(when, a))
  {
    assert Entry(when, a) in s.timers ==> InSync(s.heap, Entry(when, a));
    AddTimerInLoopEffect(Allocate(s, a, when, every), a);
  }

  lemma AddTimerInLoopEffect(s: State, a: Addr)
    requires a in s.heap && Sorted(s.timers) && Key(s.heap, a) !in s.timers
    ensures var s' := AddTimerInLoop(s, a);
            && s' == s.(timers := s'.timers, deadline := s'.deadline, lastArm := s'.lastArm)
            && EntryAdded(s, s', Key(s.heap, a))
  {
    InsertedIsSorted(s.timers, Key(s.heap, a));
    LowerBoundSplits(s.timers, Key(s.heap, a));
  }

  lemma QueueingEffect(s: State, a: Addr, when: int, every: nat, id: TimerId)
    ensures Enabled(s, QueueAdd(a, when, every)) ==>
              Apply(s, QueueAdd(a, when, every)) ==
                s.(heap := s.heap[a := Timer(when, every, s.lastNumber + 1)], lastNumber := s.lastNumber + 1,
                   queue := s.queue + [AddInLoop(a)])
    ensures Enabled(s, QueueCancel(id)) ==>
              Apply(s, QueueCancel(id)) == s.(queue := s.queue + [CancelInLoop(id)])
  {
  }

  /** A queued addition adds its timer under the stamp it was made with. */
  lemma QueuedAddEffect(s: State)
    requires Inv(s) && Enabled(s, RunQueued) && s.queue[0].AddInLoop?
    ensures var s', a := Apply(s, RunQueued), s.queue[0].addr;
            && OnlyTimersChange(s, s') && s'.queue == s.queue[1..] && s'.lastNumber == s.lastNumber
            && a in s.heap && s'.heap == s.heap
            && EntryAdded(s, s', Entry(s.heap[a].stamp, a))
  {
    var a := s.queue[0].addr;
    assert InQueue(s, a) && OneOwner(s, a);
    AddTimerInLoopEffect(s.(queue := s.queue[1..]), a);
  }

  /** A cancel takes its own timer out of set and heap, and nothing else. */
  lemma CancelEffect(s: State, step: Step, id: TimerId)
    requires Inv(s) && Enabled(s, step) && RunsCancel(s, step, id)
    requires step.OwnCancel? ==> InTimers(s, id.addr)
    ensures var s' := Apply(s, step);
            && OnlyTimersChange(s, s') && s'.lastNumber == s.lastNumber && ArmingKept(s, s')
            && s'.queue == s.queue[if step.RunQueued? then 1 else 0..]
            && s'.heap == s.heap - {id.addr}
            && Sorted(s'.timers)
            && (forall x :: x in s'.timers <==> x in s.timers && x != Entry(s.heap[id.addr].stamp, id.addr))
  {
    if step.RunQueued? {
      QueuedCancelFindsItsTimer(s);
    }
    LowerBoundSplits(s.timers, Key(s.heap, id.addr));
    ErasedIsSorted(s.timers, Key(s.heap, id.addr));
  }

  /** The read takes the due entries from the set, and the expiry from the kernel timer if it has come. */
  lemma ReadEffect(s: State)
    requires Inv(s) && s.phase.Reading?
    ensures var s' := Apply(s, ReadTimerfd);
            && s' == s.(timers := s'.timers, deadline := s'.deadline, phase := s'.phase)
            && (forall x :: x in s'.timers <==> x in s.timers && x.stamp > s.phase.now)
            && s'.deadline == if s.deadline.Some? && s.deadline.value > s.clock then s.deadline else None
  {
    SentinelCutsAtNow(s.timers, s.phase.now);
  }

  /** A firing is recorded with its timer's number and interval and the present time. */
  lemma FireEffect(s: State)
    requires Inv(s) && Enabled(s, FireNext)
    ensures var s', e := Apply(s, FireNext), s.phase.batch[s.phase.k];
            && InSync(s.heap, e)
            && s' == s.(fired := s.fired + [Fired(s.heap[e.addr].number, s.heap[e.addr].interval, s.clock)],
                        phase := Firing(s.phase.now, s.phase.batch, s.phase.k + 1))
  {
    FiringTimer(s);
  }

  /** One turn of `reset` touches only its own timer. */
  ghost predicate ResetOnly(s: State, s': State, e: Entry)
    requires e.addr < UINTPTR_MAX && e.addr in s.heap
  {
    var t := s.heap[e.addr];
    if t.interval > 0
    then
      && s'.heap == s.heap[e.addr := Timer(s.clock + t.interval, t.interval, t.number)]
      && (forall x :: x in s'.timers <==> x in s.timers || x == Entry(s.clock + t.interval, e.addr))
    else s'.heap == s.heap - {e.addr} && s'.timers == s.timers
  }

  lemma ResetEffect(s: State)
    requires Inv(s) && Enabled(s, ResetNext)
    ensures var s', e := Apply(s, ResetNext), s.phase.batch[s.phase.k];
            && InSync(s.heap, e)
            && s' == s.(heap := s'.heap, timers := s'.timers,
                        phase := Resetting(s.phase.now, s.phase.batch, s.phase.k + 1))
            && ResetOnly(s, s', e)
  {
    HeadIsOwnedByBatch(s);
    var e := s.phase.batch[s.phase.k];
    ResetNextKeepsOwnership(s);
    RestartedEntry(s, e);
    ResetFrame(s);
  }

  lemma RestartedEntry(s: State, e: Entry)
    requires Sorted(s.timers) && InSync(s.heap, e)
    ensures ResetOnly(s, ResetTimer(s, e), e)
  {
    InsertedIsSorted(s.timers, Entry(s.clock + s.heap[e.addr].interval, e.addr));
  }

  lemma ResetFrame(s: State)
    requires Enabled(s, ResetNext) && Apply(s, ResetNext).fault == s.fault
    ensures var s' := Apply(s, ResetNext);
            && s' == s.(heap := s'.heap, timers := s'.timers,
                        phase := Resetting(s.phase.now, s.phase.batch, s.phase.k + 1))
            && s' == ResetTimer(s, s.phase.batch[s.phase.k]).(phase := s'.phase)
  {
  }

  /** The end of `reset` sets the kernel timer for the earliest stamp, if there is one and it is `valid()`. */
  lemma RearmEffect(s: State)
    requires Inv(s) && Enabled(s, FinishReset)
    ensures var s' := Apply(s, FinishReset);
            && s' == s.(deadline := s'.deadline, lastArm := s'.lastArm, phase := Idle)
            && if s.timers != [] && s.timers[0].stamp > 0 then ArmedNow(s, s', s.timers[0].stamp)
               else ArmingKept(s, s')
  {
    if s.timers != [] {
      assert InSync(s.heap, s.timers[0]);
    }
  }

  /** Whatever happens, a timer keeps the stamp, the interval and the number it was made with until its
      own turn in `reset`. */
  lemma StampsChangeOnlyInReset(s: State, step: Step, a: Addr)
    requires Inv(s) && Enabled(s, step) && a in s.heap && a in Apply(s, step).heap
    ensures Apply(s, step).heap[a] == s.heap[a] || (step.ResetNext? && s.phase.batch[s.phase.k].addr == a)
  {
    if step.ResetNext? {
      HeadIsOwnedByBatch(s);
    }
  }

  /** Over a run without such a turn, a timer that stays allocated keeps its stamp. */
  lemma {:induction false} StampKeptOverRun(s: State, steps: seq<Step>, a: Addr)
    requires Inv(s) && ValidRun(s, steps) && ResetNext !in steps && a in s.heap
    requires a in After(s, steps).heap && After(s, steps).heap[a].number == s.heap[a].number
    ensures After(s, steps).heap[a] == s.heap[a]
    decreases |steps|
  {
    if steps != [] {
      var n := |steps| - 1;
      var mid := After(s, steps[..n]);
      InvAlways(s, steps[..n]);
      NumberStays(s, steps[..n], a);
      assert steps[n] in steps;
      if a in mid.heap && mid.heap[a].number == s.heap[a].number {
        StampKeptOverRun(s, steps[..n], a);
        StampsChangeOnlyInReset(mid, steps[n], a);
      } else {
        GoneStep(mid, steps[n], s.heap[a].number);
      }
    }
  }

  /** A timer is where it was, or gone for good. */
  lemma {:induction false} NumberStays(s: State, steps: seq<Step>, a: Addr)
    requires Inv(s) && ValidRun(s, steps) && a in s.heap
    ensures var s' := After(s, steps);
            (a in s'.heap && s'.heap[a].number == s.heap[a].number) || Gone(s', s.heap[a].number)
    decreases |steps|
  {
    if steps != [] {
      var n := |steps| - 1;
      NumberStays(s, steps[..n], a);
      InvAlways(s, steps[..n]);
      NumberStep(After(s, steps[..n]), steps[n], a, s.heap[a].number);
    }
  }

  lemma NumberStep(s: State, step: Step, a: Addr, number: nat)
    requires Inv(s) && Enabled(s, step)
    requires (a in s.heap && s.heap[a].number == number) || Gone(s, number)
    ensures var s' := Apply(s, step); (a in s'.heap && s'.heap[a].number == number) || Gone(s', number)
  {
    HeapStep(s, step);
  }

  // ---------------------------------------------------------------- cancel

  /** A cancel frees its timer exactly when it is in the set; aimed at a timer of the running batch
      or at one whose addition is still queued, it changes nothing. */
  lemma CancelEffectIff(s: State, id: TimerId)
    requires Inv(s) && Enabled(s, OwnCancel(id))
    ensures id.addr !in Apply(s, OwnCancel(id)).heap <==> InTimers(s, id.addr)
    ensures InBatch(s, id.addr) || InQueue(s, id.addr) <==> !InTimers(s, id.addr)
    ensures !InTimers(s, id.addr) ==> Apply(s, OwnCancel(id)) == s
  {
    CancelKeepsOwnership(s, id.addr);
    LowerBoundSplits(s.timers, Key(s.heap, id.addr));
    assert OneOwner(s, id.addr);
  }

  /** A run goes on with one more step. */
  lemma Next(clock: int, run: seq<Step>, s: State, step: Step) returns (run': seq<Step>, s': State)
    requires Reaches(clock, run, s) && Enabled(s, step)
    ensures run' == run + [step] && s' == Apply(s, step) && Reaches(clock, run', s')
  {
    run', s' := run + [step], Apply(s, step);
    RunSnoc(Start(clock), run, step);
  }

  /** `handleRead` up to the callback of the one timer there is, which is due. */
  lemma OnlyTimerFires(clock: int, run: seq<Step>, s: State, a: Addr) returns (run': seq<Step>, s': State)
    requires Reaches(clock, run, s) && s.phase.Idle? && a in s.heap
    requires s.timers == [Entry(s.clock, a)]
    ensures run <= run' && Reaches(clock, run', s')
    ensures s'.phase == Firing(s.clock, [Entry(s.clock, a)], 1) && s'.timers == []
    ensures s'.fired == s.fired + [Fired(s.heap[a].number, s.heap[a].interval, s.clock)]
    ensures s'.heap == s.heap && s'.clock == s.clock && s'.lastNumber == s.lastNumber
  {
    SentinelCutsAtNow(s.timers, s.clock);
    run', s' := Next(clock, run, s, StartRead);
    run', s' := Next(clock, run', s', ReadTimerfd);
    assert s'.phase == Firing(s.clock, [Entry(s.clock, a)], 0) && s'.timers == [];
    run', s' := Next(clock, run', s', FireNext);
  }

  /** `reset` of the one timer there is, which repeats, and the wait for its next stamp. */
  lemma OnlyTimerIsRestarted(clock: int, run: seq<Step>, s: State, a: Addr) returns (run': seq<Step>, s': State)
    requires Reaches(clock, run, s) && s.phase == Firing(s.clock, [Entry(s.clock, a)], 1) && s.timers == []
    requires a in s.heap && s.heap[a].interval > 0
    ensures run <= run' && Reaches(clock, run', s')
    ensures s'.phase.Idle? && s'.timers == [Entry(s'.clock, a)] && s'.clock == s.clock + s.heap[a].interval
    ensures s'.fired == s.fired && a in s'.heap && s'.heap[a].number == s.heap[a].number
  {
    run', s' := Next(clock, run, s, StartReset);
    run', s' := Next(clock, run', s', ResetNext);
    assert s'.timers == [Entry(s.clock + s.heap[a].interval, a)];
    run', s' := Next(clock, run', s', FinishReset);
    run', s' := Next(clock, run', s', Tick(s.heap[a].interval));
  }

  /** A callback that cancels its own repeating timer: the cancel changes nothing, and the timer
      fires again. */
  lemma CancelledInBatchFiresAgain(clock: int, a: Addr, every: nat)
    requires clock > 0 && every > 0
    ensures exists before, s, run, s' ::
              var id := TimerId(a, 1);
              && Reaches(clock, before, s) && s.phase.Firing? && Enabled(s, OwnCancel(id))
              && Apply(s, OwnCancel(id)) == s
              && before + [OwnCancel(id)] <= run && Reaches(clock, run, s')
              && |s.fired| < |s'.fired| && s'.fired[|s.fired|].number == id.number
  {
    var before, s := Next(clock, [], Start(clock), OwnAdd(a, clock, every));
    assert s.timers == [Entry(clock, a)];
    before, s := OnlyTimerFires(clock, before, s, a);
    var id := TimerId(a, 1);
    var run, s' := Next(clock, before, s, OwnCancel(id));
    assert s' == s;
    run, s' := OnlyTimerIsRestarted(clock, run, s', a);
    run, s' := OnlyTimerFires(clock, run, s', a);
    assert Reaches(clock, before, s) && Enabled(s, OwnCancel(id)) && Apply(s, OwnCancel(id)) == s;
  }

  /** A cancel from another thread finds its timer whenever it runs: the addition ran before it. */
  lemma QueuedCancelFindsItsTimer(s: State)
    requires Inv(s) && Enabled(s, RunQueued) && s.queue[0].CancelInLoop?
    ensures InTimers(s, s.queue[0].id.addr)
    ensures s.queue[0].id.addr !in Apply(s, RunQueued).heap
  {
    var a := s.queue[0].id.addr;
    assert OneOwner(s, a);
    assert forall j :: 0 < j < |s.queue| ==> s.queue[j] != AddInLoop(a);
    LowerBoundSplits(s.timers, Key(s.heap, a));
  }

  ghost predicate Gone(s: State, number: nat) {
    number <= s.lastNumber && forall a: Addr :: a in s.heap ==> s.heap[a].number != number
  }

  /** A freed timer never fires again, whatever happens to its address. */
  lemma {:induction false} FreedNeverFires(s: State, steps: seq<Step>, number: nat)
    requires Inv(s) && ValidRun(s, steps) && Gone(s, number)
    ensures Gone(After(s, steps), number)
    ensures s.fired <= After(s, steps).fired
    ensures forall i :: |s.fired| <= i < |After(s, steps).fired| ==> After(s, steps).fired[i].number != number
    decreases |steps|
  {
    if steps != [] {
      var n := |steps| - 1;
      FreedNeverFires(s, steps[..n], number);
      InvAlways(s, steps[..n]);
      GoneStep(After(s, steps[..n]), steps[n], number);
    }
  }

  lemma GoneStep(s: State, step: Step, number: nat)
    requires Inv(s) && Enabled(s, step) && Gone(s, number)
    ensures var s' := Apply(s, step);
            && Gone(s', number) && s.fired <= s'.fired
            && (forall i :: |s.fired| <= i < |s'.fired| ==> s'.fired[i].number != number)
  {
    HeapStep(s, step);
    if step.FireNext? {
      FiringTimer(s);
    } else {
      FiredStep(s, step);
    }
  }

  /** The step runs a cancel of `id`: called on the loop thread, or taken from the queue. */
  predicate RunsCancel(s: State, step: Step, id: TimerId) {
    step == OwnCancel(id) || (step.RunQueued? && s.queue != [] && s.queue[0] == CancelInLoop(id))
  }

  /** A cancel that runs while its timer is in the set, as one from the queue always does, frees it. */
  lemma CancelFrees(s: State, step: Step, id: TimerId)
    requires Inv(s) && Enabled(s, step) && RunsCancel(s, step, id)
    requires step.OwnCancel? ==> InTimers(s, id.addr)
    ensures Gone(Apply(s, step), id.number) && Apply(s, step).fired == s.fired
  {
    HeapStep(s, step);
    FiredStep(s, step);
    if step.OwnCancel? {
      CancelKeepsOwnership(s, id.addr);
    } else {
      QueuedCancelFindsItsTimer(s);
    }
  }

  /** So it never fires again. */
  lemma CancelledNeverFires(s: State, step: Step, id: TimerId, steps: seq<Step>)
    requires Inv(s) && Enabled(s, step) && RunsCancel(s, step, id)
    requires step.OwnCancel? ==> InTimers(s, id.addr)
    requires ValidRun(Apply(s, step), steps)
    ensures var s' := After(Apply(s, step), steps);
            s.fired <= s'.fired && forall i :: |s.fired| <= i < |s'.fired| ==> s'.fired[i].number != id.number
  {
    InvStep(s, step);
    CancelFrees(s, step, id);
    FreedNeverFires(Apply(s, step), steps, id.number);
  }
}
