/** `TimerQueue` as a state machine: timers added and cancelled from the loop thread, from
    callbacks of a running expiry batch and, through the loop's queue, from other threads; one
    kernel timer; and `Timer` objects that are freed by hand.  A step that would use or free a
    dead timer, or insert an entry twice, sets `fault`. */
module TimerProtocol {
  import opened TimerSet
  import opened Util

  /** `_interval` in whole microseconds, 0 for a one-shot; `number` is `_sequence`. */
  datatype Timer = Timer(stamp: int, interval: nat, number: nat)

  /** A pointer with the sequence number its timer was created with. */
  datatype TimerId = TimerId(addr: Addr, number: nat)

  /** What other threads queue in the loop. */
  datatype Functor = AddInLoop(addr: Addr) | CancelInLoop(id: TimerId) {
    function TimerAddr(): Addr {
      match this case AddInLoop(a) => a case CancelInLoop(id) => id.addr
    }
  }

  /** Where the loop thread stands in `handleRead`.  The batch is `expired`; its first `k` timers
      have had their callback, or have been reset. */
  datatype Phase =
    | Idle
    | Reading(now: int)
    | Firing(now: int, batch: seq<Entry>, k: nat)
    | Resetting(now: int, batch: seq<Entry>, k: nat)

  datatype Fired = Fired(number: nat, interval: nat, at: int)

  datatype State = State(
    clock: int,
    lastNumber: nat,
    heap: map<Addr, Timer>,     // the allocated timers
    timers: seq<Entry>,         // _pTimers
    deadline: Option<int>,      // when the timerfd expires, or has expired unread
    lastArm: int,               // history: when timerfd_settime was last called
    queue: seq<Functor>,
    phase: Phase,
    fired: seq<Fired>,          // history: every timeout()
    fault: bool                 // history: a misuse of a timer or of the set
  )

  datatype Step =
    | Tick(d: nat)
    | QueueAdd(a: Addr, when: int, every: nat)    // addTimer off the loop thread
    | QueueCancel(id: TimerId)                    // cancelTimer off the loop thread
    | RunQueued
    | OwnAdd(a: Addr, when: int, every: nat)     // addTimer on the loop thread
    | OwnCancel(id: TimerId)
    | StartRead                                   // handleRead: Timestamp::now()
    | ReadTimerfd                                 // ... readTimerfd and getExpired
    | FireNext
    | StartReset
    | ResetNext
    | FinishReset

  const MIN_DELAY: int := 100

  /** `howMuchTimeFromNow`. */
  function HowMuchTimeFromNow(when: int, now: int): (microseconds: int)
    ensures microseconds >= MIN_DELAY && now + microseconds == Max(when, now + MIN_DELAY)
  {
    if when - now < MIN_DELAY then MIN_DELAY else when - now
  }

  function Start(clock: int): State {
    State(clock, 0, map[], [], None, clock, [], Idle, [], false)
  }

  /** User code runs on the loop thread between `handleRead`s and in the callbacks of a batch. */
  predicate InUserCode(phase: Phase) {
    phase.Idle? || (phase.Firing? && phase.k > 0)
  }

  /** The pointer still leads to the timer it was made for. */
  predicate Alive(s: State, id: TimerId) {
    id.addr in s.heap && s.heap[id.addr].number == id.number
  }

  /** The source asks of its callers that a cancelled timer is alive when the cancel runs; an id
      comes from an earlier addTimer. */
  predicate Enabled(s: State, step: Step) {
    match step
    case Tick(_) => true
    case QueueAdd(a, _, _) => a !in s.heap
    case QueueCancel(id) => id.number <= s.lastNumber
    case RunQueued => s.phase.Idle? && s.queue != [] && (s.queue[0].CancelInLoop? ==> Alive(s, s.queue[0].id))
    case OwnAdd(a, _, _) => InUserCode(s.phase) && a !in s.heap
    case OwnCancel(id) => InUserCode(s.phase) && Alive(s, id)
    case StartRead => s.phase.Idle?
    case ReadTimerfd => s.phase.Reading?
    case FireNext => s.phase.Firing? && s.phase.k < |s.phase.batch|
    case StartReset => s.phase.Firing? && s.phase.k == |s.phase.batch|
    case ResetNext => s.phase.Resetting? && s.phase.k < |s.phase.batch|
    case FinishReset => s.phase.Resetting? && s.phase.k == |s.phase.batch|
  }

  // ---------------------------------------------------------------- the operations

  /** `resetTimerfd`. */
  function Arm(s: State, stamp: int): State {
    s.(deadline := Some(s.clock + HowMuchTimeFromNow(stamp, s.clock)), lastArm := s.clock)
  }

  /** `new Timer`. */
  function Allocate(s: State, a: Addr, when: int, every: nat): State {
    s.(lastNumber := s.lastNumber + 1, heap := s.heap[a := Timer(when, every, s.lastNumber + 1)])
  }

  /** `insert`: the new set, with a fault if the entry was there. */
  function Insert(s: State, e: Entry): State {
    s.(timers := Inserted(s.timers, e), fault := s.fault || Holds(s.timers, e))
  }

  function Key(heap: map<Addr, Timer>, a: Addr): Entry
    requires a in heap
  {
    Entry(heap[a].stamp, a)
  }

  function AddTimerInLoop(s: State, a: Addr): State {
    if a !in s.heap then s.(fault := true)
    else
      var e := Key(s.heap, a);
      var earliestChanged := s.timers == [] || e.stamp < s.timers[0].stamp;
      if earliestChanged then Arm(Insert(s, e), e.stamp) else Insert(s, e)
  }

  function CancelTimerInLoop(s: State, a: Addr): State {
    if a !in s.heap then s.(fault := true)
    else if Holds(s.timers, Key(s.heap, a)) then
      s.(timers := Erased(s.timers, Key(s.heap, a)), heap := s.heap - {a})
    else s
  }

  function RunFunctor(s: State, f: Functor): State {
    match f
    case AddInLoop(a) => AddTimerInLoop(s, a)
    case CancelInLoop(id) => CancelTimerInLoop(s, id.addr)
  }

  /** The read takes an expiry off the timerfd if there is one by now; then `getExpired(now)`. */
  function TakeExpired(s: State, now: int): State {
    s.(deadline := if s.deadline.Some? && s.deadline.value <= s.clock then None else s.deadline,
       timers := Remaining(s.timers, now),
       phase := Firing(now, Expired(s.timers, now), 0))
  }

  function Fire(s: State, e: Entry): State {
    if e.addr >= UINTPTR_MAX || e.addr !in s.heap then s.(fault := true)
    else
      var t := s.heap[e.addr];
      s.(fired := s.fired + [Fired(t.number, t.interval, s.clock)])
  }

  /** One turn of the loop in `reset`: restart and re-insert, or free. */
  function ResetTimer(s: State, e: Entry): State {
    if e.addr >= UINTPTR_MAX || e.addr !in s.heap then s.(fault := true)
    else
      var t := s.heap[e.addr];
      if t.interval > 0 then
        var t' := t.(stamp := s.clock + t.interval);
        Insert(s.(heap := s.heap[e.addr := t']), Entry(t'.stamp, e.addr))
      else
        s.(heap := s.heap - {e.addr})
  }

  /** The end of `reset`: the kernel timer is set again only if the earliest stamp is `valid()`. */
  function Rearm(s: State): State {
    if s.timers == [] then s
    else if s.timers[0].addr >= UINTPTR_MAX || s.timers[0].addr !in s.heap then s.(fault := true)
    else
      var nextExpire := s.heap[s.timers[0].addr].stamp;
      if nextExpire > 0 then Arm(s, nextExpire) else s
  }

  function Apply(s: State, step: Step): State
    requires Enabled(s, step)
  {
    match step
    case Tick(d) => s.(clock := s.clock + d)
    case QueueAdd(a, when, every) =>
      var s1 := Allocate(s, a, when, every);
      s1.(queue := s.queue + [AddInLoop(a)])
    case QueueCancel(id) => s.(queue := s.queue + [CancelInLoop(id)])
    case RunQueued => RunFunctor(s.(queue := s.queue[1..]), s.queue[0])
    case OwnAdd(a, when, every) => AddTimerInLoop(Allocate(s, a, when, every), a)
    case OwnCancel(id) => CancelTimerInLoop(s, id.addr)
    case StartRead => s.(phase := Reading(s.clock))
    case ReadTimerfd => TakeExpired(s, s.phase.now)
    case FireNext =>
      Fire(s, s.phase.batch[s.phase.k]).(phase := Firing(s.phase.now, s.phase.batch, s.phase.k + 1))
    case StartReset => s.(phase := Resetting(s.phase.now, s.phase.batch, 0))
    case ResetNext =>
      ResetTimer(s, s.phase.batch[s.phase.k]).(phase := Resetting(s.phase.now, s.phase.batch, s.phase.k + 1))
    case FinishReset => Rearm(s).(phase := Idle)
  }

  /** A state without its histories. */
  function Bare(s: State): State {
    s.(lastArm := 0, fired := [], fault := false)
  }

  /** The histories decide nothing. */
  predicate SameWithoutHistories(s: State, step: Step)
    requires Enabled(s, step)
  {
    Enabled(Bare(s), step) && Bare(Apply(Bare(s), step)) == Bare(Apply(s, step))
  }

  lemma HistoriesDecideNothing(s: State, step: Step)
    ensures Enabled(Bare(s), step) <==> Enabled(s, step)
    ensures Enabled(s, step) ==> SameWithoutHistories(s, step)
  {
    SameEnabled(s, step);
    if Enabled(s, step) {
      match step
      case RunQueued => BareRunQueued(s);
      case OwnAdd(_, _, _) => BareOwn(s, step);
      case OwnCancel(_) => BareOwn(s, step);
      case ResetNext => BareResetNext(s);
      case _ => BareOther(s, step);
    }
  }

  lemma SameEnabled(s: State, step: Step)
    ensures Enabled(Bare(s), step) <==> Enabled(s, step)
  {
  }

  lemma BareAdd(s: State, a: Addr)
    ensures Bare(AddTimerInLoop(Bare(s), a)) == Bare(AddTimerInLoop(s, a))
  {
  }

  lemma BareCancel(s: State, a: Addr)
    ensures Bare(CancelTimerInLoop(Bare(s), a)) == Bare(CancelTimerInLoop(s, a))
  {
  }

  lemma BareOwn(s: State, step: Step)
    requires Enabled(s, step) && (step.OwnAdd? || step.OwnCancel?)
    ensures SameWithoutHistories(s, step)
  {
    match step
    case OwnAdd(a, when, every) => BareAdd(Allocate(s, a, when, every), a);
    case OwnCancel(id) => BareCancel(s, id.addr);
  }

  lemma BareRunQueued(s: State)
    requires Enabled(s, RunQueued)
    ensures SameWithoutHistories(s, RunQueued)
  {
    var s' := s.(queue := s.queue[1..]);
    match s.queue[0]
    case AddInLoop(a) => BareAdd(s', a);
    case CancelInLoop(id) => BareCancel(s', id.addr);
  }

  lemma BareResetNext(s: State)
    requires Enabled(s, ResetNext)
    ensures SameWithoutHistories(s, ResetNext)
  {
  }

  lemma BareOther(s: State, step: Step)
    requires Enabled(s, step) && !step.RunQueued? && !step.OwnAdd? && !step.OwnCancel? && !step.ResetNext?
    ensures SameWithoutHistories(s, step)
  {
  }

  predicate ValidRun(s: State, steps: seq<Step>)
    decreases |steps|, 0
  {
    steps == [] ||
    (ValidRun(s, steps[..|steps| - 1]) && Enabled(After(s, steps[..|steps| - 1]), steps[|steps| - 1]))
  }

  function After(s: State, steps: seq<Step>): State
    requires ValidRun(s, steps)
    decreases |steps|, 1
  {
    if steps == [] then s
    else Apply(After(s, steps[..|steps| - 1]), steps[|steps| - 1])
  }

  lemma RunSnoc(s: State, steps: seq<Step>, step: Step)
    requires ValidRun(s, steps) && Enabled(After(s, steps), step)
    ensures ValidRun(s, steps + [step])
    ensures After(s, steps + [step]) == Apply(After(s, steps), step)
  {
    assert (steps + [step])[..|steps|] == steps;
  }

  lemma {:induction false} RunSplits(s: State, xs: seq<Step>, ys: seq<Step>)
    requires ValidRun(s, xs + ys)
    ensures ValidRun(s, xs) && ValidRun(After(s, xs), ys)
    ensures After(After(s, xs), ys) == After(s, xs + ys)
    decreases |ys|
  {
    if ys == [] {
      assert xs + ys == xs;
    } else {
      var n := |ys| - 1;
      assert (xs + ys)[..|xs + ys| - 1] == xs + ys[..n];
      RunSplits(s, xs, ys[..n]);
    }
  }
}
