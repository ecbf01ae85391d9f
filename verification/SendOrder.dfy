/** `TcpConnection::send` from any number of threads, end to end: the event loop's protocol and
    one connection on it, composed.  A send from another thread is a functor in the loop's queue;
    running it, or a send on the loop thread itself, is `sendInLoop`; the rest is protocol. */
module SendOrder {
  import opened LoopProtocol
  import opened LoopTheorems
  import C = Connection
  import opened ByteBuffer
  import opened Util

  datatype Sys = Sys(
    loop: State<C.Functor>,
    conn: C.Conn,
    calls: seq<C.Message>      // history: every call of send(), with its caller
  )

  datatype SysStep =
    | LoopOnly(step: Step<C.Functor>)        // any step that is not about this connection
    | OtherSend(t: Tid, bytes: seq<byte>)    // send() off the loop thread: queue onMessageCB
    | OwnSend(bytes: seq<byte>, n: int)      // send() on the loop thread
    | RunMessage(n: int)                     // the loop starts a queued onMessageCB
    | WriteEvent(k: int)                     // handleWrite
    | CloseEvent                             // handleClose

  function Start(): Sys {
    Sys(Init(), C.Opened(), [])
  }

  /** The functors of this connection are queued by its own code only. */
  predicate Foreign(loop: State<C.Functor>, step: Step<C.Functor>)
    requires Enabled(loop, step)
  {
    match step
    case OwnPush(f) => f.Task?
    case OtherPush(_, f) => f.Task?
    case RunOne => !loop.batch[0].OnMessage?
    case _ => true
  }

  /** `write` takes part or all of the message; it is called only without a backlog. */
  predicate Takes(c: C.Conn, n: int, size: nat) {
    c.out == [] ==> 0 <= n <= size
  }

  predicate SysEnabled(s: Sys, step: SysStep) {
    match step
    case LoopOnly(st) => Enabled(s.loop, st) && Foreign(s.loop, st)
    case OtherSend(t, _) => t !in s.loop.others
    case OwnSend(bytes, n) => InUserCode(s.loop.pc) && !s.loop.ownPushed && Takes(s.conn, n, |bytes|)
    case RunMessage(n) =>
      && Enabled(s.loop, RunOne) && !s.loop.ownPushed && s.loop.batch[0].OnMessage?
      && Takes(s.conn, n, |s.loop.batch[0].message.bytes|)
    case WriteEvent(k) => s.loop.pc.InHandler? && !s.loop.ownPushed && C.WriteResult(k, |s.conn.out|)
    case CloseEvent => s.loop.pc.InHandler? && !s.loop.ownPushed
  }

  /** The effect of connection code on the loop thread: a write-complete functor may be queued. */
  function Finish(s: Sys, loop: State<C.Functor>, o: C.Outcome): Sys
    requires o.notify ==> Enabled(loop, OwnPush(C.OnWriteComplete))
  {
    s.(loop := if o.notify then Apply(loop, OwnPush(C.OnWriteComplete)) else loop, conn := o.conn)
  }

  function SysApply(s: Sys, step: SysStep): Sys
    requires SysEnabled(s, step)
  {
    match step
    case LoopOnly(st) => s.(loop := Apply(s.loop, st))
    case OtherSend(t, bytes) =>
      var message := C.Message(Other(t), bytes);
      s.(loop := Apply(s.loop, OtherPush(t, C.OnMessage(message))), calls := s.calls + [message])
    case OwnSend(bytes, n) =>
      var message := C.Message(LoopThread, bytes);
      Finish(s.(calls := s.calls + [message]), s.loop, C.SendInLoop(s.conn, message, n))
    case RunMessage(n) =>
      Finish(s, Apply(s.loop, RunOne), C.SendInLoop(s.conn, s.loop.batch[0].message, n))
    case WriteEvent(k) => Finish(s, s.loop, C.HandleWrite(s.conn, k))
    case CloseEvent => s.(conn := C.HandleClose(s.conn))
  }

  predicate SysRun(s: Sys, steps: seq<SysStep>)
    decreases |steps|, 0
  {
    steps == [] ||
    (SysRun(s, steps[..|steps| - 1]) && SysEnabled(SysAfter(s, steps[..|steps| - 1]), steps[|steps| - 1]))
  }

  function SysAfter(s: Sys, steps: seq<SysStep>): Sys
    requires SysRun(s, steps)
    decreases |steps|, 1
  {
    if steps == [] then s
    else SysApply(SysAfter(s, steps[..|steps| - 1]), steps[|steps| - 1])
  }

  // ---------------------------------------------------------------- messages in flight

  /** The messages of one caller, in order. */
  function From(ms: seq<C.Message>, sender: Caller): seq<C.Message> {
    if ms == [] then []
    else From(ms[..|ms| - 1], sender) + if ms[|ms| - 1].sender == sender then [ms[|ms| - 1]] else []
  }

  /** The messages waiting in a queue of functors. */
  function Queued(fs: seq<C.Functor>): seq<C.Message> {
    if fs == [] then []
    else Queued(fs[..|fs| - 1]) + if fs[|fs| - 1].OnMessage? then [fs[|fs| - 1].message] else []
  }

  function Notifications(fs: seq<C.Functor>): nat {
    if fs == [] then 0
    else Notifications(fs[..|fs| - 1]) + if fs[|fs| - 1].OnWriteComplete? then 1 else 0
  }

  lemma {:induction false} FromConcat(a: seq<C.Message>, b: seq<C.Message>, sender: Caller)
    ensures From(a + b, sender) == From(a, sender) + From(b, sender)
    decreases |b|
  {
    if b == [] {
      assert a + b == a;
    } else {
      var n := |b| - 1;
      FromConcat(a, b[..n], sender);
      assert (a + b)[..|a + b| - 1] == a + b[..n];
    }
  }

  lemma {:induction false} QueuedConcat(a: seq<C.Functor>, b: seq<C.Functor>)
    ensures Queued(a + b) == Queued(a) + Queued(b)
    decreases |b|
  {
    if b == [] {
      assert a + b == a;
    } else {
      var n := |b| - 1;
      QueuedConcat(a, b[..n]);
      assert (a + b)[..|a + b| - 1] == a + b[..n];
    }
  }

  function Waiting(s: Sys): seq<C.Message> {
    Queued(s.loop.batch + s.loop.pending)
  }

  /** Every call is accounted for, caller by caller: first the messages sendInLoop has taken, then
      those still in the queue. */
  ghost predicate CallsAccounted(s: Sys) {
    && (forall sender :: From(s.conn.accepted + Waiting(s), sender) == From(s.calls, sender))
    && (forall m :: m in Waiting(s) ==> m.sender.Other?)
  }

  /** From another thread, exactly the messages whose functor has started are taken. */
  ghost predicate ExecutedAccounted(s: Sys) {
    forall t :: From(s.conn.accepted, Other(t)) == From(Queued(s.loop.executed), Other(t))
  }

  ghost predicate SysInv(s: Sys) {
    && Inv(s.loop) && C.Inv(s.conn)
    && CallsAccounted(s) && ExecutedAccounted(s)
    && Notifications(s.loop.pushed) == s.conn.notes
  }

  lemma QueuedSingle(f: C.Functor)
    ensures Queued([f]) == if f.OnMessage? then [f.message] else []
    ensures Notifications([f]) == if f.OnWriteComplete? then 1 else 0
  {
    assert [f][..0] == [];
  }

  lemma PushCounts(fs: seq<C.Functor>, f: C.Functor)
    ensures Queued(fs + [f]) == Queued(fs) + Queued([f])
    ensures Notifications(fs + [f]) == Notifications(fs) + Notifications([f])
  {
    QueuedConcat(fs, [f]);
    QueuedSingle(f);
    assert (fs + [f])[..|fs|] == fs;
  }

  /** A push adds its message, if it is one, behind all others. */
  lemma PushWaits(s: Sys, f: C.Functor)
    ensures Queued(s.loop.batch + (s.loop.pending + [f])) == Waiting(s) + Queued([f])
  {
    assert s.loop.batch + (s.loop.pending + [f]) == s.loop.batch + s.loop.pending + [f];
    QueuedConcat(s.loop.batch + s.loop.pending, [f]);
  }

  /** Starting a functor takes the first message, if it is one, and leaves the rest in order. */
  lemma RunTakes(s: Sys)
    requires Enabled(s.loop, RunOne)
    ensures Waiting(s) == Queued([s.loop.batch[0]]) + Queued(s.loop.batch[1..] + s.loop.pending)
  {
    var loop := s.loop;
    assert loop.batch + loop.pending == [loop.batch[0]] + (loop.batch[1..] + loop.pending);
    QueuedConcat([loop.batch[0]], loop.batch[1..] + loop.pending);
  }

  /** What a protocol step does to the queues, in one formula. */
  lemma StepOnQueues(loop: State<C.Functor>, step: Step<C.Functor>)
    requires Inv(loop) && Enabled(loop, step)
    ensures var loop' := Apply(loop, step);
            && loop'.pushed == loop.pushed + PushOf(step)
            && loop'.executed == loop.executed + (if step.RunOne? then [loop.batch[0]] else [])
            && loop'.batch + loop'.pending ==
                 (if step.RunOne? then loop.batch[1..] else loop.batch) + (loop.pending + PushOf(step))
  {
    if step.SwapQueue? {
      assert loop.batch + (loop.pending + []) == loop.pending + [];
    }
  }

  /** Protocol steps of other code neither add, take nor reorder messages or notifications. */
  lemma ForeignStepKeeps(s: Sys, step: Step<C.Functor>)
    requires Inv(s.loop) && Enabled(s.loop, step) && Foreign(s.loop, step)
    ensures var loop' := Apply(s.loop, step);
            && Queued(loop'.batch + loop'.pending) == Waiting(s)
            && Notifications(loop'.pushed) == Notifications(s.loop.pushed)
            && Queued(loop'.executed) == Queued(s.loop.executed)
  {
    StepOnQueues(s.loop, step);
    if step.RunOne? {
      PushCounts(s.loop.executed, s.loop.batch[0]);
      QueuedSingle(s.loop.batch[0]);
    }
    if PushOf(step) == [] {
      assert s.loop.pending + [] == s.loop.pending && s.loop.pushed + [] == s.loop.pushed;
      if step.RunOne? {
        RunTakes(s);
        QueuedSingle(s.loop.batch[0]);
      }
    } else {
      var f := PushOf(step)[0];
      PushWaits(s, f);
      PushCounts(s.loop.pushed, f);
      QueuedSingle(f);
    }
  }

  lemma NoneFrom(ms: seq<C.Message>, sender: Caller)
    requires forall m :: m in ms ==> m.sender != sender
    ensures From(ms, sender) == []
  {
  }

  lemma FromSingle(m: C.Message, sender: Caller)
    ensures From([m], sender) == if m.sender == sender then [m] else []
  {
    assert [m][..0] == [];
  }

  lemma ThreeParts(a: seq<C.Message>, b: seq<C.Message>, c: seq<C.Message>, sender: Caller)
    ensures From(a + b + c, sender) == From(a, sender) + From(b, sender) + From(c, sender)
  {
    FromConcat(a + b, c, sender);
    FromConcat(a, b, sender);
  }

  /** A message taken on the loop thread overtakes the waiting ones, none of which is the loop's own. */
  lemma OvertakingIsAccounted(accepted: seq<C.Message>, m: C.Message, waiting: seq<C.Message>, sender: Caller)
    requires m.sender.LoopThread? && forall w :: w in waiting ==> w.sender.Other?
    ensures From(accepted + [m] + waiting, sender) == From(accepted + waiting + [m], sender)
  {
    FromSingle(m, sender);
    if sender.LoopThread? {
      NoneFrom(waiting, sender);
    }
    var w, x := From(waiting, sender), From([m], sender);
    assert w == [] || x == [];
    ThreeParts(accepted, [m], waiting, sender);
    ThreeParts(accepted, waiting, [m], sender);
  }

  /** The accounting half of one step, for steps that run `sendInLoop`. */
  lemma AcceptedBySend(c: C.Conn, m: C.Message, n: int)
    requires Takes(c, n, |m.bytes|)
    ensures C.SendInLoop(c, m, n).conn.accepted == c.accepted + [m]
  {
  }

  /** Queueing the write-complete functor. */
  lemma FinishKeeps(s: Sys, loop: State<C.Functor>, o: C.Outcome)
    requires Inv(loop) && C.Inv(o.conn) && (o.notify ==> Enabled(loop, OwnPush(C.OnWriteComplete)))
    requires Notifications(loop.pushed) == s.conn.notes && C.NotifiedWhenFlushed(s.conn, o)
    ensures var s' := Finish(s, loop, o);
            && Inv(s'.loop) && C.Inv(s'.conn) && Notifications(s'.loop.pushed) == s'.conn.notes
            && Waiting(s') == Queued(loop.batch + loop.pending) && s'.loop.executed == loop.executed
  {
    if o.notify {
      InvStep(loop, OwnPush(C.OnWriteComplete));
      PushWaits(s.(loop := loop), C.OnWriteComplete);
      PushCounts(loop.pushed, C.OnWriteComplete);
      QueuedSingle(C.OnWriteComplete);
    }
  }

  lemma OtherPushWaits(s: Sys, t: Tid, m: C.Message)
    requires Enabled(s.loop, OtherPush(t, C.OnMessage(m)))
    ensures var loop := Apply(s.loop, OtherPush(t, C.OnMessage(m)));
            && Queued(loop.batch + loop.pending) == Waiting(s) + [m]
            && Notifications(loop.pushed) == Notifications(s.loop.pushed)
            && loop.executed == s.loop.executed
  {
    PushWaits(s, C.OnMessage(m));
    PushCounts(s.loop.pushed, C.OnMessage(m));
    QueuedSingle(C.OnMessage(m));
  }

  lemma QueuedCallIsAccounted(accepted: seq<C.Message>, waiting: seq<C.Message>, m: C.Message,
                              calls: seq<C.Message>, sender: Caller)
    requires From(accepted + waiting, sender) == From(calls, sender)
    ensures From(accepted + (waiting + [m]), sender) == From(calls + [m], sender)
  {
    FromConcat(accepted + waiting, [m], sender);
    FromConcat(calls, [m], sender);
    assert accepted + (waiting + [m]) == accepted + waiting + [m];
  }

  lemma OtherSendKeeps(s: Sys, t: Tid, bytes: seq<byte>)
    requires SysInv(s) && SysEnabled(s, OtherSend(t, bytes))
    ensures SysInv(SysApply(s, OtherSend(t, bytes)))
  {
    var m := C.Message(Other(t), bytes);
    var s' := SysApply(s, OtherSend(t, bytes));
    InvStep(s.loop, OtherPush(t, C.OnMessage(m)));
    OtherPushWaits(s, t, m);
    forall sender ensures From(s'.conn.accepted + Waiting(s'), sender) == From(s'.calls, sender) {
      QueuedCallIsAccounted(s.conn.accepted, Waiting(s), m, s.calls, sender);
    }
  }

  lemma OwnSendKeeps(s: Sys, bytes: seq<byte>, n: int)
    requires SysInv(s) && SysEnabled(s, OwnSend(bytes, n))
    ensures SysInv(SysApply(s, OwnSend(bytes, n)))
  {
    var m := C.Message(LoopThread, bytes);
    var s' := SysApply(s, OwnSend(bytes, n));
    var called := s.(calls := s.calls + [m]);
    C.SendKeepsInv(s.conn, m, n);
    C.NotificationsMeanFlushed(s.conn, m, n, 0);
    AcceptedBySend(s.conn, m, n);
    FinishKeeps(called, s.loop, C.SendInLoop(s.conn, m, n));
    forall sender ensures From(s'.conn.accepted + Waiting(s'), sender) == From(s'.calls, sender) {
      OvertakingIsAccounted(s.conn.accepted, m, Waiting(s), sender);
      FromConcat(s.conn.accepted + Waiting(s), [m], sender);
      FromConcat(s.calls, [m], sender);
    }
    forall t ensures From(s'.conn.accepted, Other(t)) == From(Queued(s'.loop.executed), Other(t)) {
      FromConcat(s.conn.accepted, [m], Other(t));
      FromSingle(m, Other(t));
    }
  }

  lemma RunMessageTakes(s: Sys)
    requires Enabled(s.loop, RunOne) && s.loop.batch[0].OnMessage?
    ensures var loop := Apply(s.loop, RunOne);
            && Waiting(s) == [s.loop.batch[0].message] + Queued(loop.batch + loop.pending)
            && loop.pushed == s.loop.pushed
            && Queued(loop.executed) == Queued(s.loop.executed) + [s.loop.batch[0].message]
            && (!s.loop.ownPushed ==> Enabled(loop, OwnPush(C.OnWriteComplete)))
  {
    RunTakes(s);
    QueuedSingle(s.loop.batch[0]);
    PushCounts(s.loop.executed, s.loop.batch[0]);
  }

  lemma RunMessageKeeps(s: Sys, n: int)
    requires SysInv(s) && SysEnabled(s, RunMessage(n))
    ensures SysInv(SysApply(s, RunMessage(n)))
  {
    var m, loop := s.loop.batch[0].message, Apply(s.loop, RunOne);
    var s' := SysApply(s, RunMessage(n));
    InvStep(s.loop, RunOne);
    RunMessageTakes(s);
    C.SendKeepsInv(s.conn, m, n);
    C.NotificationsMeanFlushed(s.conn, m, n, 0);
    AcceptedBySend(s.conn, m, n);
    FinishKeeps(s, loop, C.SendInLoop(s.conn, m, n));
    TakenIsAccounted(s, s', m);
  }

  /** A message moves from the head of the queue to the accepted ones. */
  lemma TakenIsAccounted(s: Sys, s': Sys, m: C.Message)
    requires CallsAccounted(s) && ExecutedAccounted(s) && s'.calls == s.calls
    requires s'.conn.accepted == s.conn.accepted + [m] && Waiting(s) == [m] + Waiting(s')
    requires Queued(s'.loop.executed) == Queued(s.loop.executed) + [m]
    ensures CallsAccounted(s') && ExecutedAccounted(s')
  {
    Regroup(s.conn.accepted, m, Waiting(s'));
    forall t ensures From(s'.conn.accepted, Other(t)) == From(Queued(s'.loop.executed), Other(t)) {
      SameFromBoth(s.conn.accepted, Queued(s.loop.executed), m, Other(t));
    }
  }

  lemma Regroup(a: seq<C.Message>, m: C.Message, b: seq<C.Message>)
    ensures a + [m] + b == a + ([m] + b)
  {
  }

  lemma SameFromBoth(a: seq<C.Message>, b: seq<C.Message>, m: C.Message, sender: Caller)
    requires From(a, sender) == From(b, sender)
    ensures From(a + [m], sender) == From(b + [m], sender)
  {
    FromConcat(a, [m], sender);
    FromConcat(b, [m], sender);
  }

  lemma LoopOnlyKeeps(s: Sys, step: Step<C.Functor>)
    requires SysInv(s) && SysEnabled(s, LoopOnly(step))
    ensures SysInv(SysApply(s, LoopOnly(step)))
  {
    InvStep(s.loop, step);
    ForeignStepKeeps(s, step);
    KeepsAccounts(s, SysApply(s, LoopOnly(step)));
  }

  lemma KeepsAccounts(s: Sys, s': Sys)
    requires CallsAccounted(s) && ExecutedAccounted(s)
    requires s'.conn.accepted == s.conn.accepted && s'.calls == s.calls
    requires Waiting(s') == Waiting(s) && Queued(s'.loop.executed) == Queued(s.loop.executed)
    ensures CallsAccounted(s') && ExecutedAccounted(s')
  {
  }

  lemma WriteEventKeeps(s: Sys, k: int)
    requires SysInv(s) && SysEnabled(s, WriteEvent(k))
    ensures SysInv(SysApply(s, WriteEvent(k)))
  {
    C.WriteKeepsInv(s.conn, k);
    C.NotificationsMeanFlushed(s.conn, C.Message(LoopThread, []), 0, k);
    var o := C.HandleWrite(s.conn, k);
    assert o.conn.accepted == s.conn.accepted;
    FinishKeeps(s, s.loop, o);
    KeepsAccounts(s, SysApply(s, WriteEvent(k)));
  }

  lemma SysStepKeeps(s: Sys, step: SysStep)
    requires SysInv(s) && SysEnabled(s, step)
    ensures SysInv(SysApply(s, step))
  {
    match step
    case LoopOnly(st) => LoopOnlyKeeps(s, st);
    case OtherSend(t, bytes) => OtherSendKeeps(s, t, bytes);
    case OwnSend(bytes, n) => OwnSendKeeps(s, bytes, n);
    case RunMessage(n) => RunMessageKeeps(s, n);
    case WriteEvent(k) => WriteEventKeeps(s, k);
    case CloseEvent => C.CloseKeepsInv(s.conn);
  }

  lemma {:induction false} SysInvAlways(s: Sys, steps: seq<SysStep>)
    requires SysInv(s) && SysRun(s, steps)
    ensures SysInv(SysAfter(s, steps))
    decreases |steps|
  {
    if steps != [] {
      var n := |steps| - 1;
      SysInvAlways(s, steps[..n]);
      SysStepKeeps(SysAfter(s, steps[..n]), steps[n]);
    }
  }

  lemma StartInv()
    ensures SysInv(Start())
  {
    assert Waiting(Start()) == [];
  }

  // ---------------------------------------------------------------- the protocol run underneath

  function WriteCompleteOf(o: C.Outcome): seq<Step<C.Functor>> {
    if o.notify then [OwnPush(C.OnWriteComplete)] else []
  }

  /** The protocol steps of one composed step. */
  function LoopSteps(s: Sys, step: SysStep): seq<Step<C.Functor>>
    requires SysEnabled(s, step)
  {
    match step
    case LoopOnly(st) => [st]
    case OtherSend(t, bytes) => [OtherPush(t, C.OnMessage(C.Message(Other(t), bytes)))]
    case OwnSend(bytes, n) => WriteCompleteOf(C.SendInLoop(s.conn, C.Message(LoopThread, bytes), n))
    case RunMessage(n) => [RunOne] + WriteCompleteOf(C.SendInLoop(s.conn, s.loop.batch[0].message, n))
    case WriteEvent(k) => WriteCompleteOf(C.HandleWrite(s.conn, k))
    case CloseEvent => []
  }

  function Projection(s: Sys, steps: seq<SysStep>): seq<Step<C.Functor>>
    requires SysRun(s, steps)
  {
    if steps == [] then []
    else
      var n := |steps| - 1;
      Projection(s, steps[..n]) + LoopSteps(SysAfter(s, steps[..n]), steps[n])
  }

  lemma AppendSteps(loop: State<C.Functor>, run: seq<Step<C.Functor>>, more: seq<Step<C.Functor>>)
    requires ValidRun(loop, run)
    requires |more| <= 2 && (|more| > 0 ==> Enabled(After(loop, run), more[0]))
    requires |more| > 1 ==> Enabled(Apply(After(loop, run), more[0]), more[1])
    ensures ValidRun(loop, run + more)
    ensures After(loop, run + more) ==
              if |more| == 0 then After(loop, run)
              else if |more| == 1 then Apply(After(loop, run), more[0])
              else Apply(Apply(After(loop, run), more[0]), more[1])
  {
    if |more| == 0 {
      assert run + more == run;
    } else {
      RunSnoc(loop, run, more[0]);
      if |more| == 1 {
        assert run + more == run + [more[0]];
      } else {
        RunSnoc(loop, run + [more[0]], more[1]);
        assert run + more == run + [more[0]] + [more[1]];
      }
    }
  }

  lemma LoopStepsApply(s: Sys, step: SysStep)
    requires SysEnabled(s, step)
    ensures var more := LoopSteps(s, step);
            && |more| <= 2 && (|more| > 0 ==> Enabled(s.loop, more[0]))
            && (|more| > 1 ==> Enabled(Apply(s.loop, more[0]), more[1]))
            && SysApply(s, step).loop ==
                 if |more| == 0 then s.loop
                 else if |more| == 1 then Apply(s.loop, more[0])
                 else Apply(Apply(s.loop, more[0]), more[1])
  {
  }

  /** Every composed run is a run of the protocol, so what holds of those holds here. */
  lemma {:induction false} ProjectionIsRun(s: Sys, steps: seq<SysStep>)
    requires SysRun(s, steps)
    ensures ValidRun(s.loop, Projection(s, steps))
    ensures After(s.loop, Projection(s, steps)) == SysAfter(s, steps).loop
    decreases |steps|
  {
    if steps != [] {
      var n := |steps| - 1;
      ProjectionIsRun(s, steps[..n]);
      LoopStepsApply(SysAfter(s, steps[..n]), steps[n]);
      AppendSteps(s.loop, Projection(s, steps[..n]), LoopSteps(SysAfter(s, steps[..n]), steps[n]));
    }
  }

  // ---------------------------------------------------------------- early functors

  /** What the loop thread queues before `loop()` is never a message of another thread. */
  predicate NoEarlyMessage(loop: State<C.Functor>) {
    loop.early + |Queued(loop.pending)| <= |loop.pending|
  }

  lemma NoEarlyMessageStep(loop: State<C.Functor>, step: Step<C.Functor>)
    requires NoEarlyMessage(loop) && Enabled(loop, step) && !(step.OwnPush? && step.f.OnMessage?)
    ensures NoEarlyMessage(Apply(loop, step))
  {
    if PushOf(step) != [] {
      PushCounts(loop.pending, PushOf(step)[0]);
      QueuedSingle(PushOf(step)[0]);
    }
  }

  lemma NoEarlyMessageKept(s: Sys, step: SysStep)
    requires NoEarlyMessage(s.loop) && SysEnabled(s, step)
    ensures NoEarlyMessage(SysApply(s, step).loop)
  {
    LoopStepsApply(s, step);
    var more := LoopSteps(s, step);
    if |more| > 0 {
      NoEarlyMessageStep(s.loop, more[0]);
      if |more| > 1 {
        NoEarlyMessageStep(Apply(s.loop, more[0]), more[1]);
      }
    }
  }

  lemma {:induction false} NoEarlyMessageAlways(steps: seq<SysStep>)
    requires SysRun(Start(), steps)
    ensures NoEarlyMessage(SysAfter(Start(), steps).loop)
    decreases |steps|
  {
    if steps != [] {
      var n := |steps| - 1;
      NoEarlyMessageAlways(steps[..n]);
      NoEarlyMessageKept(SysAfter(Start(), steps[..n]), steps[n]);
    }
  }

  lemma SleepingLoopHasNoMessages(s: Sys)
    requires Inv(s.loop) && NoEarlyMessage(s.loop) && Asleep(s.loop)
    ensures Waiting(s) == []
  {
    assert s.loop.batch + s.loop.pending == s.loop.pending;
  }

  // ---------------------------------------------------------------- end to end

  /** The run leads from the start to `s`. */
  ghost predicate SysReaches(steps: seq<SysStep>, s: Sys) {
    SysRun(Start(), steps) && SysAfter(Start(), steps) == s
  }

  lemma ReachedInv(steps: seq<SysStep>, s: Sys)
    requires SysReaches(steps, s)
    ensures SysInv(s)
  {
    StartInv();
    SysInvAlways(Start(), steps);
  }

  /** In every interleaving of any number of senders, partial writes and write events: the wire
      carries a prefix of whole messages one after the other, and from each caller a prefix of
      its calls in call order, the rest of which waits in the queue in call order too. */
  lemma SendsArriveInOrder(steps: seq<SysStep>, s: Sys, sender: Caller)
    requires SysReaches(steps, s)
    ensures s.conn.wire <= C.Flatten(s.conn.accepted)
    ensures From(s.conn.accepted, sender) + From(Waiting(s), sender) == From(s.calls, sender)
    ensures sender.LoopThread? ==> From(s.conn.accepted, sender) == From(s.calls, sender)
  {
    ReachedInv(steps, s);
    C.WireIsPrefix(s.conn);
    FromConcat(s.conn.accepted, Waiting(s), sender);
    if sender.LoopThread? {
      NoneFrom(Waiting(s), sender);
    }
  }

  /** A loop asleep in `poll` has no send left to start: every message of every caller is on the
      wire, or in the backlog with EPOLLOUT registered if the connection is still open. */
  lemma SleepingLoopHasSentOrWatches(steps: seq<SysStep>, s: Sys, sender: Caller)
    requires SysReaches(steps, s)
    requires Asleep(s.loop)
    ensures From(s.conn.accepted, sender) == From(s.calls, sender)
    ensures s.conn.wire == C.Flatten(s.conn.accepted) || !C.Open(s.conn) || C.WatchedForWriting(s.conn)
  {
    ReachedInv(steps, s);
    C.WireIsPrefix(s.conn);
    C.WatchedIffBacklog(s.conn);
    NoEarlyMessageAlways(steps);
    SleepingLoopHasNoMessages(s);
    FromConcat(s.conn.accepted, Waiting(s), sender);
  }

  /** Output never stalls and never spins: after any sequence of sends, partial writes and write
      events, and of anything else, EPOLLOUT is registered exactly while the connection is open and
      has a backlog, and EPOLLIN exactly while it is open. */
  lemma OutputNeverStallsOrSpins(steps: seq<SysStep>, s: Sys)
    requires SysReaches(steps, s)
    ensures C.WatchedForWriting(s.conn) <==> C.Open(s.conn) && s.conn.out != []
    ensures C.WatchedForReading(s.conn) <==> C.Open(s.conn)
    ensures s.conn.out != [] <==> s.conn.wire != C.Flatten(s.conn.accepted)
  {
    ReachedInv(steps, s);
    C.WatchedIffBacklog(s.conn);
    C.WireIsPrefix(s.conn);
  }

  /** A run goes on with one more step. */
  lemma SysNext(steps: seq<SysStep>, s: Sys, step: SysStep) returns (steps': seq<SysStep>, s': Sys)
    requires SysReaches(steps, s) && SysEnabled(s, step)
    ensures s' == SysApply(s, step) && SysReaches(steps', s')
  {
    steps', s' := steps + [step], SysApply(s, step);
    assert steps'[..|steps|] == steps;
  }

  /** A handler runs, and nothing has happened to the connection. */
  lemma FirstHandler() returns (steps: seq<SysStep>, s: Sys)
    ensures SysReaches(steps, s) && s.conn == C.Opened() && s.loop.pc.InHandler? && !s.loop.ownPushed
  {
    steps, s := SysNext([], Start(), LoopOnly(StartLoop));
    steps, s := SysNext(steps, s, LoopOnly(TestQuit));
    steps, s := SysNext(steps, s, LoopOnly(PollReturn(false)));
    steps, s := SysNext(steps, s, LoopOnly(HandlerStart));
  }

  lemma SendAfterClose(bytes: seq<byte>, n: nat)
    requires n < |bytes|
    ensures var o := C.SendInLoop(C.HandleClose(C.Opened()), C.Message(LoopThread, bytes), n);
            !o.notify && o.conn.out == bytes[n..] && !C.WatchedForWriting(o.conn)
  {
  }

  /** A backlog nobody watches: a handler closes the connection and then sends more than `write`
      takes. */
  lemma ClosedBacklogIsUnwatched(bytes: seq<byte>, n: nat)
    requires n < |bytes|
    ensures exists steps, s :: SysReaches(steps, s) && s.conn.out == bytes[n..] && !C.WatchedForWriting(s.conn)
  {
    var steps, s := FirstHandler();
    steps, s := SysNext(steps, s, CloseEvent);
    SendAfterClose(bytes, n);
    steps, s := SysNext(steps, s, OwnSend(bytes, n));
    assert s.conn.out == bytes[n..] && !C.WatchedForWriting(s.conn);
  }

  lemma CallsSplit(accepted: seq<C.Message>, calls: seq<C.Message>, done: seq<C.Functor>, rest: seq<C.Functor>, sender: Caller)
    requires From(accepted + Queued(rest), sender) == From(calls, sender)
    requires From(accepted, sender) == From(Queued(done), sender)
    ensures From(calls, sender) == From(Queued(done + rest), sender)
  {
    QueuedConcat(done, rest);
    FromConcat(Queued(done), Queued(rest), sender);
    FromConcat(accepted, Queued(rest), sender);
  }

  lemma PushedSplits(loop: State<C.Functor>)
    requires Inv(loop)
    ensures loop.pushed == loop.executed + (loop.batch + loop.pending)
  {
  }

  lemma CallsAreQueuedMessages(s: Sys, t: Tid)
    requires SysInv(s)
    ensures From(s.calls, Other(t)) == From(Queued(s.loop.pushed), Other(t))
  {
    PushedSplits(s.loop);
    CallsSplit(s.conn.accepted, s.calls, s.loop.executed, s.loop.batch + s.loop.pending, Other(t));
  }

  lemma PrefixOfMessages(a: seq<C.Functor>, b: seq<C.Functor>, sender: Caller)
    requires a <= b
    ensures From(Queued(a), sender) <= From(Queued(b), sender)
  {
    QueuedConcat(a, b[|a|..]);
    FromConcat(Queued(a), Queued(b[|a|..]), sender);
    assert b == a + b[|a|..];
  }

  /** One return of `poll` hands every message sent before it from other threads to `sendInLoop`,
      before the loop is back at its quit test. */
  lemma OneIterationTakesEverySend(xs: seq<SysStep>, s: Sys, ys: seq<SysStep>, s': Sys, t: Tid)
    requires SysReaches(xs, s) && s.loop.pc.Poll?
    requires SysRun(s, ys) && s' == SysAfter(s, ys) && s'.loop.pc.CheckQuit?
    requires PollReturns(Projection(s, ys)) >= 1
    ensures From(s.calls, Other(t)) <= From(s'.conn.accepted, Other(t))
  {
    ReachedInv(xs, s);
    SysInvAlways(s, ys);
    ProjectionIsRun(s, ys);
    OneIterationServesAll(s.loop, Projection(s, ys));
    CallsAreQueuedMessages(s, t);
    PrefixOfMessages(s.loop.pushed, s'.loop.executed, Other(t));
  }

  /** Over every run: a write event and a direct write lengthen the wire by exactly the bytes that
      `write` took, a send is the only step that accepts a message, and it accepts its own; no other
      step touches the connection's bytes. */
  lemma StepsMoveWhatWasTaken(steps: seq<SysStep>, s: Sys, step: SysStep)
    requires SysReaches(steps, s) && SysEnabled(s, step)
    ensures var c, c' := s.conn, SysApply(s, step).conn;
            match step
            case OwnSend(bytes, n) => Sent(c, c', C.Message(LoopThread, bytes), n)
            case RunMessage(n) => Sent(c, c', s.loop.batch[0].message, n)
            case WriteEvent(k) =>
              && |c'.wire| == |c.wire| + (if c.events.writing then Max(k, 0) else 0)
              && c'.wire + c'.out == c.wire + c.out && c'.accepted == c.accepted
            case CloseEvent => c'.wire == c.wire && c'.out == c.out && c'.accepted == c.accepted
            case _ => c' == c
  {
    ReachedInv(steps, s);
    match step
    case OwnSend(bytes, n) => C.SendMovesWhatWasTaken(s.conn, C.Message(LoopThread, bytes), n);
    case RunMessage(n) => C.SendMovesWhatWasTaken(s.conn, s.loop.batch[0].message, n);
    case WriteEvent(k) => C.WriteMovesWhatWasTaken(s.conn, k);
    case _ =>
  }

  predicate Sent(c: C.Conn, c': C.Conn, m: C.Message, n: int) {
    && |c'.wire| == |c.wire| + (if c.out == [] then n else 0)
    && c'.wire + c'.out == c.wire + c.out + m.bytes && c'.accepted == c.accepted + [m]
  }

  /** Over every run, a step that queues a write-complete functor does so with every accepted byte on
      the wire. */
  lemma NotifiedOnlyWhenFlushed(steps: seq<SysStep>, s: Sys, step: SysStep)
    requires SysReaches(steps, s) && SysEnabled(s, step)
    requires SysApply(s, step).conn.notes > s.conn.notes
    ensures var c := SysApply(s, step).conn;
            c.notes == s.conn.notes + 1 && c.out == [] && c.wire == C.Flatten(c.accepted)
  {
    ReachedInv(steps, s);
    match step
    case OwnSend(bytes, n) => C.NotificationsMeanFlushed(s.conn, C.Message(LoopThread, bytes), n, 0);
    case RunMessage(n) => C.NotificationsMeanFlushed(s.conn, s.loop.batch[0].message, n, 0);
    case WriteEvent(k) => C.NotificationsMeanFlushed(s.conn, C.Message(LoopThread, []), 0, k);
    case _ =>
  }

  /** Write-complete functors never outnumber the messages taken, and one message is still to be
      notified while a backlog is left. */
  lemma NotificationsAccounted(steps: seq<SysStep>, s: Sys)
    requires SysReaches(steps, s)
    ensures Notifications(s.loop.pushed) + (if s.conn.out != [] then 1 else 0) <= |s.conn.accepted|
  {
    ReachedInv(steps, s);
  }
}
