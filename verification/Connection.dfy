/** The output side of one connection: bytes handed to the kernel, the backlog in `_outBuf`, and
    the interest registered for its descriptor.  `TcpConnection` is proved to step as the
    functions here say; what those steps keep is proved about them. */
module Connection {
  import opened Poller
  import opened LoopProtocol
  import opened ByteBuffer
  import opened Util

  datatype Message = Message(sender: Caller, bytes: seq<byte>)

  /** What the connection code queues in the event loop; `Task` is any other functor. */
  datatype Functor =
    | Task(id: nat)
    | OnMessage(message: Message)
    | OnWriteComplete

  datatype Conn = Conn(
    wire: seq<byte>,          // accepted by the kernel, in order
    out: seq<byte>,           // readable bytes of _outBuf
    events: Events,
    reg: Registration,
    accepted: seq<Message>,   // messages sendInLoop took over, in order
    notes: nat                // onWriteComplateCB functors queued
  )

  /** A step's effect: `notify` says that it queues a write-complete functor, `threw` that
      `message.substr(n, ...)` was called with n = -1 and left by an exception. */
  datatype Outcome = Outcome(conn: Conn, notify: bool, threw: bool)

  /** The constructor has enabled reading. */
  function Opened(): Conn {
    Conn([], [], Events(true, false), Registration(K_ADDED, Some(Events(true, false))), [], 0)
  }

  function WithEvents(c: Conn, events: Events): Conn {
    c.(events := events, reg := Updated(c.reg, events))
  }

  predicate WriteResult(n: int, size: nat) {
    -1 <= n <= size
  }

  /** Bytes left over go to the backlog, and writing is enabled unless it already is. */
  function Backlogged(c: Conn, rest: seq<byte>): Conn {
    var c' := c.(out := c.out + rest);
    if c.events.writing then c' else WithEvents(c', c.events.(writing := true))
  }

  /** `sendInLoop`; `n` is what `write` returns if it is called. */
  function SendInLoop(c: Conn, m: Message, n: int): Outcome
    requires c.out == [] ==> WriteResult(n, |m.bytes|)
  {
    if c.out == [] && n < 0 then Outcome(c, false, true)
    else
      var k := if c.out == [] then n else 0;
      var complete := c.out == [] && k == |m.bytes|;
      var sent := c.(wire := c.wire + m.bytes[..k], accepted := c.accepted + [m],
                     notes := c.notes + if complete then 1 else 0);
      Outcome(if k < |m.bytes| then Backlogged(sent, m.bytes[k..]) else sent, complete, false)
  }

  /** `handleWrite`; `n` is what `write` returns if it is called. */
  function HandleWrite(c: Conn, n: int): Outcome
    requires WriteResult(n, |c.out|)
  {
    if !c.events.writing || n <= 0 then
      Outcome(c, false, false)
    else
      var c' := c.(wire := c.wire + c.out[..n], out := c.out[n..]);
      if c'.out != [] then Outcome(c', false, false)
      else Outcome(WithEvents(c', c.events.(writing := false)).(notes := c.notes + 1), true, false)
  }

  /** `handleClose`: the index first, so that the update deletes the registration. */
  function HandleClose(c: Conn): Conn {
    WithEvents(c.(reg := c.reg.(index := K_DELETED)), NO_EVENTS)
  }

  // ---------------------------------------------------------------- what every step keeps

  function Flatten(ms: seq<Message>): seq<byte> {
    if ms == [] then [] else Flatten(ms[..|ms| - 1]) + ms[|ms| - 1].bytes
  }

  predicate Open(c: Conn) {
    c.reg.index == K_ADDED
  }

  predicate WatchedForReading(c: Conn) {
    c.reg.interest.Some? && c.reg.interest.value.reading
  }

  predicate WatchedForWriting(c: Conn) {
    c.reg.interest.Some? && c.reg.interest.value.writing
  }

  ghost predicate Inv(c: Conn) {
    // every byte is on the wire or in the backlog, in message order
    && c.wire + c.out == Flatten(c.accepted)
    && InStep(c.reg, c.events) && c.reg.index != K_NEW
    && (Open(c) ==> c.events.reading && (c.events.writing <==> c.out != []))
    && c.notes + (if c.out != [] then 1 else 0) <= |c.accepted|
  }

  lemma FlattenSnoc(ms: seq<Message>, m: Message)
    ensures Flatten(ms + [m]) == Flatten(ms) + m.bytes
  {
    assert (ms + [m])[..|ms|] == ms;
  }

  lemma BackloggedKeeps(c: Conn, rest: seq<byte>)
    requires InStep(c.reg, c.events) && c.reg.index != K_NEW
    ensures var c' := Backlogged(c, rest);
            && InStep(c'.reg, c'.events) && c'.reg.index == c.reg.index
            && c'.events.writing && c'.events.reading == c.events.reading
  {
  }

  lemma SendKeepsInv(c: Conn, m: Message, n: int)
    requires Inv(c) && (c.out == [] ==> WriteResult(n, |m.bytes|))
    ensures Inv(SendInLoop(c, m, n).conn)
  {
    FlattenSnoc(c.accepted, m);
    if c.out != [] || n >= 0 {
      var k := if c.out == [] then n else 0;
      SplitMessage(c.wire, c.out, m.bytes, k);
      BackloggedKeeps(c.(wire := c.wire + m.bytes[..k]), m.bytes[k..]);
    }
  }

  /** A send only adds, and neither opens nor closes. */
  lemma SendExtends(c: Conn, m: Message, n: int)
    requires Inv(c) && (c.out == [] ==> WriteResult(n, |m.bytes|))
    ensures Extends(c, SendInLoop(c, m, n).conn)
  {
  }

  predicate Extends(c: Conn, c': Conn) {
    c.wire <= c'.wire && c.accepted <= c'.accepted && c.notes <= c'.notes && (Open(c') <==> Open(c))
  }

  /** What user code in a callback does with its connection. */
  datatype Action = TakeInput(len: nat) | SendOut(bytes: seq<byte>, written: int)

  /** A send whose `written` no `write` could return is not made. */
  function Acted(c: Conn, action: Action): Conn {
    match action
    case TakeInput(_) => c
    case SendOut(bytes, written) =>
      if c.out != [] || WriteResult(written, |bytes|) then SendInLoop(c, Message(LoopThread, bytes), written).conn else c
  }

  function AfterActions(c: Conn, program: seq<Action>): Conn {
    if program == [] then c
    else Acted(AfterActions(c, program[..|program| - 1]), program[|program| - 1])
  }

  function InputTaken(input: seq<byte>, action: Action): seq<byte> {
    match action case TakeInput(len) => Back(input, len) case SendOut(_, _) => input
  }

  function InputAfter(input: seq<byte>, program: seq<Action>): seq<byte> {
    if program == [] then input
    else InputTaken(InputAfter(input, program[..|program| - 1]), program[|program| - 1])
  }

  lemma OneMoreAction(c: Conn, input: seq<byte>, program: seq<Action>, done: nat)
    requires done < |program|
    ensures AfterActions(c, program[..done + 1]) == Acted(AfterActions(c, program[..done]), program[done])
    ensures InputAfter(input, program[..done + 1]) == InputTaken(InputAfter(input, program[..done]), program[done])
  {
    assert program[..done + 1][..done] == program[..done];
  }

  /** Whatever a callback does, the invariant stays, and output is only added. */
  lemma {:induction false} ActionsKeepInv(c: Conn, program: seq<Action>)
    requires Inv(c)
    ensures Inv(AfterActions(c, program)) && Extends(c, AfterActions(c, program))
    decreases |program|
  {
    if program != [] {
      var n := |program| - 1;
      ActionsKeepInv(c, program[..n]);
      ActionKeepsInv(AfterActions(c, program[..n]), program[n]);
    }
  }

  lemma ActionKeepsInv(c: Conn, action: Action)
    requires Inv(c)
    ensures Inv(Acted(c, action)) && Extends(c, Acted(c, action))
  {
    if action.SendOut? && (c.out != [] || WriteResult(action.written, |action.bytes|)) {
      SendKeepsInv(c, Message(LoopThread, action.bytes), action.written);
      SendExtends(c, Message(LoopThread, action.bytes), action.written);
    }
  }

  /** The bytes written and the bytes left go behind all earlier bytes, in order. */
  lemma SplitMessage(wire: seq<byte>, out: seq<byte>, bytes: seq<byte>, k: nat)
    requires k <= |bytes| && (out == [] || k == 0)
    ensures (wire + bytes[..k]) + (out + bytes[k..]) == wire + out + bytes
    ensures k == |bytes| ==> (wire + bytes[..k]) + out == wire + out + bytes
  {
  }

  lemma WriteKeepsInv(c: Conn, n: int)
    requires Inv(c) && WriteResult(n, |c.out|)
    ensures Inv(HandleWrite(c, n).conn)
  {
    if c.events.writing && n > 0 {
      assert c.wire + c.out[..n] + c.out[n..] == c.wire + c.out;
    }
  }

  lemma CloseKeepsInv(c: Conn)
    requires Inv(c)
    ensures Inv(HandleClose(c)) && !Open(HandleClose(c)) && HandleClose(c).reg.interest.None?
  {
  }

  // ---------------------------------------------------------------- how much every step moves

  /** `handleWrite` moves exactly the bytes that `write` took, and does nothing without a backlog. */
  lemma WriteMovesWhatWasTaken(c: Conn, n: int)
    requires Inv(c) && WriteResult(n, |c.out|)
    ensures var c' := HandleWrite(c, n).conn;
            && |c'.wire| == |c.wire| + (if c.events.writing then Max(n, 0) else 0)
            && c.wire <= c'.wire && c'.wire + c'.out == c.wire + c.out
            && c'.accepted == c.accepted
            && (c.out == [] || n <= 0 ==> c' == c)
  {
    WriteKeepsInv(c, n);
  }

  /** `sendInLoop` accepts its message alone and moves exactly the bytes that `write` took of it: none
      if there is a backlog, and then the message goes behind it. */
  lemma SendMovesWhatWasTaken(c: Conn, m: Message, n: int)
    requires Inv(c) && (c.out == [] ==> WriteResult(n, |m.bytes|))
    ensures var c' := SendInLoop(c, m, n).conn;
            if c.out == [] && n < 0 then c' == c
            else
              && |c'.wire| == |c.wire| + (if c.out == [] then n else 0)
              && c.wire <= c'.wire && c'.wire + c'.out == c.wire + c.out + m.bytes
              && c'.accepted == c.accepted + [m]
  {
    SendKeepsInv(c, m, n);
    FlattenSnoc(c.accepted, m);
  }

  lemma CloseMovesNothing(c: Conn)
    ensures var c' := HandleClose(c);
            c'.wire == c.wire && c'.out == c.out && c'.accepted == c.accepted && c'.notes == c.notes
  {
  }

  // ---------------------------------------------------------------- what the invariant means

  /** Output never stalls and never spins: EPOLLOUT is registered exactly while an open connection
      has a backlog, and EPOLLIN exactly while it is open. */
  lemma WatchedIffBacklog(c: Conn)
    requires Inv(c)
    ensures WatchedForWriting(c) <==> Open(c) && c.out != []
    ensures WatchedForReading(c) <==> Open(c)
  {
  }

  /** The wire carries a prefix of the accepted messages, and all of them once the backlog is gone. */
  lemma WireIsPrefix(c: Conn)
    requires Inv(c)
    ensures c.wire <= Flatten(c.accepted)
    ensures c.wire == Flatten(c.accepted) <==> c.out == []
  {
  }

  /** A send hands over the whole message exactly when `write` did not fail, or was not called, or
      there was nothing to write.  A failed `write` loses the message to an exception. */
  lemma SendConservesBytesIff(c: Conn, m: Message, n: int)
    requires Inv(c) && (c.out == [] ==> WriteResult(n, |m.bytes|))
    ensures var c' := SendInLoop(c, m, n).conn;
            c'.wire + c'.out == Flatten(c.accepted + [m]) <==> n >= 0 || c.out != [] || m.bytes == []
    ensures SendInLoop(c, m, n).threw <==> n < 0 && c.out == []
  {
    SendKeepsInv(c, m, n);
    FlattenSnoc(c.accepted, m);
  }

  /** Such a failure: the message is neither accepted nor on its way. */
  lemma FailedWriteLosesMessage(m: Message)
    requires m.bytes != []
    ensures Inv(Opened()) && SendInLoop(Opened(), m, -1) == Outcome(Opened(), false, true)
    ensures Opened().wire + Opened().out != Flatten(Opened().accepted + [m])
  {
    FlattenSnoc([], m);
  }

  /** A write-complete functor is queued exactly when a message is written at once or a backlog runs
      empty, and then every accepted byte is out. */
  ghost predicate NotifiedWhenFlushed(c: Conn, o: Outcome) {
    && o.conn.notes == c.notes + (if o.notify then 1 else 0)
    && (o.notify ==> o.conn.out == [] && o.conn.wire == Flatten(o.conn.accepted))
  }

  lemma NotificationsMeanFlushed(c: Conn, m: Message, n: int, k: int)
    requires Inv(c) && (c.out == [] ==> WriteResult(n, |m.bytes|)) && WriteResult(k, |c.out|)
    ensures NotifiedWhenFlushed(c, SendInLoop(c, m, n))
    ensures var o := SendInLoop(c, m, n); o.notify <==> c.out == [] && o.conn.out == [] && !o.threw
    ensures NotifiedWhenFlushed(c, HandleWrite(c, k))
    ensures var o := HandleWrite(c, k); o.notify <==> c.out != [] && o.conn.out == []
  {
    SendKeepsInv(c, m, n);
    WriteKeepsInv(c, k);
  }
}
