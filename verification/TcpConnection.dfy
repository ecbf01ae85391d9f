/** `TcpConnection` over its buffers, its channel and its event loop.  Every method is proved to
    move `View()` as the function of `Connection` of the same name, so the invariant proved there
    is kept by the code that updates the objects in place. */
module Tcp {
  import opened LoopProtocol
  import opened Poller
  import opened ByteBuffer
  import Reactor
  import C = Connection

  const ECONNRESET: int := 104

  /** `n` pushes of `onWriteComplateCB`. */
  function Notices(n: nat): seq<Reactor.UserCall<C.Functor>> {
    seq(n, _ => Reactor.QueueCall(C.OnWriteComplete))
  }

  lemma MoreNotices(m: nat, n: nat)
    ensures Notices(m) + Notices(n) == Notices(m + n)
  {
  }

  class TcpConnection {
    const loop: Reactor.EventLoop<C.Functor>
    const channel: Channel
    const inBuf: Buffer
    const outBuf: Buffer
    ghost var wire: seq<byte>           // history: what `write` has taken on this socket
    ghost var accepted: seq<C.Message>
    ghost var notes: nat

    ghost function View(): C.Conn
      requires outBuf.Valid()
      reads this, channel, channel.poller, outBuf, outBuf.buf
    {
      C.Conn(wire, outBuf.Contents(), channel.events, channel.Registered(channel.poller), accepted, notes)
    }

    /** The objects are in order, whatever the connection state and wherever the loop stands. */
    ghost predicate Shape()
      reads this, loop, inBuf, outBuf
    {
      && inBuf != outBuf && inBuf.buf != outBuf.buf
      && inBuf.Valid() && outBuf.Valid()
      && loop.Valid()
    }

    ghost predicate Valid()
      reads this, loop, channel, channel.poller, inBuf, inBuf.buf, outBuf, outBuf.buf
    {
      Shape() && C.Inv(View())
    }

    /** The loop thread is in a handler or functor, where this connection's own code runs. */
    ghost predicate Ready()
      reads this, loop, channel, channel.poller, inBuf, inBuf.buf, outBuf, outBuf.buf
    {
      Valid() && loop.MayCall(LoopThread)
    }

    constructor (loop: Reactor.EventLoop<C.Functor>, poller: Epoll, sockfd: int)
      requires loop.Valid()
      requires sockfd !in poller.interest
      modifies poller
      ensures Valid() && View() == C.Opened()
      ensures this.loop == loop && channel.poller == poller && channel.sockfd == sockfd
      ensures fresh(channel) && fresh(inBuf) && fresh(outBuf)
      ensures inBuf.Contents() == []
    {
      this.loop := loop;
      var c := new Channel(poller, sockfd);
      channel := c;
      inBuf := new Buffer(1024);
      outBuf := new Buffer(1024);
      wire, accepted, notes := [], [], 0;
      new;
      channel.EnableReading();
      assert channel.events == Events(true, false);
      assert C.Flatten(accepted) == [];
    }

    /** What the loop thread has called of its loop is one push of `onWriteComplateCB` for each note. */
    twostate predicate NotifiedOnly()
      reads this, loop
    {
      && old(notes) <= notes && old(loop.trace) <= loop.trace && loop.used == old(loop.used)
      && loop.book == old(loop.book).(called := old(loop.book).called + Notices(notes - old(notes)))
    }

    /** Nobody else's interest has changed. */
    twostate predicate OthersWatched()
      reads channel, channel.poller
    {
      channel.poller.interest - {channel.sockfd} == old(channel.poller.interest) - {channel.sockfd}
    }

    /** Queues `onWriteComplateCB`. */
    method NotifyWriteComplete()
      requires loop.Valid() && loop.MayCall(LoopThread)
      modifies loop, this`notes
      ensures loop.Valid() && loop.MayCall(LoopThread)
      ensures notes == old(notes) + 1 && NotifiedOnly()
    {
      var _ := loop.QueueInLoop(LoopThread, C.OnWriteComplete);
      notes := notes + 1;
    }

    /** The end of `sendInLoop`: the rest is appended, and writing enabled unless it already is. */
    method QueueRest(rest: seq<byte>)
      requires Shape()
      modifies channel, channel.poller, outBuf, outBuf.buf
      ensures Shape() && outBuf.OwnsStorage() && OthersWatched()
      ensures View() == C.Backlogged(old(View()), rest)
    {
      outBuf.Append(rest);
      if !channel.IsWriting() {
        channel.EnableWriting();
      }
    }

    /** The direct `write` of `sendInLoop`, made without a backlog. */
    method WriteDirectly(bytes: seq<byte>, written: int)
      requires Shape() && loop.MayCall(LoopThread) && C.WriteResult(written, |bytes|)
      modifies loop, this`wire, this`notes
      ensures Shape() && loop.MayCall(LoopThread)
      ensures View() == old(View()).(
                wire := old(wire) + bytes[..if written < 0 then 0 else written],
                notes := old(notes) + if written == |bytes| then 1 else 0)
      ensures NotifiedOnly()
    {
      if 0 <= written {
        wire := wire + bytes[..written];
      }
      if written == |bytes| {
        NotifyWriteComplete();
      }
    }

    /** `sendInLoop`; `written` is what `write` returns if it is called. */
    method SendInLoop(message: C.Message, written: int) returns (threw: bool)
      requires Ready()
      requires outBuf.Contents() == [] ==> C.WriteResult(written, |message.bytes|)
      modifies this, loop, channel, channel.poller, outBuf, outBuf.buf
      ensures Ready()
      ensures View() == C.SendInLoop(old(View()), message, written).conn
      ensures threw == C.SendInLoop(old(View()), message, written).threw
      ensures NotifiedOnly() && OthersWatched()
      ensures inBuf.buf == old(inBuf.buf) && outBuf.OwnsStorage()
    {
      C.SendKeepsInv(View(), message, written);
      threw := WriteOrQueue(message, written);
    }

    method WriteOrQueue(message: C.Message, written: int) returns (threw: bool)
      requires Shape() && loop.MayCall(LoopThread)
      requires outBuf.Contents() == [] ==> C.WriteResult(written, |message.bytes|)
      modifies this, loop, channel, channel.poller, outBuf, outBuf.buf
      ensures Shape() && loop.MayCall(LoopThread) && outBuf.OwnsStorage()
      ensures View() == C.SendInLoop(old(View()), message, written).conn
      ensures threw == C.SendInLoop(old(View()), message, written).threw
      ensures NotifiedOnly() && OthersWatched()
    {
      threw := false;
      var n := 0;
      assert wire + message.bytes[..n] == wire;
      if outBuf.Indices().Readable() == 0 {
        n := written;
        WriteDirectly(message.bytes, n);
      }
      if n < |message.bytes| {
        if n < 0 {
          threw := true;
          return;
        }
        QueueRest(message.bytes[n..]);
      }
      accepted := accepted + [message];
    }

    /** `onMessageCB`, the functor of a send from another thread. */
    method OnMessageCB(message: C.Message, written: int) returns (threw: bool)
      requires Ready()
      requires outBuf.Contents() == [] ==> C.WriteResult(written, |message.bytes|)
      modifies this, loop, channel, channel.poller, outBuf, outBuf.buf
      ensures Ready()
      ensures View() == C.SendInLoop(old(View()), message, written).conn
      ensures threw == C.SendInLoop(old(View()), message, written).threw
      ensures NotifiedOnly() && OthersWatched()
      ensures inBuf.buf == old(inBuf.buf) && outBuf.OwnsStorage()
    {
      threw := SendInLoop(message, written);
    }

    /** `send`: at once on the loop thread; from any other thread, wherever the loop stands and whatever
        the connection is doing, the message is queued whole and the connection is not touched. */
    method Send(caller: Caller, bytes: seq<byte>, written: int)
      returns (threw: bool, ghost between: seq<Step<C.Functor>>)
      requires loop.Valid() && loop.MayCall(caller) && (caller.LoopThread? ==> Valid())
      requires caller.LoopThread? && outBuf.Contents() == [] ==> C.WriteResult(written, |bytes|)
      modifies this, loop, channel, channel.poller, outBuf, outBuf.buf
      ensures loop.Valid() && loop.MayCall(caller)
      ensures caller.LoopThread? ==>
                && Valid() && View() == C.SendInLoop(old(View()), C.Message(caller, bytes), written).conn
                && NotifiedOnly() && OthersWatched()
                && threw == C.SendInLoop(old(View()), C.Message(caller, bytes), written).threw
      ensures caller.Other? ==>
                && unchanged(this, channel, channel.poller, inBuf, outBuf) && outBuf.buf[..] == old(outBuf.buf[..]) && !threw
                && loop.trace == old(loop.trace) + [OtherPush(caller.t, C.OnMessage(C.Message(caller, bytes)))]
                                 + between + [OtherWake(caller.t)]
                && (forall step :: step in between ==> !Reactor.IsBy(caller, step))
                && loop.eventfd > 0
    {
      between := [];
      if caller.LoopThread? {
        threw := SendInLoop(C.Message(caller, bytes), written);
      } else {
        threw := false;
        between := loop.RunInLoop(caller, C.OnMessage(C.Message(caller, bytes)));
      }
    }

    /** `handleWrite`; `written` is what `write` returns if it is called. */
    method HandleWrite(written: int)
      requires Ready() && C.WriteResult(written, |outBuf.Contents()|)
      modifies this, loop, channel, channel.poller, outBuf
      ensures Ready()
      ensures View() == C.HandleWrite(old(View()), written).conn
      ensures NotifiedOnly() && OthersWatched()
      ensures inBuf.buf == old(inBuf.buf) && outBuf.buf == old(outBuf.buf)
    {
      C.WriteKeepsInv(View(), written);
      if channel.IsWriting() {
        var n := written;
        if n > 0 {
          Drain(n);
          if outBuf.Indices().Readable() == 0 {
            channel.DisableWriting();
            NotifyWriteComplete();
          }
        }
      }
    }

    /** `write` took `n` bytes of the backlog. */
    method Drain(n: nat)
      requires Shape() && 0 < n <= |outBuf.Contents()|
      modifies this`wire, outBuf
      ensures Shape() && outBuf.buf == old(outBuf.buf)
      ensures View() == old(View()).(wire := old(wire) + old(outBuf.Contents())[..n], out := old(outBuf.Contents())[n..])
    {
      ghost var backlog := outBuf.Contents();
      wire := wire + outBuf.buf[outBuf.readerIndex..outBuf.readerIndex + n];
      assert outBuf.buf[outBuf.readerIndex..outBuf.readerIndex + n] == backlog[..n];
      outBuf.Retrieve(n);
      assert outBuf.Contents() == backlog[n..];
    }

    /** User code in a callback on the loop thread: it takes bytes of the input and sends, as far
        along its program as `done`. */
    method UserCode(program: seq<C.Action>) returns (done: nat)
      requires Ready()
      modifies this, loop, channel, channel.poller, inBuf, outBuf, outBuf.buf
      ensures Ready() && outBuf.OwnsStorage() && inBuf.buf == old(inBuf.buf)
      ensures NotifiedOnly() && OthersWatched()
      ensures done <= |program| && View() == C.AfterActions(old(View()), program[..done])
      ensures inBuf.Contents() == C.InputAfter(old(inBuf.Contents()), program[..done])
    {
      done := 0;
      var stop: bool := *;
      while done < |program| && !stop
        invariant Ready() && outBuf.OwnsStorage() && inBuf.buf == old(inBuf.buf)
        invariant NotifiedOnly() && OthersWatched()
        invariant done <= |program| && View() == C.AfterActions(old(View()), program[..done])
        invariant inBuf.Contents() == C.InputAfter(old(inBuf.Contents()), program[..done])
      {
        C.OneMoreAction(old(View()), old(inBuf.Contents()), program, done);
        ghost var sofar := notes;
        UserAction(program[done]);
        MoreNotices(sofar - old(notes), notes - sofar);
        done := done + 1;
        stop := *;
      }
    }

    method UserAction(action: C.Action)
      requires Ready()
      modifies this, loop, channel, channel.poller, inBuf, outBuf, outBuf.buf
      ensures Ready() && outBuf.OwnsStorage() && inBuf.buf == old(inBuf.buf)
      ensures NotifiedOnly() && OthersWatched()
      ensures View() == C.Acted(old(View()), action)
      ensures inBuf.Contents() == C.InputTaken(old(inBuf.Contents()), action)
    {
      match action {
        case TakeInput(len) => inBuf.Retrieve(len);
        case SendOut(bytes, written) =>
          if outBuf.Indices().Readable() != 0 || C.WriteResult(written, |bytes|) {
            var _ := SendInLoop(C.Message(LoopThread, bytes), written);
          }
      }
    }

    /** The part of `handleClose` that takes the descriptor out of the poller. */
    method Deregister()
      requires Valid()
      modifies channel, channel.poller
      ensures Valid()
      ensures View() == C.HandleClose(old(View())) && OthersWatched()
    {
      C.CloseKeepsInv(View());
      channel.SetIndex(K_DELETED);
      channel.DisableAll();
    }

    /** `handleClose`: whatever `onClose` and the close callback do with the connection, its
        descriptor stays out of the poller. */
    method HandleClose(program: seq<C.Action>) returns (done: nat)
      requires Ready()
      modifies this, loop, channel, channel.poller, inBuf, outBuf, outBuf.buf
      ensures Ready() && outBuf.OwnsStorage() && inBuf.buf == old(inBuf.buf)
      ensures NotifiedOnly() && OthersWatched()
      ensures !C.Open(View()) && channel.sockfd !in channel.poller.interest
      ensures done <= |program| && View() == C.AfterActions(C.HandleClose(old(View())), program[..done])
      ensures inBuf.Contents() == C.InputAfter(old(inBuf.Contents()), program[..done])
    {
      C.CloseKeepsInv(View());
      Deregister();
      C.ActionsKeepInv(View(), program);
      ghost var closed := View();
      done := UserCode(program);
      C.ActionsKeepInv(closed, program[..done]);
    }

    /** `handleRead`: what arrives is appended to the input and delivered, and `onMessage` may take
        from the front and send; end of stream and reset close. */
    method HandleRead(input: ReadResult, program: seq<C.Action>) returns (done: nat)
      requires Ready()
      requires input.Data? ==> |input.bytes| <= inBuf.Indices().Offered()
      modifies this, loop, channel, channel.poller, inBuf, inBuf.buf, outBuf, outBuf.buf
      ensures Ready() && NotifiedOnly() && OthersWatched()
      ensures done <= |program|
      ensures var arrived := if input.Data? then input.bytes else [];
              var closes := input == Data([]) || input == ReadError(ECONNRESET);
              if channel.sockfd < 0 || (input.ReadError? && !closes) then
                done == 0 && View() == old(View()) && inBuf.Contents() == old(inBuf.Contents())
              else
                && View() == C.AfterActions(if closes then C.HandleClose(old(View())) else old(View()), program[..done])
                && inBuf.Contents() == C.InputAfter(old(inBuf.Contents()) + arrived, program[..done])
                && (closes ==> !C.Open(View()))
    {
      done := 0;
      if channel.sockfd < 0 {
        return;
      }
      var n, savedErrno := inBuf.ReadFd(input);
      if n > 0 {
        done := UserCode(program);
      } else if n == 0 {
        done := HandleClose(program);
      } else if savedErrno == ECONNRESET {
        done := HandleClose(program);
      }
    }
  }
}
