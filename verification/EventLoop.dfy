/** `EventLoop` as its methods update it.  Between any two atomic actions of a method the other
    threads may take any number of protocol steps (`Environment`), so each method is proved
    against every interleaving: what it did is one run of `LoopProtocol`, kept in `trace`. */
module Reactor {
  import opened LoopProtocol

  /** An active channel as `poll` returns it: the eventfd's own, or one with user code behind it. */
  datatype Active = EventfdChannel | IoChannel(fd: int)

  /** What user code on the loop thread does to the loop. */
  datatype UserCall<F> = QueueCall(f: F) | QuitCall

  /** Histories of the loop thread: the channels that each `poll` returned and those handled, the
      functors that runInLoop called itself, and all calls of queueInLoop and quit. */
  datatype Book<F> = Book(polled: seq<seq<Active>>, handled: seq<Active>, inline: seq<F>, called: seq<UserCall<F>>)

  function Booked<F>(book: Book<F>, step: Step<F>): Book<F> {
    match step
    case OwnPush(f) => book.(called := book.called + [QueueCall(f)])
    case OwnQuit => book.(called := book.called + [QuitCall])
    case _ => book
  }

  /** The calls a user program makes from its `from`-th to its `to`-th. */
  function Script<F>(user: nat -> UserCall<F>, from: nat, to: nat): seq<UserCall<F>>
    requires from <= to
  {
    seq(to - from, i requires 0 <= i => user(from + i))
  }

  lemma ScriptGrows<F>(user: nat -> UserCall<F>, from: nat, mid: nat, to: nat)
    requires from <= mid <= to
    ensures Script(user, from, mid) + Script(user, mid, to) == Script(user, from, to)
  {
  }

  /** Between two books these channels were polled and handled and these functors run inline; all calls
      of queueInLoop and quit were the user's own next ones. */
  ghost predicate Progress<F>(user: nat -> UserCall<F>, from: nat, before: Book<F>, to: nat, after: Book<F>,
                              polled: seq<seq<Active>>, handled: seq<Active>, inline: seq<F>)
  {
    && from <= to
    && after == Book(before.polled + polled, before.handled + handled, before.inline + inline,
                     before.called + Script(user, from, to))
  }

  lemma ProgressGoesOn<F>(user: nat -> UserCall<F>, from: nat, a: Book<F>, mid: nat, b: Book<F>, to: nat, c: Book<F>,
                          polled: seq<seq<Active>>, polled': seq<seq<Active>>,
                          handled: seq<Active>, handled': seq<Active>)
    requires Progress(user, from, a, mid, b, polled, handled, [])
    requires Progress(user, mid, b, to, c, polled', handled', [])
    ensures Progress(user, from, a, to, c, polled + polled', handled + handled', [])
  {
    ScriptGrows(user, from, mid, to);
  }

  function Flat(turns: seq<seq<Active>>): seq<Active> {
    if turns == [] then [] else Flat(turns[..|turns| - 1]) + turns[|turns| - 1]
  }

  lemma FlatSnoc(turns: seq<seq<Active>>, turn: seq<Active>)
    ensures Flat(turns + [turn]) == Flat(turns) + turn
  {
    assert (turns + [turn])[..|turns|] == turns;
  }

  lemma ScriptNext<F>(user: nat -> UserCall<F>, from: nat, to: nat)
    requires from <= to
    ensures Script(user, from, to) + [user(to)] == Script(user, from, to + 1)
  {
  }

  /** `epoll_wait` returns a descriptor at most once. */
  predicate Distinct(channels: seq<Active>) {
    forall i, j :: 0 <= i < j < |channels| ==> channels[i] != channels[j]
  }

  /** Is `step` taken by the thread that calls? */
  predicate IsBy<F>(caller: Caller, step: Step<F>) {
    match caller
    case LoopThread => !step.ByOther()
    case Other(t) => step.ByOther() && step.t == t
  }

  function PushStep<F>(caller: Caller, f: F): Step<F> {
    match caller case LoopThread => OwnPush(f) case Other(t) => OtherPush(t, f)
  }

  function StoreQuitStep<F>(caller: Caller): Step<F> {
    match caller case LoopThread => OwnQuit case Other(t) => OtherQuit(t)
  }

  /** The end of queueInLoop: the loop thread tests whether to wake itself, any other one writes. */
  function WakeStep<F>(caller: Caller): Step<F> {
    match caller case LoopThread => OwnCheck case Other(t) => OtherWake(t)
  }

  /** What the loop thread finds as it left it, whatever the other threads did. */
  ghost predicate KeptForLoop<F>(s: State<F>, s': State<F>) {
    && s'.pc == s.pc && s'.ownPushed == s.ownPushed && s'.calling == s.calling
    && s'.batch == s.batch && s'.executed == s.executed && s'.early == s.early
    && s.pending <= s'.pending && s.pushed <= s'.pushed && (s.quit ==> s'.quit)
    && (s.eventfd > 0 ==> s'.eventfd > 0)
  }

  ghost predicate KeptFor<F>(caller: Caller, s: State<F>, s': State<F>) {
    match caller
    case LoopThread => KeptForLoop(s, s')
    case Other(t) =>
      && (t in s.others <==> t in s'.others) && (t in s.others ==> s'.others[t] == s.others[t])
      && (s.quit ==> s'.quit)
  }

  lemma OthersKeepLoop<F>(s: State<F>, step: Step<F>)
    requires Enabled(s, step) && step.ByOther()
    ensures KeptForLoop(s, Apply(s, step))
  {
  }

  lemma OthersKeepOther<F>(s: State<F>, step: Step<F>, t: Tid)
    requires Enabled(s, step) && !IsBy(Other(t), step)
    ensures KeptFor(Other(t), s, Apply(s, step))
  {
  }

  lemma OthersKeep<F>(s: State<F>, step: Step<F>, caller: Caller)
    requires Enabled(s, step) && !IsBy(caller, step)
    ensures KeptFor(caller, s, Apply(s, step))
  {
    if caller.LoopThread? {
      OthersKeepLoop(s, step);
    } else {
      OthersKeepOther(s, step, caller.t);
    }
  }

  lemma KeptTransitive<F>(caller: Caller, a: State<F>, b: State<F>, c: State<F>)
    requires KeptFor(caller, a, b) && KeptFor(caller, b, c)
    ensures KeptFor(caller, a, c)
  {
  }

  lemma SameObserved<F>(s: State<F>, s': State<F>)
    requires Bare(s) == Bare(s')
    ensures s.quit == s'.quit && s.calling == s'.calling && s.pending == s'.pending && s.eventfd == s'.eventfd
    ensures s.pc == s'.pc && s.ownPushed == s'.ownPushed && s.others == s'.others && s.batch == s'.batch
  {
  }

  lemma PushIsStep<F>(caller: Caller, f: F, s: State<F>, s': State<F>)
    requires Enabled(s, PushStep(caller, f))
    requires s' == s.(pending := s.pending + [f], pushed := s.pushed + [f],
                      ownPushed := s.ownPushed || caller.LoopThread?,
                      early := s.early + if caller.LoopThread? && s.pc.Before? then 1 else 0,
                      others := if caller.Other? then s.others[caller.t := Pushed] else s.others)
    ensures s' == Apply(s, PushStep(caller, f))
  {
  }

  class EventLoop<F(0)> {
    var quit: bool
    var callingPendingFunctors: bool
    var pendingFunctors: seq<F>
    var eventfd: nat
    var pc: LoopPc                  // where the loop thread stands
    var ownPushed: bool
    var others: map<Tid, OtherPc>   // where the other threads stand
    var tempRuns: seq<F>            // what is left of the swapped batch
    const user: nat -> UserCall<F>  // the user's program on the loop thread, any at all
    var used: nat                   // how far it has come
    ghost var pushed: seq<F>        // histories
    ghost var executed: seq<F>
    ghost var early: nat
    ghost var book: Book<F>
    ghost var trace: seq<Step<F>>

    ghost function View(): State<F>
      reads this
    {
      State(quit, callingPendingFunctors, pendingFunctors, eventfd, pc, ownPushed, others, tempRuns,
            pushed, executed, early)
    }

    function Observed(): (s: State<F>)
      reads this
      ensures s == Bare(View())
    {
      State(quit, callingPendingFunctors, pendingFunctors, eventfd, pc, ownPushed, others, tempRuns, [], [], 0)
    }

    ghost predicate Valid()
      reads this
    {
      ValidRun(Init<F>(), trace) && After(Init<F>(), trace) == View()
    }

    /** The caller is free to start a call: it is outside queueInLoop and quit. */
    ghost predicate MayCall(caller: Caller)
      reads this
    {
      match caller
      case LoopThread => InUserCode(pc) && !ownPushed
      case Other(t) => t !in others
    }

    twostate predicate Continues()
      reads this
    {
      Valid() && old(trace) <= trace
    }

    twostate predicate Took(step: Step<F>)
      reads this
    {
      Valid() && trace == old(trace) + [step] && book == Booked(old(book), step) && used == old(used)
    }

    /** The loop thread has done nothing. */
    twostate predicate Waited()
      reads this
    {
      book == old(book) && used == old(used)
    }

    twostate predicate Did(polled: seq<seq<Active>>, handled: seq<Active>, inline: seq<F>)
      reads this
    {
      Progress(user, old(used), old(book), used, book, polled, handled, inline)
    }

    constructor (user: nat -> UserCall<F>)
      ensures Valid() && View() == Init() && trace == [] && book == Book([], [], [], []) && used == 0
      ensures this.user == user
    {
      this.user, used := user, 0;
      quit, callingPendingFunctors, pendingFunctors, eventfd := false, false, [], 0;
      pc, ownPushed, others, tempRuns := Before, false, map[], [];
      pushed, executed, early, book, trace := [], [], 0, Book([], [], [], []), [];
    }

    ghost method Log(before: State<F>, step: Step<F>)
      requires ValidRun(Init<F>(), trace) && After(Init<F>(), trace) == before
      requires Enabled(before, step) && Apply(before, step) == View()
      modifies this`trace, this`book
      ensures Valid() && trace == old(trace) + [step] && book == Booked(old(book), step)
    {
      RunSnoc(Init<F>(), trace, step);
      assert (trace + [step])[..|trace|] == trace;
      trace, book := trace + [step], Booked(book, step);
    }

    /** `wakeup()`: the write leaves the counter positive whether it succeeds or saturates. */
    method Wakeup()
      modifies this`eventfd
      ensures eventfd == Written(old(eventfd)) && eventfd > 0
    {
      if eventfd < EVENTFD_MAX {
        eventfd := eventfd + 1;
      }
    }

    method SetShared(s: State<F>)
      modifies this`quit, this`callingPendingFunctors, this`pendingFunctors, this`eventfd, this`others
      ensures quit == s.quit && callingPendingFunctors == s.calling && pendingFunctors == s.pending
      ensures eventfd == s.eventfd && others == s.others
    {
      quit, callingPendingFunctors, pendingFunctors := s.quit, s.calling, s.pending;
      eventfd, others := s.eventfd, s.others;
    }

    method SetOwn(s: State<F>)
      modifies this`pc, this`ownPushed, this`tempRuns
      ensures pc == s.pc && ownPushed == s.ownPushed && tempRuns == s.batch
    {
      pc, ownPushed, tempRuns := s.pc, s.ownPushed, s.batch;
    }

    ghost method SetHistories(s: State<F>)
      modifies this`pushed, this`executed, this`early
      ensures pushed == s.pushed && executed == s.executed && early == s.early
    {
      pushed, executed, early := s.pushed, s.executed, s.early;
    }

    method SetView(s: State<F>, ghost after: State<F>)
      requires Bare(s) == Bare(after)
      modifies this
      ensures View() == after && trace == old(trace) && Waited()
    {
      SameObserved(s, after);
      SetShared(s);
      SetOwn(s);
      SetHistories(after);
    }

    method Execute(step: Step<F>)
      requires Valid() && Enabled(View(), step)
      modifies this
      ensures Took(step) && View() == Apply(old(View()), step)
    {
      ghost var before := View();
      HistoriesDecideNothing(before, step);
      SetView(Apply(Observed(), step), Apply(before, step));
      Log(before, step);
    }

    /** Any number of steps of the threads other than `caller`. */
    method Environment(caller: Caller)
      requires Valid()
      modifies this
      ensures Continues() && (caller.LoopThread? ==> Waited())
      ensures used == old(used) && book.inline == old(book).inline && book.polled == old(book).polled
      ensures forall step :: step in trace[|old(trace)|..] ==> !IsBy(caller, step)
      ensures KeptFor(caller, old(View()), View())
    {
      var count: nat := *;
      while count > 0
        invariant Continues() && (caller.LoopThread? ==> Waited())
        invariant used == old(used) && book.inline == old(book).inline && book.polled == old(book).polled
        invariant forall step :: step in trace[|old(trace)|..] ==> !IsBy(caller, step)
        invariant KeptFor(caller, old(View()), View())
      {
        var step: Step<F> := *;
        HistoriesDecideNothing(View(), step);
        if !IsBy(caller, step) && Enabled(Observed(), step) {
          ghost var before := View();
          Execute(step);
          OthersKeep(before, step, caller);
          KeptTransitive(caller, old(View()), before, View());
        }
        count := count - 1;
      }
    }

    /** The critical section of queueInLoop. */
    method Push(caller: Caller, f: F)
      requires Valid() && MayCall(caller)
      modifies this
      ensures Took(PushStep(caller, f))
      ensures pendingFunctors == old(pendingFunctors) + [f] && pushed == old(pushed) + [f]
      ensures caller.LoopThread? ==>
                ownPushed && pc == old(pc) && callingPendingFunctors == old(callingPendingFunctors)
                && tempRuns == old(tempRuns) && executed == old(executed)
      ensures caller.Other? ==> caller.t in others
    {
      ghost var before := View();
      PushBack(f);
      MarkPushed(caller);
      PushIsStep(caller, f, before, View());
      Log(before, PushStep(caller, f));
    }

    method MarkPushed(caller: Caller)
      modifies this`ownPushed, this`early, this`others
      ensures ownPushed == (old(ownPushed) || caller.LoopThread?)
      ensures early == old(early) + if caller.LoopThread? && pc.Before? then 1 else 0
      ensures others == if caller.Other? then old(others)[caller.t := Pushed] else old(others)
    {
      match caller {
        case LoopThread => ownPushed, early := true, early + if pc.Before? then 1 else 0;
        case Other(t) => others := others[t := Pushed];
      }
    }

    method PushBack(f: F)
      modifies this`pendingFunctors, this`pushed
      ensures pendingFunctors == old(pendingFunctors) + [f] && pushed == old(pushed) + [f]
    {
      pendingFunctors := pendingFunctors + [f];
      pushed := pushed + [f];
    }

    /** The test at the end of queueInLoop, and the wakeup it decides on. */
    method CheckAndWake(caller: Caller)
      requires Valid()
      requires match caller case LoopThread => ownPushed case Other(t) => t in others
      modifies this
      ensures Took(WakeStep(caller))
      ensures caller.LoopThread? ==> !ownPushed
      ensures caller.Other? ==> caller.t !in others
      ensures eventfd == if caller.Other? || callingPendingFunctors then Written(old(eventfd)) else old(eventfd)
      ensures pc == old(pc) && callingPendingFunctors == old(callingPendingFunctors)
      ensures tempRuns == old(tempRuns) && pendingFunctors == old(pendingFunctors)
      ensures executed == old(executed) && pushed == old(pushed)
      ensures quit == old(quit)
    {
      ghost var before := View();
      if !caller.LoopThread? || callingPendingFunctors {
        Wakeup();
      }
      match caller {
        case LoopThread => ownPushed := false;
        case Other(t) => others := others - {t};
      }
      Log(before, WakeStep(caller));
    }

    /** `queueInLoop`: between the push and the test any other thread may run. */
    method QueueInLoop(caller: Caller, f: F) returns (ghost between: seq<Step<F>>)
      requires Valid() && MayCall(caller)
      modifies this
      ensures Valid() && MayCall(caller)
      ensures trace == old(trace) + [PushStep(caller, f)] + between + [WakeStep(caller)]
      ensures forall step :: step in between ==> !IsBy(caller, step)
      ensures used == old(used) && book.inline == old(book).inline
      ensures caller.Other? ==> eventfd > 0
      ensures caller.LoopThread? ==>
                && book == Booked(old(book), OwnPush(f))
                && pc == old(pc) && callingPendingFunctors == old(callingPendingFunctors)
                && tempRuns == old(tempRuns) && executed == old(executed)
                && old(pendingFunctors) + [f] <= pendingFunctors
                && old(pushed) + [f] <= pushed
                && (callingPendingFunctors ==> eventfd > 0)
    {
      Push(caller, f);
      label pushed:
      Environment(caller);
      between := trace[|old(trace)| + 1..];
      assert between == trace[|old@pushed(trace)|..];
      CheckAndWake(caller);
    }

    method Quit(caller: Caller) returns (ghost between: seq<Step<F>>)
      requires Valid() && MayCall(caller)
      modifies this
      ensures Valid() && MayCall(caller)
      ensures trace == old(trace) + [StoreQuitStep(caller)] + between +
                       if caller.LoopThread? then [] else [WakeStep(caller)]
      ensures forall step :: step in between ==> !IsBy(caller, step)
      ensures quit && used == old(used) && book.inline == old(book).inline
      ensures caller.Other? ==> eventfd > 0
      ensures caller.LoopThread? ==> View() == old(View()).(quit := true) && book == Booked(old(book), OwnQuit)
    {
      StoreQuit(caller);
      label stored:
      between := [];
      if !caller.LoopThread? {
        Environment(caller);
        between := trace[|old(trace)| + 1..];
        assert between == trace[|old@stored(trace)|..];
        CheckAndWake(caller);
      }
    }

    method StoreQuit(caller: Caller)
      requires Valid() && MayCall(caller)
      modifies this
      ensures Took(StoreQuitStep(caller)) && quit
      ensures caller.LoopThread? ==> View() == old(View()).(quit := true)
      ensures caller.Other? ==> caller.t in others
    {
      ghost var before := View();
      quit := true;
      match caller {
        case LoopThread =>
        case Other(t) => others := others[t := QuitSet];
      }
      Log(before, StoreQuitStep(caller));
    }

    /** User code on the loop thread: a handler or a functor, which may queue functors and quit. */
    method UserCode()
      requires Valid() && MayCall(LoopThread)
      modifies this
      ensures Continues() && MayCall(LoopThread) && Did([], [], [])
      ensures pc == old(pc) && callingPendingFunctors == old(callingPendingFunctors)
      ensures tempRuns == old(tempRuns) && executed == old(executed)
      ensures old(pendingFunctors) <= pendingFunctors && old(pushed) <= pushed
    {
      var count: nat := *;
      while count > 0
        invariant Continues() && MayCall(LoopThread) && Did([], [], [])
        invariant pc == old(pc) && callingPendingFunctors == old(callingPendingFunctors)
        invariant tempRuns == old(tempRuns) && executed == old(executed)
        invariant old(pendingFunctors) <= pendingFunctors && old(pushed) <= pushed
      {
        Environment(LoopThread);
        ScriptNext(user, old(used), used);
        NextCall();
        count := count - 1;
      }
      Environment(LoopThread);
    }

    method NextCall()
      requires Valid() && MayCall(LoopThread)
      modifies this
      ensures Continues() && MayCall(LoopThread) && used == old(used) + 1
      ensures book == old(book).(called := old(book).called + [user(old(used))])
      ensures pc == old(pc) && callingPendingFunctors == old(callingPendingFunctors)
      ensures tempRuns == old(tempRuns) && executed == old(executed)
      ensures old(pendingFunctors) <= pendingFunctors && old(pushed) <= pushed
    {
      match user(used) {
        case QueueCall(f) => var _ := QueueInLoop(LoopThread, f);
        case QuitCall => var _ := Quit(LoopThread);
      }
      used := used + 1;
    }

    /** `cb()` on the spot. */
    method CallInline(f: F)
      requires Valid() && MayCall(LoopThread)
      modifies this
      ensures Continues() && MayCall(LoopThread) && Did([], [], [f])
      ensures pc == old(pc) && executed == old(executed) && tempRuns == old(tempRuns)
      ensures old(pendingFunctors) <= pendingFunctors
    {
      book := book.(inline := book.inline + [f]);
      UserCode();
    }

    /** `runInLoop`: at once on the loop thread, through the queue from any other. */
    method RunInLoop(caller: Caller, f: F) returns (ghost between: seq<Step<F>>)
      requires Valid() && MayCall(caller)
      modifies this
      ensures Continues() && MayCall(caller)
      ensures caller.Other? ==>
                && trace == old(trace) + [OtherPush(caller.t, f)] + between + [OtherWake(caller.t)]
                && (forall step :: step in between ==> !IsBy(caller, step))
                && eventfd > 0 && book.inline == old(book).inline
      ensures caller.LoopThread? ==>
                && Did([], [], [f])
                && pc == old(pc) && executed == old(executed) && tempRuns == old(tempRuns)
                && old(pendingFunctors) <= pendingFunctors
    {
      between := [];
      if caller.LoopThread? {
        CallInline(f);
      } else {
        between := QueueInLoop(caller, f);
      }
    }

    /** `handleRead` of the eventfd channel. */
    method HandleRead()
      requires Valid() && pc == Dispatch(true)
      modifies this
      ensures Valid() && trace == old(trace) + [DrainEventfd] && Did([], [EventfdChannel], []) && used == old(used)
      ensures View() == old(View()).(pc := Dispatch(false), eventfd := 0)
    {
      ghost var before := View();
      eventfd := 0;
      pc := Dispatch(false);
      Log(before, DrainEventfd);
      book := book.(handled := book.handled + [EventfdChannel]);
    }

    method BeginCalling()
      requires Valid() && pc.Enter?
      modifies this
      ensures Took(SetCalling) && View() == old(View()).(calling := true, pc := Swap)
    {
      ghost var before := View();
      callingPendingFunctors, pc := true, Swap;
      Log(before, SetCalling);
    }

    method SwapOut()
      requires Valid() && pc.Swap?
      modifies this
      ensures Took(SwapQueue)
      ensures pc.Running? && pendingFunctors == [] && tempRuns == old(pendingFunctors)
      ensures executed == old(executed) && pushed == old(pushed)
    {
      ghost var before := View();
      tempRuns, pendingFunctors := pendingFunctors, [];
      pc, early := Running, 0;
      Log(before, SwapQueue);
    }

    method StartFunctor() returns (cb: F)
      requires Valid() && pc.Running? && tempRuns != []
      modifies this
      ensures Took(RunOne) && cb == old(tempRuns)[0]
      ensures pc.InFunctor? && ownPushed == old(ownPushed)
      ensures executed == old(executed) + [cb] && tempRuns == old(tempRuns)[1..]
    {
      ghost var before := View();
      cb := tempRuns[0];
      executed := executed + [cb];
      tempRuns := tempRuns[1..];
      pc := InFunctor;
      Log(before, RunOne);
    }

    /** Control returns from user code to the loop over functors or over channels. */
    method ReturnFromUserCode()
      requires Valid() && !ownPushed && (pc.InFunctor? || pc.InHandler?)
      modifies this
      ensures Took(if old(pc).InFunctor? then FunctorReturn else HandlerReturn)
      ensures View() == old(View()).(pc := if old(pc).InFunctor? then Running else Dispatch(old(pc).wake))
    {
      ghost var before := View();
      var inFunctor := pc.InFunctor?;
      pc := if inFunctor then Running else Dispatch(pc.wake);
      Log(before, if inFunctor then FunctorReturn else HandlerReturn);
    }

    method EndCalling()
      requires Valid() && pc.Running? && tempRuns == []
      modifies this
      ensures Took(ClearCalling)
      ensures View() == old(View()).(pc := CheckQuit, calling := false)
    {
      ghost var before := View();
      callingPendingFunctors, pc := false, CheckQuit;
      Log(before, ClearCalling);
    }

    lemma OutsideUserCode()
      requires Valid() && !InUserCode(pc)
      ensures !ownPushed
    {
      InvAlways(Init<F>(), trace);
    }

    lemma NothingLost()
      requires Valid()
      ensures pushed == executed + tempRuns + pendingFunctors
      ensures !pc.Running? && !pc.InFunctor? ==> tempRuns == [] && pushed == executed + pendingFunctors
    {
      InvAlways(Init<F>(), trace);
      assert executed + [] == executed;
    }

    /** One turn of the loop over `tempRuns`. */
    method RunNextFunctor()
      requires Valid() && pc.Running? && tempRuns != []
      modifies this
      ensures Continues() && pc.Running? && Did([], [], [])
      ensures executed == old(executed) + [old(tempRuns)[0]] && tempRuns == old(tempRuns)[1..]
    {
      OutsideUserCode();
      Environment(LoopThread);
      var cb := StartFunctor();
      UserCode();
      ReturnFromUserCode();
    }

    /** `doPendingFunctors`: runs `ran`, the queue as it stood at the swap, in order and to the end. */
    method DoPendingFunctors() returns (ghost ran: seq<F>)
      requires Valid() && pc.Enter?
      modifies this
      ensures Continues() && pc.CheckQuit? && !callingPendingFunctors && tempRuns == [] && Did([], [], [])
      ensures old(pendingFunctors) <= ran && executed == old(executed) + ran
      ensures old(pushed) <= executed && pushed == executed + pendingFunctors
    {
      ran := SwapPhase();
      RunBatch();
      Environment(LoopThread);
      EndCalling();
      NothingLost();
    }

    /** The loop over `tempRuns`. */
    method RunBatch()
      requires Valid() && pc.Running?
      modifies this
      ensures Continues() && pc.Running? && tempRuns == [] && Did([], [], [])
      ensures executed == old(executed) + old(tempRuns)
    {
      while tempRuns != []
        invariant Continues() && pc.Running? && Did([], [], [])
        invariant executed + tempRuns == old(executed) + old(tempRuns)
        decreases |tempRuns|
      {
        ghost var mark, soFar := used, book;
        RunNextFunctor();
        ProgressGoesOn(user, old(used), old(book), mark, soFar, used, book, [], [], [], []);
      }
    }

    /** Up to the swap: `tempRuns` takes everything pushed and not yet executed. */
    method SwapPhase() returns (ghost ran: seq<F>)
      requires Valid() && pc.Enter?
      modifies this
      ensures Continues() && pc.Running? && tempRuns == ran && executed == old(executed) && Waited()
      ensures old(pendingFunctors) <= ran && old(pushed) <= executed + ran
    {
      BeginCalling();
      Environment(LoopThread);
      NothingLost();
      ran := pendingFunctors;
      assert pushed == executed + ran;
      SwapOut();
    }

    /** `Epoll::poll`: blocks until something is ready or the wait is interrupted; the eventfd
        channel can only be among the active ones while its counter is positive. */
    method Poll() returns (activeChannels: seq<Active>)
      requires Valid() && pc.Poll?
      modifies this
      ensures Continues() && old(pushed) <= pushed && Did([activeChannels], [], [])
      ensures pc == Dispatch(EventfdChannel in activeChannels)
      ensures EventfdChannel in activeChannels ==> eventfd > 0
      ensures Distinct(activeChannels)
    {
      Environment(LoopThread);
      var ready: seq<Active> := *;
      if !Distinct(ready) || (EventfdChannel in ready && eventfd == 0) {
        ready := [];
      }
      activeChannels := [];
      for i := 0 to |ready|
        invariant activeChannels == ready[..i]
      {
        activeChannels := activeChannels + [ready[i]];
      }
      PollReturned(activeChannels);
    }

    method PollReturned(activeChannels: seq<Active>)
      requires Valid() && pc.Poll? && (EventfdChannel in activeChannels ==> eventfd > 0)
      modifies this
      ensures Continues() && pushed == old(pushed) && eventfd == old(eventfd)
      ensures pc == Dispatch(EventfdChannel in activeChannels) && used == old(used)
      ensures book == old(book).(polled := old(book).polled + [activeChannels])
    {
      ghost var before := View();
      var wake := EventfdChannel in activeChannels;
      pc := Dispatch(wake);
      Log(before, PollReturn(wake));
      book := book.(polled := book.polled + [activeChannels]);
    }

    method StartHandler(channel: Active)
      requires Valid() && pc.Dispatch?
      modifies this
      ensures Valid() && trace == old(trace) + [HandlerStart] && Did([], [channel], []) && used == old(used)
      ensures View() == old(View()).(pc := InHandler(old(pc).wake))
    {
      ghost var before := View();
      pc := InHandler(pc.wake);
      Log(before, HandlerStart);
      book := book.(handled := book.handled + [channel]);
    }

    /** `handleEvent` of one active channel. */
    method HandleEvent(channel: Active)
      requires Valid() && pc.Dispatch? && (channel.EventfdChannel? ==> pc.wake)
      modifies this
      ensures Continues() && old(pushed) <= pushed && Did([], [channel], [])
      ensures pc == Dispatch(old(pc).wake && !channel.EventfdChannel?)
    {
      OutsideUserCode();
      Environment(LoopThread);
      if channel.EventfdChannel? {
        HandleRead();
      } else {
        RunHandler(channel);
      }
    }

    method RunHandler(channel: Active)
      requires Valid() && pc.Dispatch? && !ownPushed
      modifies this
      ensures Continues() && old(pushed) <= pushed && Did([], [channel], []) && pc == old(pc)
    {
      StartHandler(channel);
      ghost var mark, soFar := used, book;
      UserCode();
      ReturnFromUserCode();
      ProgressGoesOn(user, old(used), old(book), mark, soFar, used, book, [], [], [channel], []);
    }

    /** The loop over the active channels, up to `doPendingFunctors`. */
    method DispatchEvents(activeChannels: seq<Active>)
      requires Valid() && pc == Dispatch(EventfdChannel in activeChannels)
      requires Distinct(activeChannels)
      modifies this
      ensures Continues() && pc.Enter? && old(pushed) <= pushed && Did([], activeChannels, [])
    {
      for i := 0 to |activeChannels|
        invariant Continues() && old(pushed) <= pushed && Did([], activeChannels[..i], [])
        invariant pc == Dispatch(EventfdChannel in activeChannels[i..])
      {
        assert activeChannels[i..] == [activeChannels[i]] + activeChannels[i + 1..];
        ghost var mark, soFar := used, book;
        HandleEvent(activeChannels[i]);
        ProgressGoesOn(user, old(used), old(book), mark, soFar, used, book, [], [], activeChannels[..i], [activeChannels[i]]);
        assert activeChannels[..i + 1] == activeChannels[..i] + [activeChannels[i]];
      }
      Environment(LoopThread);
      EndDispatch();
    }

    method EndDispatch()
      requires Valid() && pc == Dispatch(false)
      modifies this
      ensures Took(DispatchDone) && View() == old(View()).(pc := Enter)
    {
      ghost var before := View();
      pc := Enter;
      Log(before, DispatchDone);
    }

    method EnterLoop()
      requires Valid() && (pc.Before? || pc.Stopped?) && !ownPushed
      modifies this
      ensures Took(StartLoop) && View() == old(View()).(pc := CheckQuit)
    {
      ghost var before := View();
      pc := CheckQuit;
      Log(before, StartLoop);
    }

    /** `while(!_quit)`. */
    method QuitRequested() returns (stop: bool)
      requires Valid() && pc.CheckQuit?
      modifies this
      ensures Took(TestQuit) && stop == quit
      ensures View() == old(View()).(pc := if stop then Stopped else LoopPc.Poll)
    {
      ghost var before := View();
      stop := quit;
      pc := if stop then Stopped else LoopPc.Poll;
      Log(before, TestQuit);
    }

    /** `loop()`, observed for at most `rounds` iterations: it stops only on `_quit`, every full
        iteration executes whatever had been queued before it, and exactly the channels that each
        `poll` returned are handled, in that order. */
    method Loop(rounds: nat) returns (ghost turns: seq<seq<Active>>)
      requires Valid() && (pc.Before? || pc.Stopped?) && !ownPushed
      modifies this
      ensures Continues() && (pc.Stopped? || pc.CheckQuit?) && Did(turns, Flat(turns), [])
      ensures |turns| <= rounds && (pc.CheckQuit? ==> |turns| == rounds)
      ensures pc.Stopped? ==> quit
      ensures pc.CheckQuit? && rounds > 0 ==> old(pushed) <= executed
    {
      turns := [];
      EnterLoop();
      for round := 0 to rounds
        invariant Continues() && pc.CheckQuit? && old(pushed) <= pushed && Did(turns, Flat(turns), [])
        invariant |turns| == round
        invariant round > 0 ==> old(pushed) <= executed
      {
        Environment(LoopThread);
        var stop := QuitRequested();
        if stop {
          return;
        }
        ghost var mark, soFar := used, book;
        ghost var more := Iterate();
        ProgressGoesOn(user, old(used), old(book), mark, soFar, used, book, turns, [more], Flat(turns), more);
        FlatSnoc(turns, more);
        turns := turns + [more];
      }
    }

    /** The body of the loop. */
    method Iterate() returns (ghost active: seq<Active>)
      requires Valid() && pc.Poll?
      modifies this
      ensures Continues() && pc.CheckQuit? && old(pushed) <= executed <= pushed && Did([active], active, [])
    {
      active := PollAndDispatch();
      ghost var mark, soFar := used, book;
      var _ := DoPendingFunctors();
      ProgressGoesOn(user, old(used), old(book), mark, soFar, used, book, [active], [], active, []);
    }

    method PollAndDispatch() returns (ghost active: seq<Active>)
      requires Valid() && pc.Poll?
      modifies this
      ensures Continues() && pc.Enter? && old(pushed) <= pushed && Did([active], active, [])
    {
      var activeChannels := Poll();
      active := activeChannels;
      ghost var mark, soFar := used, book;
      DispatchEvents(activeChannels);
      ProgressGoesOn(user, old(used), old(book), mark, soFar, used, book, [active], [], [], active);
    }
  }
}
