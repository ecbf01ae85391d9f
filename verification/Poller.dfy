/** `Channel` and `Epoll`: which events of a descriptor the kernel watches, and how the channel's
    index chooses between adding, modifying and deleting its registration. */
module Poller {
  import opened Util

  const EPOLLIN: bv32 := 0x1
  const EPOLLOUT: bv32 := 0x4

  const K_NEW: int := -1
  const K_ADDED: int := 1
  const K_DELETED: int := 2

  /** The interest mask of a channel; the code only ever sets and clears these two bits. */
  datatype Events = Events(reading: bool, writing: bool)

  const NO_EVENTS := Events(false, false)

  function Bits(e: Events): bv32 {
    (if e.reading then EPOLLIN else 0) | (if e.writing then EPOLLOUT else 0)
  }

  /** The code's `|=` and `&= ~` on the mask are the updates of the two flags. */
  lemma BitsOfUpdates(e: Events)
    ensures Bits(e.(reading := true)) == Bits(e) | EPOLLIN && Bits(e.(reading := false)) == Bits(e) & !EPOLLIN
    ensures Bits(e.(writing := true)) == Bits(e) | EPOLLOUT && Bits(e.(writing := false)) == Bits(e) & !EPOLLOUT
    ensures e.writing <==> Bits(e) & EPOLLOUT != 0
    ensures e.reading <==> Bits(e) & EPOLLIN != 0
  {
  }

  /** A channel's index and what the kernel holds for its descriptor. */
  datatype Registration = Registration(index: int, interest: Option<Events>)

  /** `Epoll::update` for one descriptor: ADD fails on a known descriptor, MOD and DEL on an
      unknown one. */
  function Updated(r: Registration, events: Events): Registration {
    if r.index == K_NEW then
      Registration(K_ADDED, if r.interest.None? then Some(events) else r.interest)
    else if r.index == K_ADDED then
      r.(interest := if r.interest.Some? then Some(events) else None)
    else if r.index == K_DELETED then
      r.(interest := None)
    else r
  }

  /** What holds between two updates: a live channel is watched for exactly its own events, any
      other channel not at all. */
  predicate InStep(r: Registration, events: Events) {
    match r.interest
    case Some(e) => r.index == K_ADDED && e == events
    case None => r.index == K_NEW || r.index == K_DELETED
  }

  /** After any update the registration is in step again, and a deleted channel stays unwatched. */
  lemma UpdateBringsInStep(r: Registration, before: Events, events: Events)
    requires InStep(r, before)
    ensures InStep(Updated(r, events), events)
    ensures Updated(r, events).interest.Some? <==> r.index != K_DELETED
  {
  }

  class Epoll {
    var interest: map<int, Events>

    constructor ()
      ensures interest == map[]
    {
      interest := map[];
    }

    function Of(fd: int): Option<Events>
      reads this
    {
      if fd in interest then Some(interest[fd]) else None
    }

    method Add(fd: int, events: Events)
      modifies this
      ensures interest == if fd in old(interest) then old(interest) else old(interest)[fd := events]
    {
      if fd !in interest {
        interest := interest[fd := events];
      }
    }

    method Modify(fd: int, events: Events)
      modifies this
      ensures interest == if fd in old(interest) then old(interest)[fd := events] else old(interest)
    {
      if fd in interest {
        interest := interest[fd := events];
      }
    }

    method Delete(fd: int)
      modifies this
      ensures interest == old(interest) - {fd}
    {
      interest := interest - {fd};
    }

    method Update(channel: Channel)
      modifies this, channel`index
      ensures channel.Registered(this) == Updated(old(channel.Registered(this)), channel.events)
      ensures interest - {channel.sockfd} == old(interest) - {channel.sockfd}
    {
      var fd, index := channel.sockfd, channel.index;
      if index == K_NEW {
        channel.index := K_ADDED;
        Add(fd, channel.events);
      } else if index == K_ADDED {
        Modify(fd, channel.events);
      } else if index == K_DELETED {
        Delete(fd);
      }
    }
  }

  class Channel {
    const sockfd: int
    const poller: Epoll
    var events: Events
    var index: int

    constructor (poller: Epoll, sockfd: int)
      ensures this.poller == poller && this.sockfd == sockfd
      ensures events == NO_EVENTS && index == K_NEW
    {
      this.poller, this.sockfd := poller, sockfd;
      events, index := NO_EVENTS, K_NEW;
    }

    function Registered(epoll: Epoll): Registration
      reads this, epoll
    {
      Registration(index, epoll.Of(sockfd))
    }

    twostate predicate Changed(newEvents: Events)
      reads this, poller
    {
      && events == newEvents
      && Registered(poller) == Updated(old(Registered(poller)), newEvents)
      && poller.interest - {sockfd} == old(poller.interest) - {sockfd}
    }

    predicate IsWriting()
      reads this
    {
      events.writing
    }

    method SetIndex(newIndex: int)
      modifies this`index
      ensures index == newIndex
    {
      index := newIndex;
    }

    method EnableReading()
      modifies this, poller
      ensures Changed(old(events).(reading := true))
    {
      events := events.(reading := true);
      poller.Update(this);
    }

    method DisableReading()
      modifies this, poller
      ensures Changed(old(events).(reading := false))
    {
      events := events.(reading := false);
      poller.Update(this);
    }

    method EnableWriting()
      modifies this, poller
      ensures Changed(old(events).(writing := true))
    {
      events := events.(writing := true);
      poller.Update(this);
    }

    method DisableWriting()
      modifies this, poller
      ensures Changed(old(events).(writing := false))
    {
      events := events.(writing := false);
      poller.Update(this);
    }

    method DisableAll()
      modifies this, poller
      ensures Changed(NO_EVENTS)
    {
      events := NO_EVENTS;
      poller.Update(this);
    }
  }
}
