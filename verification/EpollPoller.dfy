/** Channels and the poller as objects: each call changes the channel's mask, then the poller's map and
    the kernel's table.  A ghost state says which step of `PollerSpec` it is. */
module EpollPoller {
  import opened PollerSpec

  /** An epoll instance.  Its calls ask for what makes them legal, so no caller here makes an illegal one. */
  class Epoll {
    ghost var table: map<int, bv32>

    constructor ()
      ensures table == map[]
    {
      table := map[];
    }

    method Control(op: Ctl, fd: int, events: bv32)
      requires op == Add <==> fd !in table
      modifies this
      ensures table == if op == Del then old(table) - {fd} else old(table)[fd := events]
    {
      table := if op == Del then table - {fd} else table[fd := events];
    }
  }

  class Channel {
    const fd: int
    var events: bv32
    var status: Status

    constructor (fd: int)
      ensures this.fd == fd && events == 0 && status == New
    {
      this.fd := fd;
      events, status := 0, New;
    }

    /** The first half of enableReading and the others. */
    method SetEvents(call: Call)
      requires call != Remove
      modifies this`events
      ensures events == Mask(call, old(events))
    {
      match call
      case EnableReading => events := events | (READ | CLOSE);
      case EnableWriting => events := events | (WRITE | CLOSE);
      case DisableReading => events := events & !READ;
      case DisableWriting => events := events & !WRITE;
      case DisableAll => events := NONE;
    }

    function IsNoneEvent(): bool
      reads this`events
    {
      events == NONE
    }
  }

  class EpollPoller {
    var channels: map<int, Channel>
    const epoll: Epoll
    ghost var known: map<int, Channel>
    ghost var all: set<Channel>
    ghost var state: Poller

    /** The known channels are those of the state, under their descriptors. */
    ghost predicate Matches()
      reads this, all`events, all`status, epoll
    {
      && known.Keys == state.chans.Keys
      && (forall fd {:trigger known[fd]} :: fd in known ==>
            known[fd] in all && known[fd].fd == fd && Chan(known[fd].status, known[fd].events) == state.chans[fd])
      && channels.Keys == state.channels
      && (forall fd :: fd in channels ==> fd in known && channels[fd] == known[fd])
      && epoll.table == state.kernel
    }

    ghost predicate Valid()
      reads this, all`events, all`status, epoll
    {
      Matches() && Consistent(state)
    }

    ghost predicate Has(c: Channel)
      reads this
    {
      c.fd in known && known[c.fd] == c
    }

    constructor ()
      ensures Valid() && fresh(epoll) && known == map[] && all == {} && Fresh(state)
    {
      channels, known, all := map[], map[], {};
      epoll := new Epoll();
      state := Poller(map[], {}, map[], true);
    }

    /** A channel made for this poller; its descriptor is not that of another. */
    method NewChannel(fd: int) returns (c: Channel)
      requires Valid() && fd !in known
      modifies this`known, this`all, this`state
      ensures Valid() && fresh(c) && Has(c) && all == old(all) + {c}
      ensures state == old(state).(chans := old(state).chans[fd := Chan(New, NONE)])
    {
      c := new Channel(fd);
      known, all := known[fd := c], all + {c};
      ghost var before := state;
      state := state.(chans := state.chans[fd := Chan(New, NONE)]);
      assert fd !in before.chans;
      forall f | f in state.chans ensures ChanOk(state, f) {
        if f != fd { assert ChanOk(before, f); }
      }
    }

    method UpdateChannel(channel: Channel)
      requires Matches() && Has(channel) && (channel.fd in epoll.table <==> channel.status == Added)
      modifies this`channels, this`state, channel`status, epoll
      ensures Matches() && state == PollerSpec.UpdateChannel(old(state), channel.fd)
    {
      ghost var s := state;
      var status := channel.status;
      if status == New || status == Deleted {
        if status == New {
          channels := channels[channel.fd := channel];
        }
        channel.status := Added;
        epoll.Control(Add, channel.fd, channel.events);
      } else if channel.IsNoneEvent() {
        epoll.Control(Del, channel.fd, channel.events);
        channel.status := Deleted;
      } else {
        epoll.Control(Mod, channel.fd, channel.events);
      }
      state := PollerSpec.UpdateChannel(s, channel.fd);
    }

    method RemoveChannel(channel: Channel)
      requires Valid() && Has(channel)
      modifies this`channels, this`state, channel`status, epoll
      ensures Valid() && state == PollerSpec.RemoveChannel(old(state), channel.fd)
      ensures channel.fd !in channels && channel.fd !in epoll.table && channel.status == New
    {
      ghost var s := state;
      RemoveKeeps(s, channel.fd);
      assert ChanOk(s, channel.fd);
      channels := channels - {channel.fd};
      if channel.status == Added {
        epoll.Control(Del, channel.fd, channel.events);
      }
      channel.status := New;
      state := PollerSpec.RemoveChannel(s, channel.fd);
    }

    /** Channel::enableReading and the others: the mask, then update(). */
    method SetMask(channel: Channel, call: Call)
      requires Valid() && Has(channel) && call != Remove
      modifies this`channels, this`state, channel`status, channel`events, epoll
      ensures Valid() && state == Do(old(state), channel.fd, call)
      ensures channel.fd in channels && channels[channel.fd] == channel
      ensures channel.fd in epoll.table ==> epoll.table[channel.fd] == channel.events
    {
      ghost var s := state;
      StepKeeps(s, channel.fd, call);
      assert ChanOk(s, channel.fd);
      channel.SetEvents(call);
      state := PollerSpec.SetEvents(s, channel.fd, Mask(call, s.chans[channel.fd].events));
      UpdateChannel(channel);
    }

    /** Poller::hasChannel, for any channel: whether it is this poller's and has been updated since it was new. */
    function HasChannel(channel: Channel): (r: bool)
      requires Valid()
      reads this, all`events, all`status, epoll, channel`status
      ensures r <==> Has(channel) && channel.status != New
    {
      if channel.fd in channels then
        assert ChanOk(state, channel.fd);
        channels[channel.fd] == channel
      else
        assert channel.fd in known ==> ChanOk(state, channel.fd);
        false
    }
  }
}
