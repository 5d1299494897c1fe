/** Channels and their poller as objects. What the kernel keeps is ghost state of the
    poller. */
module EpollPollers {
  import opened Options
  import opened Registration

  const INIT_EVENTS_SIZE: nat := 16

  /** What epoll_wait reports: the channel handed over, and what is ready. */
  datatype Event = Event(ptr: Channel, revents: bv32)

  class Channel {
    const loop: EpollPoller
    const fd: int
    var events: bv32
    var revents: bv32
    var flag: Flag
    var addedToLoop: bool

    constructor (loop: EpollPoller, fd: int)
      modifies loop`live
      ensures this.loop == loop && this.fd == fd && this in loop.live
      ensures Next(old(loop.View()), Step.Create(this, fd)) == Some(loop.View())
    {
      this.loop, this.fd := loop, fd;
      events, revents, flag, addedToLoop := NO_EVENT, 0, New, false;
      new;
      loop.live := loop.live + {this};
      assert loop.View().chans == old(loop.View()).chans[this := AsChan()];
    }

    /** The channel as the registration sees it. */
    ghost function AsChan(): Chan
      reads this
    {
      Chan(fd, events, flag, addedToLoop)
    }

    /** The calls of one loop are made on its own live channels. */
    ghost predicate Ready(op: Op)
      reads this, loop, loop.live
    {
      this in loop.live && Agreement(loop.View()) && Legal(loop.View(), Step.Call(this, op))
    }

    /** The registration after the call. */
    ghost function After(op: Op): View<Channel>
      requires Ready(op)
      reads this, loop, loop.live
      ensures Agreement(After(op)) && Apply(loop.View(), this, op) == Some(After(op))
    {
      StepAgrees(loop.View(), Step.Call(this, op));
      Apply(loop.View(), this, op).value
    }

    /** The registration once the channel is marked as added, before the poller is told. */
    ghost function Marked(): View<Channel>
      reads this, loop, loop.live
    {
      loop.View().(chans := loop.View().chans[this := AsChan().(addedToLoop := true)])
    }

    /** Hands the new mask to the poller. */
    method Update()
      requires this in loop.live && Registration.UpdateChannel(Marked(), this).Some?
      modifies this`addedToLoop, this`flag, loop
      ensures old(this in loop.live)
      ensures Some(loop.View()) == old(Registration.UpdateChannel(Marked(), this))
      ensures loop.live == old(loop.live)
    {
      addedToLoop := true;
      assert loop.View().chans == old(loop.View()).chans[this := AsChan()];
      loop.UpdateChannel(this);
    }

    method EnableReading()
      requires Ready(Op.EnableReading)
      modifies this, loop
      ensures loop.View() == old(After(Op.EnableReading)) && Agreement(loop.View())
      ensures loop.live == old(loop.live)
    {
      hide Registration.UpdateChannel, Apply, Agreement, Legal, With, Without;
      ghost var v, after := loop.View(), After(Op.EnableReading);
      ApplyUpdates(v, this, Op.EnableReading);
      events := With(events, READ_EVENT);
      assert Marked() == Asked(v, this, Op.EnableReading);
      Update();
    }

    method DisableReading()
      requires Ready(Op.DisableReading)
      modifies this, loop
      ensures loop.View() == old(After(Op.DisableReading)) && Agreement(loop.View())
      ensures loop.live == old(loop.live)
    {
      hide Registration.UpdateChannel, Apply, Agreement, Legal, With, Without;
      ghost var v, after := loop.View(), After(Op.DisableReading);
      ApplyUpdates(v, this, Op.DisableReading);
      events := Without(events, READ_EVENT);
      assert Marked() == Asked(v, this, Op.DisableReading);
      Update();
    }

    method EnableWriting()
      requires Ready(Op.EnableWriting)
      modifies this, loop
      ensures loop.View() == old(After(Op.EnableWriting)) && Agreement(loop.View())
      ensures loop.live == old(loop.live)
    {
      hide Registration.UpdateChannel, Apply, Agreement, Legal, With, Without;
      ghost var v, after := loop.View(), After(Op.EnableWriting);
      ApplyUpdates(v, this, Op.EnableWriting);
      events := With(events, WRITE_EVENT);
      assert Marked() == Asked(v, this, Op.EnableWriting);
      Update();
    }

    method DisableWriting()
      requires Ready(Op.DisableWriting)
      modifies this, loop
      ensures loop.View() == old(After(Op.DisableWriting)) && Agreement(loop.View())
      ensures loop.live == old(loop.live)
    {
      hide Registration.UpdateChannel, Apply, Agreement, Legal, With, Without;
      ghost var v, after := loop.View(), After(Op.DisableWriting);
      ApplyUpdates(v, this, Op.DisableWriting);
      events := Without(events, WRITE_EVENT);
      assert Marked() == Asked(v, this, Op.DisableWriting);
      Update();
    }

    method DisableAll()
      requires Ready(Op.DisableAll)
      modifies this, loop
      ensures loop.View() == old(After(Op.DisableAll)) && Agreement(loop.View())
      ensures loop.live == old(loop.live)
    {
      hide Registration.UpdateChannel, Apply, Agreement, Legal, With, Without;
      ghost var v, after := loop.View(), After(Op.DisableAll);
      ApplyUpdates(v, this, Op.DisableAll);
      events := NO_EVENT;
      assert Marked() == Asked(v, this, Op.DisableAll);
      Update();
    }

    method Remove()
      requires Ready(Op.Remove)
      modifies this, loop
      ensures loop.View() == old(After(Op.Remove)) && Agreement(loop.View())
      ensures loop.live == old(loop.live)
    {
      ghost var v, after := loop.View(), After(Op.Remove);
      assert events == NO_EVENT;
      addedToLoop := false;
      assert loop.View().chans == v.chans[this := AsChan()];
      loop.RemoveChannel(this);
    }

    /** The destructor: a channel still added to its loop may not be destroyed. */
    ghost method Destroy()
      requires this in loop.live && Agreement(loop.View()) && Legal(loop.View(), Step.Destroy(this))
      modifies loop`live
      ensures old(this in loop.live && Next(loop.View(), Step.Destroy(this)).Some?)
      ensures loop.View() == old(Next(loop.View(), Step.Destroy(this)).value) && Agreement(loop.View())
    {
      StepAgrees(loop.View(), Step.Destroy(this));
      loop.live := loop.live - {this};
      assert loop.View().chans == old(loop.View()).chans - {this};
    }
  }

  /** The registration with c's mask as op leaves it. */
  function Asked(v: View<Channel>, c: Channel, op: Op): View<Channel>
    requires c in v.chans
  {
    v.(chans := v.chans[c := v.chans[c].(events := Masked(v.chans[c].events, op), addedToLoop := true)])
  }

  lemma ApplyUpdates(v: View<Channel>, c: Channel, op: Op)
    requires c in v.chans && op != Op.Remove
    ensures Apply(v, c, op) == Registration.UpdateChannel(Asked(v, c, op), c)
  {
  }

  /** epoll_ctl and the channels' own state do not touch each other. */
  lemma CtlApart(v: View<Channel>, chans: map<Channel, Chan>, op: Ctl, fd: int, events: bv32, c: Channel)
    ensures EpollCtl(v.(chans := chans), op, fd, events, c) == EpollCtl(v, op, fd, events, c).(chans := chans)
    ensures EpollCtl(v, op, fd, events, c).chans == v.chans
  {
  }

  class EpollPoller {
    var eventsSize: nat
    var channels: map<int, Channel>
    ghost var live: set<Channel>
    ghost var kernel: map<int, Interest<Channel>>
    ghost var errors: nat

    constructor ()
      ensures eventsSize == 16 && live == {}
      ensures Run([]) == Some(View())
    {
      eventsSize := INIT_EVENTS_SIZE;
      channels, live, kernel, errors := map[], {}, map[], 0;
    }

    ghost function View(): View<Channel>
      reads this, live
    {
      Registration.View(map c | c in live :: c.AsChan(), channels, kernel, errors)
    }

    method UpdateInEpoll(op: Ctl, channel: Channel)
      modifies this`kernel, this`errors
      ensures View() == EpollCtl(old(View()), op, channel.fd, channel.events, channel)
    {
      if (op == Add) == (channel.fd in kernel) {
        errors := errors + 1;
      } else if op == Del {
        kernel := kernel - {channel.fd};
      } else {
        kernel := kernel[channel.fd := Interest(channel.events, channel)];
      }
    }

    method UpdateChannel(channel: Channel)
      requires channel in live && Registration.UpdateChannel(View(), channel).Some?
      modifies this`channels, this`kernel, this`errors, channel`flag
      ensures old(channel in View().chans && Registration.UpdateChannel(View(), channel).Some?)
      ensures View() == old(Registration.UpdateChannel(View(), channel).value)
    {
      var fd := channel.fd;
      match channel.flag
      case New =>
        assert fd !in channels;
        assert channel.events != NO_EVENT;
        channels := channels[fd := channel];
        channel.flag := Added;
        assert View().chans == old(View()).chans[channel := channel.AsChan()];
        UpdateInEpoll(Add, channel);
      case Deleted =>
        assert fd in channels && channels[fd] == channel;
        assert channel.events != NO_EVENT;
        channel.flag := Added;
        assert View().chans == old(View()).chans[channel := channel.AsChan()];
        UpdateInEpoll(Add, channel);
      case Added =>
        assert fd in channels && channels[fd] == channel;
        if channel.events == NO_EVENT {
          UpdateInEpoll(Del, channel);
          channel.flag := Deleted;
          assert View().chans == old(View()).chans[channel := channel.AsChan()];
        } else {
          UpdateInEpoll(Mod, channel);
        }
    }

    method RemoveChannel(channel: Channel)
      requires channel in live && Registration.RemoveChannel(View(), channel).Some?
      modifies this`channels, this`kernel, this`errors, channel`flag
      ensures old(channel in live)
      ensures Some(View()) == old(Registration.RemoveChannel(View(), channel))
    {
      var flag, fd := channel.flag, channel.fd;
      assert fd in channels && channels[fd] == channel;
      assert channel.events == NO_EVENT && flag != New;
      ghost var v := View();
      channels := channels - {fd};
      assert View() == v.(fds := v.fds - {fd});
      ghost var chans := v.chans[channel := channel.AsChan().(flag := New)];
      CtlApart(View(), chans, Del, fd, channel.events, channel);
      hide EpollCtl;
      if flag == Added {
        UpdateInEpoll(Del, channel);
      }
      channel.flag := New;
      assert View().chans == chans;
    }

    lemma RegisteredBy(fd: int)
      ensures Agreement(View()) ==> (fd in channels <==> exists d :: d in live && d.fd == fd && d.flag != New)
    {
      if Agreement(View()) && fd in channels {
        var d := channels[fd];
        assert d in View().chans && View().chans[d] == d.AsChan();
      }
      forall d | Agreement(View()) && d in live && d.fd == fd && d.flag != New
        ensures fd in channels
      {
        assert d in View().chans && View().chans[d] == d.AsChan();
      }
    }

    /** Whether the channel's descriptor is registered, by whatever channel. */
    function HasChannel(channel: Channel): (has: bool)
      reads this, live
      ensures Agreement(View()) ==> (has <==> exists d :: d in live && d.fd == channel.fd && d.flag != New)
    {
      RegisteredBy(channel.fd);
      channel.fd in channels
    }

    /** What epoll_wait may report: each descriptor of the interest set at most once. */
    ghost predicate Reported(events: seq<Event>)
      reads this
    {
      && |events| <= eventsSize
      && (forall i :: 0 <= i < |events| ==> exists fd :: fd in kernel && kernel[fd].chan == events[i].ptr)
      && (forall i, j :: 0 <= i < j < |events| ==> events[i].ptr != events[j].ptr)
    }

    /** Both lookups poll asserts find the channel it was handed. */
    lemma ReportedAreKnown(events: seq<Event>)
      requires Agreement(View()) && Reported(events)
      ensures forall i :: 0 <= i < |events| ==>
                events[i].ptr.fd in channels && channels[events[i].ptr.fd] == events[i].ptr
      ensures forall i, j :: 0 <= i < j < |events| ==> events[i].ptr != events[j].ptr
    {
      forall i | 0 <= i < |events|
        ensures events[i].ptr.fd in channels && channels[events[i].ptr.fd] == events[i].ptr
      {
        var fd :| fd in kernel && kernel[fd].chan == events[i].ptr;
        assert View().chans[events[i].ptr].fd == fd;
      }
    }

    /** Collects the ready channels, and doubles the array when it came back full. */
    method Poll(events: seq<Event>, activeChannels: seq<Channel>) returns (active: seq<Channel>)
      requires Agreement(View()) && Reported(events) && eventsSize >= INIT_EVENTS_SIZE
      modifies this`eventsSize, (set i | 0 <= i < |events| :: events[i].ptr)`revents
      ensures View() == old(View())
      ensures |active| == |activeChannels| + |events| && active[..|activeChannels|] == activeChannels
      ensures forall i :: 0 <= i < |events| ==>
                active[|activeChannels| + i] == events[i].ptr && events[i].ptr.revents == events[i].revents
      ensures eventsSize == if |events| == old(eventsSize) then 2 * old(eventsSize) else old(eventsSize)
      ensures eventsSize >= INIT_EVENTS_SIZE
    {
      ReportedAreKnown(events);
      hide Agreement, Reported;
      active := Collect(events, activeChannels);
      assert View() == old(View()) by {
        assert View().chans == old(View()).chans;
      }
      hide EpollPoller.View;
      Grow(|events|);
    }

    /** Doubles the array when it came back full. */
    method Grow(numEvents: nat)
      modifies this`eventsSize
      ensures eventsSize == if numEvents == old(eventsSize) then 2 * old(eventsSize) else old(eventsSize)
      ensures View() == old(View())
    {
      if numEvents == eventsSize {
        eventsSize := eventsSize * 2;
      }
    }

    /** The loop of poll. */
    method Collect(events: seq<Event>, activeChannels: seq<Channel>) returns (active: seq<Channel>)
      requires forall i :: 0 <= i < |events| ==>
                 events[i].ptr.fd in channels && channels[events[i].ptr.fd] == events[i].ptr
      requires forall i, j :: 0 <= i < j < |events| ==> events[i].ptr != events[j].ptr
      modifies (set i | 0 <= i < |events| :: events[i].ptr)`revents
      ensures |active| == |activeChannels| + |events| && active[..|activeChannels|] == activeChannels
      ensures forall i :: 0 <= i < |events| ==>
                active[|activeChannels| + i] == events[i].ptr && events[i].ptr.revents == events[i].revents
    {
      active := activeChannels;
      for n := 0 to |events|
        invariant |active| == |activeChannels| + n && active[..|activeChannels|] == activeChannels
        invariant forall i :: 0 <= i < n ==>
                    active[|activeChannels| + i] == events[i].ptr && events[i].ptr.revents == events[i].revents
      {
        var channel := events[n].ptr;
        assert channel.fd in channels && channels[channel.fd] == channel;
        channel.revents := events[n].revents;
        active := active + [channel];
      }
    }
  }
}
