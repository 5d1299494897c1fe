/** Registering channels with epoll: each channel's flag and mask, the poller's map of
    descriptors and the kernel's interest set, and how every call changes the three. */
module Registration {
  import opened Options

  datatype Flag = New | Added | Deleted

  const POLLIN: bv32 := 1
  const POLLPRI: bv32 := 2
  const POLLOUT: bv32 := 4
  const READ_EVENT: bv32 := POLLIN | POLLPRI
  const WRITE_EVENT: bv32 := POLLOUT
  const NO_EVENT: bv32 := 0
  const OTHER_EVENTS: bv32 := 0xFFFF_FFF8

  datatype Chan = Chan(fd: int, events: bv32, flag: Flag, addedToLoop: bool)

  /** What the kernel keeps for a descriptor: the mask and the channel handed over. */
  datatype Interest<C> = Interest(mask: bv32, chan: C)

  /** The live channels, the poller's map, the kernel's set, and how many epoll_ctl
      calls failed. */
  datatype View<!C> = View(chans: map<C, Chan>, fds: map<int, C>, kernel: map<int, Interest<C>>, errors: nat)

  datatype Ctl = Add | Mod | Del

  /** epoll_ctl: ADD fails on a descriptor already there, MOD and DEL on an absent one. */
  function EpollCtl<C>(v: View<C>, op: Ctl, fd: int, events: bv32, c: C): View<C> {
    if (op == Add) == (fd in v.kernel) then v.(errors := v.errors + 1)
    else if op == Del then v.(kernel := v.kernel - {fd})
    else v.(kernel := v.kernel[fd := Interest(events, c)])
  }

  /** EpollPoller::updateChannel; None when an assert fails. */
  function UpdateChannel<C>(v: View<C>, c: C): Option<View<C>>
    requires c in v.chans
  {
    var ch := v.chans[c];
    match ch.flag
    case New =>
      if ch.fd in v.fds || ch.events == NO_EVENT then None
      else
        var w := v.(chans := v.chans[c := ch.(flag := Added)], fds := v.fds[ch.fd := c]);
        Some(EpollCtl(w, Add, ch.fd, ch.events, c))
    case Deleted =>
      if ch.fd !in v.fds || v.fds[ch.fd] != c || ch.events == NO_EVENT then None
      else Some(EpollCtl(v.(chans := v.chans[c := ch.(flag := Added)]), Add, ch.fd, ch.events, c))
    case Added =>
      if ch.fd !in v.fds || v.fds[ch.fd] != c then None
      else if ch.events == NO_EVENT then
        Some(EpollCtl(v.(chans := v.chans[c := ch.(flag := Deleted)]), Del, ch.fd, ch.events, c))
      else Some(EpollCtl(v, Mod, ch.fd, ch.events, c))
  }

  /** EpollPoller::removeChannel; None when an assert fails. */
  function RemoveChannel<C>(v: View<C>, c: C): Option<View<C>>
    requires c in v.chans
  {
    var ch := v.chans[c];
    if ch.fd !in v.fds || v.fds[ch.fd] != c || ch.events != NO_EVENT || ch.flag == New then None
    else
      var w := v.(chans := v.chans[c := ch.(flag := New)], fds := v.fds - {ch.fd});
      if ch.flag == Added then Some(EpollCtl(w, Del, ch.fd, ch.events, c)) else Some(w)
  }

  datatype Op = EnableReading | DisableReading | EnableWriting | DisableWriting | DisableAll | Remove

  function With(events: bv32, mask: bv32): bv32 {
    events | mask
  }

  function Without(events: bv32, mask: bv32): bv32 {
    events & !mask
  }

  /** The mask a call leaves in the channel. */
  function Masked(events: bv32, op: Op): bv32 {
    match op
    case EnableReading => With(events, READ_EVENT)
    case DisableReading => Without(events, READ_EVENT)
    case EnableWriting => With(events, WRITE_EVENT)
    case DisableWriting => Without(events, WRITE_EVENT)
    case DisableAll => NO_EVENT
    case Remove => events
  }

  /** A call on channel c; None when an assert fails. */
  function Apply<C>(v: View<C>, c: C, op: Op): Option<View<C>>
    requires c in v.chans
  {
    var ch := v.chans[c];
    if op == Remove then
      if ch.events != NO_EVENT then None
      else RemoveChannel(v.(chans := v.chans[c := ch.(addedToLoop := false)]), c)
    else
      UpdateChannel(v.(chans := v.chans[c := ch.(events := Masked(ch.events, op), addedToLoop := true)]), c)
  }

  /** What happens to a loop: channels come, are used and go. */
  datatype Step<C> = Create(c: C, fd: int) | Call(c: C, op: Op) | Destroy(c: C)

  /** One step; None when an assert fails. A channel is created once and not used after
      it is destroyed. */
  function Next<C>(v: View<C>, s: Step<C>): Option<View<C>> {
    match s
    case Create(c, fd) =>
      if c in v.chans then None else Some(v.(chans := v.chans[c := Chan(fd, NO_EVENT, New, false)]))
    case Call(c, op) => if c in v.chans then Apply(v, c, op) else None
    case Destroy(c) =>
      if c !in v.chans || v.chans[c].addedToLoop then None else Some(v.(chans := v.chans - {c}))
  }

  /** What a caller can check beforehand: a channel takes a descriptor only while no
      other channel has it, only an interested channel may lose interest, and only one
      that lost all its interest may be removed. */
  predicate Legal<C>(v: View<C>, s: Step<C>) {
    match s
    case Create(c, _) => c !in v.chans
    case Call(c, op) =>
      c in v.chans &&
      (match op
       case EnableReading => v.chans[c].flag == New ==> v.chans[c].fd !in v.fds
       case EnableWriting => v.chans[c].flag == New ==> v.chans[c].fd !in v.fds
       case Remove => v.chans[c].flag == Deleted
       case _ => v.chans[c].flag == Added)
    case Destroy(c) => c in v.chans && v.chans[c].flag == New
  }

  // ---- The three views agree.

  ghost predicate FlagsAgree<C>(v: View<C>) {
    && (forall c :: c in v.chans ==> (v.chans[c].flag == Added <==> v.chans[c].events != NO_EVENT))
    && (forall c :: c in v.chans ==> (v.chans[c].addedToLoop <==> v.chans[c].flag != New))
  }

  /** The map holds exactly the channels that were added and not removed. */
  ghost predicate MapAgrees<C>(v: View<C>) {
    && (forall fd :: fd in v.fds ==>
          v.fds[fd] in v.chans && v.chans[v.fds[fd]].fd == fd && v.chans[v.fds[fd]].flag != New)
    && (forall c :: c in v.chans && v.chans[c].flag != New ==> v.chans[c].fd in v.fds && v.fds[v.chans[c].fd] == c)
  }

  /** The kernel holds exactly the added channels, with their masks of now. */
  ghost predicate KernelAgrees<C>(v: View<C>) {
    && v.errors == 0
    && (forall fd :: fd in v.kernel ==> fd in v.fds && v.fds[fd] in v.chans && v.chans[v.fds[fd]].flag == Added
                                        && v.kernel[fd] == Interest(v.chans[v.fds[fd]].events, v.fds[fd]))
    && (forall c :: c in v.chans && v.chans[c].flag == Added ==> v.chans[c].fd in v.kernel)
  }

  ghost predicate Agreement<C>(v: View<C>) {
    FlagsAgree(v) && MapAgrees(v) && KernelAgrees(v)
  }

  lemma ThreeParts()
    ensures READ_EVENT == 3 && WRITE_EVENT == 4
    ensures READ_EVENT & WRITE_EVENT == 0 && READ_EVENT & OTHER_EVENTS == 0 && WRITE_EVENT & OTHER_EVENTS == 0
    ensures READ_EVENT | WRITE_EVENT | OTHER_EVENTS == 0xFFFF_FFFF
  {
  }

  /** Each call turns its own interest on or off and leaves every other bit alone. */
  lemma MaskedMeans(events: bv32, op: Op)
    ensures Masked(events, op) & READ_EVENT == match op
      case EnableReading => READ_EVENT
      case DisableReading => NO_EVENT
      case DisableAll => NO_EVENT
      case _ => events & READ_EVENT
    ensures Masked(events, op) & WRITE_EVENT == match op
      case EnableWriting => WRITE_EVENT
      case DisableWriting => NO_EVENT
      case DisableAll => NO_EVENT
      case _ => events & WRITE_EVENT
    ensures Masked(events, op) & OTHER_EVENTS == if op == DisableAll then NO_EVENT else events & OTHER_EVENTS
  {
    MaskedReads(events, op);
    MaskedWrites(events, op);
    if op != DisableAll {
      hide Masked;
      MaskedOthers(events, op);
    }
  }

  lemma MaskedReads(events: bv32, op: Op)
    ensures Masked(events, op) & READ_EVENT == match op
      case EnableReading => READ_EVENT
      case DisableReading => NO_EVENT
      case DisableAll => NO_EVENT
      case _ => events & READ_EVENT
  {
  }

  lemma MaskedWrites(events: bv32, op: Op)
    ensures Masked(events, op) & WRITE_EVENT == match op
      case EnableWriting => WRITE_EVENT
      case DisableWriting => NO_EVENT
      case DisableAll => NO_EVENT
      case _ => events & WRITE_EVENT
  {
  }

  /** The bits outside the two interests are the same. */
  predicate Alike(a: bv32, b: bv32) {
    a & OTHER_EVENTS == b & OTHER_EVENTS
  }

  lemma MaskedOthers(events: bv32, op: Op)
    requires op != DisableAll
    ensures Alike(Masked(events, op), events)
  {
    WithOthers(events);
    WithoutOthers(events);
    hide Alike, With, Without;
  }

  lemma WithOthers(events: bv32)
    ensures Alike(With(events, READ_EVENT), events) && Alike(With(events, WRITE_EVENT), events)
    ensures Alike(events, events)
  {
  }

  lemma WithoutOthers(events: bv32)
    ensures Alike(Without(events, READ_EVENT), events) && Alike(Without(events, WRITE_EVENT), events)
  {
  }

  /** A mask within the two interests, whatever the calls. */
  lemma MaskedWithin(events: bv32, op: Op)
    requires events & OTHER_EVENTS == 0
    ensures Masked(events, op) & OTHER_EVENTS == 0
  {
    MaskedMeans(events, op);
    hide Masked;
  }

  /** Disabling undoes enabling. */
  lemma MaskedUndone()
    ensures Masked(NO_EVENT, EnableReading) == 3 && Masked(3, DisableReading) == NO_EVENT
    ensures Masked(NO_EVENT, EnableWriting) == 4 && Masked(4, DisableWriting) == NO_EVENT
  {
  }

  lemma MaskedSets(events: bv32)
    ensures Masked(events, EnableReading) != NO_EVENT && Masked(events, EnableWriting) != NO_EVENT
    ensures Masked(NO_EVENT, DisableReading) == NO_EVENT && Masked(NO_EVENT, DisableWriting) == NO_EVENT
  {
  }

  /** No assert fails exactly when the call is legal. */
  lemma AssertsHoldIffLegal<C>(v: View<C>, s: Step<C>)
    requires Agreement(v)
    ensures Next(v, s).Some? <==> Legal(v, s)
  {
    if s.Call? && s.c in v.chans {
      MaskedSets(v.chans[s.c].events);
    }
  }

  /** What a legal change of interest comes to: with interest left the channel is in the
      map and in the kernel's set with its mask, without it only in the map. */
  function Interested<C>(v: View<C>, c: C, events: bv32): View<C>
    requires c in v.chans
  {
    var fd := v.chans[c].fd;
    if events != NO_EVENT then
      v.(chans := v.chans[c := Chan(fd, events, Added, true)], fds := v.fds[fd := c],
         kernel := v.kernel[fd := Interest(events, c)])
    else v.(chans := v.chans[c := Chan(fd, NO_EVENT, Deleted, true)], kernel := v.kernel - {fd})
  }

  /** What a legal removal comes to. */
  function Forgotten<C>(v: View<C>, c: C): View<C>
    requires c in v.chans
  {
    v.(chans := v.chans[c := Chan(v.chans[c].fd, NO_EVENT, New, false)], fds := v.fds - {v.chans[c].fd})
  }

  /** Every legal change of interest ends the same way whatever the channel's flag was,
      so every epoll_ctl it makes is a valid one. */
  lemma ChangeIs<C>(v: View<C>, c: C, op: Op)
    requires Agreement(v) && op != Remove && Legal(v, Call(c, op))
    ensures Apply(v, c, op) == Some(Interested(v, c, Masked(v.chans[c].events, op)))
  {
    hide Masked;
    var ch, e := v.chans[c], Masked(v.chans[c].events, op);
    MaskedSets(ch.events);
    var w := v.(chans := v.chans[c := ch.(events := e, addedToLoop := true)]);
    assert Apply(v, c, op) == UpdateChannel(w, c);
    if e != NO_EVENT {
      assert w.chans[c := Chan(ch.fd, e, Added, true)] == v.chans[c := Chan(ch.fd, e, Added, true)];
      if ch.flag != New {
        assert v.fds[ch.fd := c] == v.fds;
      }
    } else {
      assert w.chans[c := Chan(ch.fd, e, Deleted, true)] == v.chans[c := Chan(ch.fd, e, Deleted, true)];
    }
  }

  /** A legal removal never reaches the kernel: the branch that would delete there is
      for a flag a channel without interest does not have. */
  lemma RemovalIs<C>(v: View<C>, c: C)
    requires Agreement(v) && Legal(v, Call(c, Remove))
    ensures Apply(v, c, Remove) == Some(Forgotten(v, c))
  {
    var ch := v.chans[c];
    assert v.chans[c := ch.(addedToLoop := false)][c := ch.(addedToLoop := false, flag := New)]
        == v.chans[c := ch.(addedToLoop := false, flag := New)];
  }

  lemma InterestedAgrees<C>(v: View<C>, c: C, events: bv32)
    requires Agreement(v) && c in v.chans && events != NO_EVENT
    requires v.chans[c].flag == New ==> v.chans[c].fd !in v.fds
    ensures Agreement(Interested(v, c, events))
  {
    InterestedInMap(v, c, events);
    InterestedInKernel(v, c, events);
  }

  lemma InterestedInMap<C>(v: View<C>, c: C, events: bv32)
    requires FlagsAgree(v) && MapAgrees(v) && c in v.chans && events != NO_EVENT
    requires v.chans[c].flag == New ==> v.chans[c].fd !in v.fds
    ensures FlagsAgree(Interested(v, c, events)) && MapAgrees(Interested(v, c, events))
  {
  }

  lemma InterestedInKernel<C>(v: View<C>, c: C, events: bv32)
    requires MapAgrees(v) && KernelAgrees(v) && c in v.chans && events != NO_EVENT
    requires v.chans[c].flag == New ==> v.chans[c].fd !in v.fds
    ensures KernelAgrees(Interested(v, c, events))
  {
  }

  lemma UninterestedAgrees<C>(v: View<C>, c: C)
    requires Agreement(v) && c in v.chans && v.chans[c].flag == Added
    ensures Agreement(Interested(v, c, NO_EVENT))
  {
  }

  lemma ForgottenAgrees<C>(v: View<C>, c: C)
    requires Agreement(v) && c in v.chans && v.chans[c].flag == Deleted
    ensures Agreement(Forgotten(v, c))
  {
  }

  lemma CreateAgrees<C>(v: View<C>, c: C, fd: int)
    requires Agreement(v) && c !in v.chans
    ensures Agreement(v.(chans := v.chans[c := Chan(fd, NO_EVENT, New, false)]))
  {
  }

  lemma DestroyAgrees<C>(v: View<C>, c: C)
    requires Agreement(v) && c in v.chans && v.chans[c].flag == New
    ensures Agreement(v.(chans := v.chans - {c}))
  {
  }

  /** Every step whose asserts hold keeps the three views in agreement. */
  lemma StepAgrees<C>(v: View<C>, s: Step<C>)
    requires Agreement(v) && Legal(v, s)
    ensures Next(v, s).Some? && Agreement(Next(v, s).value)
  {
    AssertsHoldIffLegal(v, s);
    hide Agreement, Apply, Interested, Forgotten, Masked;
    match s
    case Create(c, fd) => CreateAgrees(v, c, fd);
    case Destroy(c) => DestroyAgrees(v, c);
    case Call(c, op) =>
      if op == Remove {
        RemovalIs(v, c);
        ForgottenAgrees(v, c);
      } else {
        ChangeIs(v, c, op);
        var e := Masked(v.chans[c].events, op);
        MaskedSets(v.chans[c].events);
        if e != NO_EVENT {
          InterestedAgrees(v, c, e);
        } else {
          UninterestedAgrees(v, c);
        }
      }
  }

  /** The state after some steps from an empty loop, if no assert failed. */
  function Run<C>(steps: seq<Step<C>>): Option<View<C>> {
    if steps == [] then Some(View(map[], map[], map[], 0))
    else
      match Run(steps[..|steps| - 1])
      case None => None
      case Some(v) => Next(v, steps[|steps| - 1])
  }

  /** Three-way agreement after every run whose asserts hold, and no epoll_ctl failed. */
  lemma {:induction false} RunAgrees<C>(steps: seq<Step<C>>)
    requires Run(steps).Some?
    ensures Agreement(Run(steps).value)
  {
    hide Agreement, Next, Legal;
    if steps == [] {
      EmptyAgrees<C>();
    } else {
      var last := |steps| - 1;
      RunAgrees(steps[..last]);
      AssertsHoldIffLegal(Run(steps[..last]).value, steps[last]);
      StepAgrees(Run(steps[..last]).value, steps[last]);
    }
  }

  lemma EmptyAgrees<C>()
    ensures Agreement<C>(View(map[], map[], map[], 0))
  {
  }

  ghost predicate Within<C>(v: View<C>) {
    forall c :: c in v.chans ==> v.chans[c].events & OTHER_EVENTS == 0
  }

  lemma CallWithin<C>(v: View<C>, c: C, op: Op)
    requires Agreement(v) && Legal(v, Call(c, op)) && Within(v)
    ensures Apply(v, c, op).Some? && Within(Apply(v, c, op).value)
  {
    hide Masked, Agreement, Apply;
    MaskedWithin(v.chans[c].events, op);
    if op == Remove {
      RemovalIs(v, c);
    } else {
      ChangeIs(v, c, op);
    }
  }

  lemma UnusedMayGo<C>(v: View<C>, c: C)
    requires Agreement(v) && c in v.chans && v.chans[c].flag == New
    ensures !v.chans[c].addedToLoop
  {
  }

  lemma StepWithin<C>(v: View<C>, s: Step<C>)
    requires Agreement(v) && Legal(v, s) && Within(v)
    ensures Next(v, s).Some? && Within(Next(v, s).value)
  {
    hide Agreement, Apply;
    match s
    case Create(_, _) =>
    case Call(c, op) => CallWithin(v, c, op);
    case Destroy(_) => UnusedMayGo(v, s.c);
  }

  /** In every run each channel is interested in reading and writing at most. */
  lemma {:induction false} RunWithin<C>(steps: seq<Step<C>>)
    requires Run(steps).Some?
    ensures Within(Run(steps).value)
  {
    hide Agreement, Next, Legal, Within;
    if steps == [] {
      EmptyWithin<C>();
    } else {
      var last := |steps| - 1;
      RunAgrees(steps[..last]);
      RunWithin(steps[..last]);
      AssertsHoldIffLegal(Run(steps[..last]).value, steps[last]);
      StepWithin(Run(steps[..last]).value, steps[last]);
    }
  }

  lemma EmptyWithin<C>()
    ensures Within<C>(View(map[], map[], map[], 0))
  {
  }

  /** A channel without interest that starts reading, or writing, is known to the kernel
      with just that mask; when it stops again it is known only to the poller, and may be
      removed. */
  lemma InterestUndone<C>(v: View<C>, c: C, on: Op, off: Op)
    requires Agreement(v) && c in v.chans && v.chans[c].events == NO_EVENT && Legal(v, Call(c, on))
    requires (on == EnableReading && off == DisableReading) || (on == EnableWriting && off == DisableWriting)
    ensures Apply(v, c, on).Some?
    ensures var w := Apply(v, c, on).value;
            && c in w.chans && w.chans[c] == Chan(v.chans[c].fd, if on == EnableReading then 3 else 4, Added, true)
            && v.chans[c].fd in w.kernel && w.kernel[v.chans[c].fd] == Interest(w.chans[c].events, c)
            && Apply(w, c, off).Some?
            && var u := Apply(w, c, off).value;
               && c in u.chans && u.chans[c] == Chan(v.chans[c].fd, NO_EVENT, Deleted, true)
               && v.chans[c].fd !in u.kernel && Legal(u, Call(c, Remove))
  {
    MaskedUndone();
    hide Masked, Agreement, Apply;
    ChangeIs(v, c, on);
    StepAgrees(v, Call(c, on));
    var w := Apply(v, c, on).value;
    assert Next(v, Call(c, on)) == Apply(v, c, on);
    ChangeIs(w, c, off);
  }

  /** Both lookups poll asserts for a reported descriptor hold. */
  lemma LookupsHold<C>(steps: seq<Step<C>>, fd: int)
    requires Run(steps).Some? && fd in Run(steps).value.kernel
    ensures var v := Run(steps).value;
            var c := v.kernel[fd].chan;
            c in v.chans && v.chans[c].fd in v.fds && v.fds[v.chans[c].fd] == c
            && v.kernel[fd].mask == v.chans[c].events != NO_EVENT
  {
    RunAgrees(steps);
  }

  /** hasChannel asks for the descriptor: it says yes for an unregistered channel exactly
      when another channel with that descriptor is registered. */
  lemma HasChannelMeans<C>(v: View<C>, c: C)
    requires Agreement(v) && c in v.chans
    ensures v.chans[c].fd in v.fds <==>
            (v.chans[c].flag != New ||
             exists d :: d in v.chans && d != c && v.chans[d].fd == v.chans[c].fd && v.chans[d].flag != New)
  {
    if v.chans[c].fd in v.fds && v.chans[c].flag == New {
      var d := v.fds[v.chans[c].fd];
      assert d in v.chans && d != c;
    }
  }

  /** For instance of two channels with one descriptor only the first is registered, and
      hasChannel says yes for the second. */
  lemma HasChannelMisleads()
    ensures var r := Run<nat>([Create(0, 5), Create(1, 5), Call(0, EnableReading)]);
            r.Some? && 1 in r.value.chans && r.value.chans[1].flag == New && r.value.chans[1].fd in r.value.fds
  {
    var steps: seq<Step<nat>> := [Create(0, 5), Create(1, 5), Call(0, EnableReading)];
    assert steps[..2] == [Create(0, 5), Create(1, 5)];
    assert steps[..2][..1] == [Create(0, 5)];
    assert steps[..1][..0] == [];
    var one := Run<nat>([Create(0, 5)]);
    assert one == Next(View(map[], map[], map[], 0), Create(0, 5));
    var two := Run<nat>([Create(0, 5), Create(1, 5)]);
    assert two == Next(one.value, Create(1, 5));
    MaskedSets(NO_EVENT);
    assert Run(steps) == Next(two.value, Call(0, EnableReading));
  }
}
