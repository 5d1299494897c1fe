/** Every run of the asynchronous logger, from its start and in any interleaving of
    appenders and writer: the invariant, and what it means for the lines appended. */
module AsyncRuns {
  import opened Options
  import opened LogBuffers
  import opened AsyncLogging

  const INIT_POOL: nat := 4

  /** The logger as start leaves it: a blank buffer in each bucket and four pooled. */
  function Initial(buckets: nat): State
    requires buckets > 0
  {
    State(map[], Head, seq(buckets, _ => None), None, None, true,
          Data(seq(buckets, (i: nat) => Some(Buf(i, [], []))), [], [],
               seq(INIT_POOL, (k: nat) => Buf(buckets + k, [], [])), map[],
               map id: nat | id < buckets + INIT_POOL :: if id < buckets then InBucket(id) else InPool,
               buckets + INIT_POOL, [], seq(buckets, _ => []), [], [], []))
  }

  datatype Action =
    | Enter(tid: nat, text: Bytes)
    | Advances(tid: nat)
    | Writes(notice: Bytes)
    | Stop

  function Act(s: State, a: Action, size: nat): Option<State>
    requires Shaped(s)
  {
    match a
    case Enter(t, text) => Call(s, t, text)
    case Advances(t) => AppenderStep(s, t, size)
    case Writes(notice) => WriterStep(s, notice)
    case Stop => Some(s.(running := false))
  }

  lemma InitialHolds(buckets: nat, size: nat)
    requires buckets > 0
    ensures Inv(Initial(buckets), size)
  {
    InitialControl(buckets, size);
    InitialData(buckets, size);
  }

  /** It has taken and given nothing, and has an empty buffer for each bucket and four more. */
  lemma StartsEmpty(buckets: nat)
    requires buckets > 0
    ensures var d := Initial(buckets).data;
            && |d.bufs| == |d.accepted| == buckets && |d.pool| == 4
            && (forall i :: 0 <= i < buckets ==> d.bufs[i].Some? && Blank(d.bufs[i].value) && d.accepted[i] == [])
            && (forall k :: 0 <= k < 4 ==> Blank(d.pool[k]))
            && d.front == [] && d.output == [] && d.calls == []
  {
  }

  lemma InitialControl(buckets: nat, size: nat)
    requires buckets > 0
    ensures var s := Initial(buckets);
            && Locks(s) && Slots(s) && Batch(s.writer, s.data) && Room(s.writer, s.data)
            && InOrder(s, size) && Reported(s.data)
  {
  }

  lemma InitialData(buckets: nat, size: nat)
    requires buckets > 0
    ensures DataInv(Initial(buckets).data, size)
  {
    var d := Initial(buckets).data;
    forall id | id in d.place && id >= buckets
      ensures Holds(d, d.place[id], id)
    {
      assert d.pool[id - buckets].id == id;
    }
  }

  lemma ActKeeps(s: State, a: Action, size: nat)
    requires Inv(s, size) && Act(s, a, size).Some?
    ensures Inv(Act(s, a, size).value, size)
  {
    match a
    case Enter(t, text) => CallKeeps(s, t, text, size);
    case Advances(t) => AppenderKeeps(s, t, size);
    case Writes(notice) => WriterKeeps(s, notice, size);
    case Stop => StopKeeps(s, size);
  }

  lemma StopKeeps(s: State, size: nat)
    requires Inv(s, size)
    ensures Inv(s.(running := false), size)
  {
    hide DataInv, Home, Pending, LinesOf;
  }

  /** A logger with so many buckets can do the actions in order and is then in state s. */
  ghost predicate Reaches(buckets: nat, size: nat, actions: seq<Action>, s: State) {
    if buckets == 0 then false
    else if actions == [] then s == Initial(buckets)
    else
      var last := |actions| - 1;
      exists p :: Reaches(buckets, size, actions[..last], p) && Shaped(p) && Act(p, actions[last], size) == Some(s)
  }

  /** Every reachable state of every interleaving satisfies the invariant. */
  lemma {:induction false} RunKeeps(buckets: nat, size: nat, actions: seq<Action>, s: State)
    requires Reaches(buckets, size, actions, s)
    ensures Inv(s, size)
  {
    hide Inv, Act;
    if actions == [] {
      InitialHolds(buckets, size);
    } else {
      var last := |actions| - 1;
      var p :| Reaches(buckets, size, actions[..last], p) && Shaped(p) && Act(p, actions[last], size) == Some(s);
      RunKeeps(buckets, size, actions[..last], p);
      ActKeeps(p, actions[last], size);
    }
  }

  /** One more action. */
  lemma ReachNext(buckets: nat, size: nat, actions: seq<Action>, s: State, a: Action) returns (r: State)
    requires Reaches(buckets, size, actions, s) && Shaped(s) && Act(s, a, size).Some?
    ensures r == Act(s, a, size).value && Reaches(buckets, size, actions + [a], r)
  {
    hide Act;
    r := Act(s, a, size).value;
    assert (actions + [a])[..|actions|] == actions;
    assert Reaches(buckets, size, (actions + [a])[..|actions|], s) && Shaped(s) && Act(s, a, size) == Some(r);
  }

  /** From state s the actions in order lead to state r. */
  ghost predicate Leads(s: State, actions: seq<Action>, size: nat, r: State) {
    if actions == [] then r == s
    else
      var last := |actions| - 1;
      exists p :: Leads(s, actions[..last], size, p) && Shaped(p) && Act(p, actions[last], size) == Some(r)
  }
}
