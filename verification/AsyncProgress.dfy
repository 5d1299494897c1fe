/** Ownership of the logger's buffers and freedom from deadlock, in every reachable
    state of every interleaving. */
module AsyncProgress {
  import opened Options
  import opened FixedBuffers
  import opened LogBuffers
  import opened AsyncLogging
  import opened AsyncRuns

  // ---- Ownership.

  /** Every live buffer is at exactly one place, and once only in a list. */
  lemma OneOwner(buckets: nat, size: nat, actions: seq<Action>, s: State, id: nat)
    requires Reaches(buckets, size, actions, s)
    ensures id in s.data.place ==>
              Holds(s.data, s.data.place[id], id) && forall p :: Holds(s.data, p, id) ==> p == s.data.place[id]
    ensures id !in s.data.place ==> forall p :: !Holds(s.data, p, id)
    ensures Distinct(s.data.front) && Distinct(s.data.back)
    ensures forall j, k :: 0 <= j < k < |s.data.pool| ==> s.data.pool[j].id != s.data.pool[k].id
  {
    hide Locks, Slots, Batch, Room, InOrder, Contents, Conserved, Reported, Reaches, Holds;
    RunKeeps(buckets, size, actions, s);
    forall p | Holds(s.data, p, id)
      ensures LogBuffers.At(s.data, id, p)
    {
      PlaceOf(s.data, p, id);
    }
  }

  lemma PlaceOf(d: Data, p: Place, id: nat)
    requires Owned(d) && Holds(d, p, id)
    ensures LogBuffers.At(d, id, p)
  {
  }

  lemma PoolBounded(buckets: nat, size: nat, actions: seq<Action>, s: State)
    requires Reaches(buckets, size, actions, s)
    ensures |s.data.pool| <= MAX_POOL
    ensures forall k :: 0 <= k < |s.data.pool| ==> s.data.pool[k].data == []
  {
    hide Locks, Slots, Batch, InOrder, Conserved, Owned, Accounted, Reported, Reaches;
    RunKeeps(buckets, size, actions, s);
  }

  /** Whoever finds a bucket unlocked finds a buffer in it, and within its size. */
  lemma BucketHasBuffer(buckets: nat, size: nat, actions: seq<Action>, s: State, i: nat)
    requires Reaches(buckets, size, actions, s) && i < |s.bucketOwner| && s.bucketOwner[i].None?
    ensures i < |s.data.bufs| && s.data.bufs[i].Some? && |s.data.bufs[i].value.data| <= size
  {
    hide Home, Batch, Room, InOrder, Conserved, Owned, Accounted, Reported, Reaches;
    RunKeeps(buckets, size, actions, s);
  }

  // ---- Progress.

  /** The lock a thread is waiting to take, in the order locks are taken. */
  datatype Lock = Bucket(i: nat) | Front | Pool

  function AppenderWaits(s: State, t: nat): Option<Lock>
    requires Shaped(s)
  {
    match Pc(s, t)
    case WantBucket(_) => Some(Bucket(Home(t, |s.bucketOwner|)))
    case WantFront(_) => Some(Front)
    case WantPool(_) => Some(Pool)
    case _ => None
  }

  function WriterWaits(w: WriterPc, buckets: nat): Option<Lock> {
    match w
    case WantWait => Some(Front)
    case Sleep => Some(Front)
    case Sweep(i) => if i < buckets then Some(Bucket(i)) else None
    case SweepFront(_) => Some(Front)
    case SweepPool(_) => Some(Pool)
    case WantSwap => Some(Front)
    case WantSize => Some(Pool)
    case WantPush => Some(Pool)
    case _ => None
  }

  function Waits(s: State, a: Actor): Option<Lock>
    requires Shaped(s)
  {
    match a
    case Appender(t) => AppenderWaits(s, t)
    case Writer => WriterWaits(s.writer, |s.bucketOwner|)
  }

  function Owner(s: State, l: Lock): Option<Actor> {
    match l
    case Bucket(i) => if i < |s.bucketOwner| then s.bucketOwner[i] else None
    case Front => s.frontOwner
    case Pool => s.poolOwner
  }

  predicate Done(s: State, a: Actor) {
    match a
    case Appender(t) => Pc(s, t).Idle?
    case Writer => s.writer.Exited?
  }

  predicate Enabled(s: State, a: Actor, size: nat)
    requires Shaped(s)
  {
    match a
    case Appender(t) => AppenderStep(s, t, size).Some?
    case Writer => WriterStep(s, []).Some?
  }

  /** A thread that is not done can take its next step exactly when it is not waiting
      for a lock that is held. */
  lemma OnlyLocksBlock(s: State, a: Actor, size: nat)
    requires Inv(s, size) && Shaped(s) && !Done(s, a)
    ensures Enabled(s, a, size) <==> (Waits(s, a).None? || Owner(s, Waits(s, a).value).None?)
  {
    hide Conserved, Owned, Accounted, InOrder, Reported, Batch, Room;
    match a
    case Appender(t) => AppenderBlocks(s, t, size);
    case Writer => WriterBlocks(s, size);
  }

  lemma AppenderBlocks(s: State, t: nat, size: nat)
    requires Locks(s) && Slots(s) && Contents(s.data, size) && !Pc(s, t).Idle?
    ensures AppenderStep(s, t, size).Some? <==> (AppenderWaits(s, t).None? || Owner(s, AppenderWaits(s, t).value).None?)
  {
    hide Home;
  }

  lemma WriterBlocks(s: State, size: nat)
    requires Locks(s) && Slots(s) && !s.writer.Exited?
    ensures var w := WriterWaits(s.writer, |s.bucketOwner|);
            WriterStep(s, []).Some? <==> (w.None? || Owner(s, w.value).None?)
  {
    hide Home;
  }

  function Rank(l: Option<Lock>): (r: nat)
    ensures r <= 3
  {
    match l
    case None => 3
    case Some(Bucket(_)) => 0
    case Some(Front) => 1
    case Some(Pool) => 2
  }

  /** Whoever owns a lock only waits for locks later in the order. */
  lemma OwnersWaitLater(s: State, l: Lock, a: Actor)
    requires Locks(s) && Owner(s, l) == Some(a)
    ensures Rank(Waits(s, a)) > Rank(Some(l)) && !Done(s, a)
  {
    hide Home;
  }

  /** Each thread of the chain waits for a lock that the next one owns. */
  ghost predicate WaitsAlong(s: State, chain: seq<Actor>)
    requires Shaped(s)
  {
    forall i :: 0 <= i < |chain| - 1 ==>
                  Waits(s, chain[i]).Some? && Owner(s, Waits(s, chain[i]).value) == Some(chain[i + 1])
  }

  /** Deadlock freedom: from any thread that is not done, following who owns the lock
      it waits for leads, in at most three steps, to a thread that can take one. */
  lemma {:induction false} NoDeadlock(buckets: nat, size: nat, actions: seq<Action>, s: State, a: Actor)
    returns (chain: seq<Actor>)
    requires Reaches(buckets, size, actions, s)
    requires Shaped(s) && !Done(s, a)
    ensures 1 <= |chain| <= 4 - Rank(Waits(s, a)) && chain[0] == a && WaitsAlong(s, chain)
    ensures !Done(s, chain[|chain| - 1]) && Enabled(s, chain[|chain| - 1], size)
    decreases 3 - Rank(Waits(s, a))
  {
    hide Inv, Enabled, Done, Waits, Owner, Rank, Reaches;
    RunKeeps(buckets, size, actions, s);
    OnlyLocksBlock(s, a, size);
    var w := Waits(s, a);
    if w.None? || Owner(s, w.value).None? {
      chain := [a];
    } else {
      var owner := Owner(s, w.value).value;
      LocksOf(s, size);
      OwnersWaitLater(s, w.value, owner);
      var rest := NoDeadlock(buckets, size, actions, s, owner);
      chain := [a] + rest;
      assert forall i :: 0 < i < |chain| ==> chain[i] == rest[i - 1];
    }
  }

  lemma LocksOf(s: State, size: nat)
    requires Inv(s, size)
    ensures Locks(s)
  {
  }

  function Remaining(pc: AppenderPc): nat {
    match pc
    case Idle => 0
    case Appended => 1
    case HasBuffer(_) => 2
    case Popped(_) => 3
    case WantPool(_) => 4
    case Published(_) => 5
    case WantFront(_) => 6
    case WantBucket(_) => 7
  }

  /** An append call ends after at most seven steps of its own. */
  lemma AppendEnds(s: State, t: nat, size: nat)
    requires Shaped(s) && AppenderStep(s, t, size).Some?
    ensures Remaining(Pc(AppenderStep(s, t, size).value, t)) < Remaining(Pc(s, t)) <= 7
  {
    hide Home, Put, Filled, Accept, Publish, TryPop, FetchOrNew, Store;
  }

  // ---- The writer's turns.

  /** The steps left when the batch is about to be trimmed. */
  const BATCH_STEPS: nat := 6 * MAX_BACK + 4

  /** The most steps left to the writer, with n buckets and k buffers in the back list,
      until it is at the head of its loop; two more counts are for the head and the end. */
  function TurnLeft(w: WriterPc, n: nat, k: nat): nat {
    var rest := if SweepIndex(w).Some? && SweepIndex(w).value < n then n - SweepIndex(w).value else 0;
    var here := if rest == 0 then 1 else rest;
    match w
    case Exited => 0
    case Head => 1
    case Recycle => 5 * k + 2
    case Pushed => 5 * k + 3
    case WantPush => 5 * k + 4
    case HoldSize(_) => 5 * k + 5
    case WantSize => 5 * k + 6
    case Writing(j) => (if j < k then k - j else 0) + 5 * k + 3
    case Trimming => BATCH_STEPS
    case Swapped => BATCH_STEPS + 1
    case WantSwap => BATCH_STEPS + 2
    case SweepUnlock(_) => BATCH_STEPS + 7 * here - 3
    case SweepStored(_) => BATCH_STEPS + 7 * here - 2
    case SweepPopped(_) => BATCH_STEPS + 7 * here - 1
    case SweepPool(_) => BATCH_STEPS + 7 * here
    case SweepFront(_) => BATCH_STEPS + 7 * here + 1
    case Check(_) => BATCH_STEPS + 7 * here + 2
    case Sweep(_) => BATCH_STEPS + 7 * rest + 3
    case Woken => BATCH_STEPS + 7 * n + 4
    case Sleep => BATCH_STEPS + 7 * n + 5
    case HoldWait => BATCH_STEPS + 7 * n + 6
    case WantWait => BATCH_STEPS + 7 * n + 7
  }

  /** The steps left to the writer in state s. */
  function StepsLeft(s: State): nat {
    TurnLeft(s.writer, |s.data.bufs|, |s.data.back|)
  }

  lemma SweepShortens(l: Local<WriterPc>, i: nat)
    requires i < |l.data.bufs| && SweepIndex(l.pc) == Some(i) && SweepStep(l, i).Some?
    ensures var m := SweepStep(l, i).value;
            TurnLeft(m.pc, |m.data.bufs|, |m.data.back|) < TurnLeft(l.pc, |l.data.bufs|, |l.data.back|)
  {
  }

  /** What the writer does to the back list. */
  lemma BatchBack(l: Local<WriterPc>, running: bool, notice: Bytes)
    requires BatchStep(l, running, notice).Some?
    ensures var k, m := |l.data.back|, BatchStep(l, running, notice).value;
            match l.pc
            case WantSwap => true
            case Trimming => |m.data.back| <= MAX_BACK
            case Recycle => if k > 0 then |m.data.back| == k - 1 else |m.data.back| == 0
            case _ => |m.data.back| == k
  {
    hide DropEvents;
  }

  lemma BatchShortens(l: Local<WriterPc>, running: bool, notice: Bytes)
    requires SweepIndex(l.pc).None? && BatchStep(l, running, notice).Some?
    ensures var m := BatchStep(l, running, notice).value;
            if running && l.pc.Head? then m.pc.WantWait?
            else TurnLeft(m.pc, |m.data.bufs|, |m.data.back|) < TurnLeft(l.pc, |l.data.bufs|, |l.data.back|)
  {
    BatchBack(l, running, notice);
    hide Swap, Trim, WriteOne, EndBatch, FlushOut, TakeLast, PushPool, Discard;
  }

  lemma PastLastShortens(w: WriterPc, i: nat, n: nat, k: nat)
    requires SweepIndex(w) == Some(i) && i >= n
    ensures TurnLeft(WantSwap, n, k) < TurnLeft(w, n, k)
  {
  }

  lemma AdvanceLeavesBack(l: Local<AppenderPc>, t: nat, b: nat, size: nat)
    requires b < |l.data.bufs| == |l.data.accepted| && Advance(l, t, b, size).Some?
    ensures Advance(l, t, b, size).value.data.back == l.data.back
  {
    hide Put, Filled;
  }

  /** Each step of the writer brings the end of its turn nearer, except that it enters
      the loop again while the logger runs; no other thread moves it away. */
  lemma TurnEnds(s: State, a: Action, size: nat)
    requires Shaped(s) && Act(s, a, size).Some?
    ensures var r := Act(s, a, size).value;
            && Shaped(r) && |r.data.bufs| == |s.data.bufs|
            && (if !a.Writes? then StepsLeft(r) == StepsLeft(s)
                else if s.running && s.writer.Head? then r.writer.WantWait?
                else StepsLeft(r) < StepsLeft(s))
  {
    hide SweepStep, BatchStep, TurnLeft, Advance;
    match a
    case Enter(_, _) =>
    case Advances(t) => AdvanceLeavesBack(ViewOf(s, t), t, Home(t, |s.bucketOwner|), size);
    case Writes(notice) =>
      match SweepIndex(s.writer) {
        case Some(i) =>
          if i < |s.bucketOwner| {
            SweepShortens(WriterView(s), i);
          } else {
            PastLastShortens(s.writer, i, |s.data.bufs|, |s.data.back|);
          }
        case None => BatchShortens(WriterView(s), s.running, notice);
      }
    case Stop =>
  }

  /** The writer waits only when it has found the front list empty, holding its lock; in
      any other turn it goes straight to the sweep. */
  lemma WaitsWhenIdle(buckets: nat, size: nat, actions: seq<Action>, s: State, notice: Bytes)
    requires Reaches(buckets, size, actions, s) && Shaped(s) && s.writer.HoldWait?
    ensures s.frontOwner == Some(Writer) && WriterStep(s, notice).Some?
    ensures var w := WriterStep(s, notice).value.writer; if s.data.front == [] then w.Sleep? else w == Sweep(0)
  {
    hide Reaches, Slots, InOrder, DataInv, Reported, BucketLocks, PoolLock;
    RunKeeps(buckets, size, actions, s);
  }

  /** The most steps of a turn: the writer has just entered the loop. */
  function TurnBound(n: nat): nat {
    TurnLeft(WantWait, n, 0)
  }

  /** No turn is longer than the number of buckets says, however much was appended. */
  lemma {:induction false} TurnsBounded(buckets: nat, size: nat, actions: seq<Action>, s: State)
    requires Reaches(buckets, size, actions, s)
    ensures |s.data.bufs| == buckets && StepsLeft(s) <= TurnBound(buckets) == 7 * buckets + 161
  {
    hide Act, StepsLeft;
    if actions == [] {
      BoundAtStart(buckets);
    } else {
      var last := |actions| - 1;
      var p :| Reaches(buckets, size, actions[..last], p) && Shaped(p) && Act(p, actions[last], size) == Some(s);
      TurnsBounded(buckets, size, actions[..last], p);
      TurnEnds(p, actions[last], size);
      EntryBounded(s);
    }
  }

  lemma BoundAtStart(buckets: nat)
    requires buckets > 0
    ensures StepsLeft(Initial(buckets)) <= TurnBound(buckets) && |Initial(buckets).data.bufs| == buckets
  {
  }

  lemma EntryBounded(s: State)
    ensures s.writer.WantWait? ==> StepsLeft(s) <= TurnBound(|s.data.bufs|)
  {
  }

  /** How many of the actions are the writer's. */
  function WriterSteps(actions: seq<Action>): nat {
    if actions == [] then 0
    else WriterSteps(actions[..|actions| - 1]) + (if actions[|actions| - 1].Writes? then 1 else 0)
  }

  /** A stopped logger's writer takes no more steps than are left, whatever the appenders
      do; so it ends within 7 * buckets + 161 steps of its own. */
  lemma {:induction false} StopEnds(s: State, actions: seq<Action>, size: nat, r: State)
    requires Shaped(s) && !s.running && Leads(s, actions, size, r)
    ensures Shaped(r) && !r.running
    ensures WriterSteps(actions) + StepsLeft(r) <= StepsLeft(s)
  {
    hide Act, StepsLeft;
    if actions == [] {
    } else {
      var last := |actions| - 1;
      var p :| Leads(s, actions[..last], size, p) && Shaped(p) && Act(p, actions[last], size) == Some(r);
      StopEnds(s, actions[..last], size, p);
      TurnEnds(p, actions[last], size);
      StaysStopped(p, actions[last], size);
    }
  }

  lemma StaysStopped(s: State, a: Action, size: nat)
    requires Shaped(s) && !s.running && Act(s, a, size).Some?
    ensures !Act(s, a, size).value.running
  {
    hide Advance, SweepStep, BatchStep;
  }
}
