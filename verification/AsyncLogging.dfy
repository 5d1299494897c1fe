/** The asynchronous logger as a transition system. Any number of threads append
    through locked buckets; one writer sweeps, swaps, drops, writes and recycles. A
    step is what one thread does between two lock operations. */
module AsyncLogging {
  import opened Options
  import opened FixedBuffers
  import opened LogBuffers

  /** Where a thread is inside append; text is the line it carries. */
  datatype AppenderPc =
    | Idle
    | WantBucket(text: Bytes)
    | WantFront(text: Bytes)
    | Published(text: Bytes)
    | WantPool(text: Bytes)
    | Popped(text: Bytes)
    | HasBuffer(text: Bytes)
    | Appended

  /** Where the writer is inside threadFunc. */
  datatype WriterPc =
    | Head
    | WantWait
    | HoldWait
    | Sleep
    | Woken
    | Sweep(i: nat)
    | Check(i: nat)
    | SweepFront(i: nat)
    | SweepPool(i: nat)
    | SweepPopped(i: nat)
    | SweepStored(i: nat)
    | SweepUnlock(i: nat)
    | WantSwap
    | Swapped
    | Trimming
    | Writing(k: nat)
    | Recycle
    | WantSize
    | HoldSize(room: bool)
    | WantPush
    | Pushed
    | Exited

  datatype State = State(
    appenders: map<nat, AppenderPc>,
    writer: WriterPc,
    bucketOwner: seq<Option<Actor>>,
    frontOwner: Option<Actor>,
    poolOwner: Option<Actor>,
    running: bool,
    data: Data)

  function Pc(s: State, t: nat): AppenderPc {
    if t in s.appenders then s.appenders[t] else Idle
  }

  predicate Shaped(s: State) {
    |s.bucketOwner| == |s.data.bufs| == |s.data.accepted| > 0
  }

  /** The bucket thread t appends to. */
  function Home(t: nat, buckets: nat): (b: nat)
    requires buckets > 0
    ensures b < buckets
  {
    t % buckets
  }

  // ---- The steps.

  /** A thread enters append. */
  function Call(s: State, t: nat, text: Bytes): Option<State> {
    if Pc(s, t) != Idle then None
    else Some(s.(appenders := s.appenders[t := WantBucket(text)],
                 data := s.data.(calls := s.data.calls + [Line(t, text)])))
  }

  /** What one thread works on: its position, the lock of the bucket it is at, the two
      other locks and the buffers. */
  datatype Local<P> = Local(pc: P, bucket: Option<Actor>, front: Option<Actor>, pool: Option<Actor>, data: Data)

  /** The next step of thread t inside append on bucket b; None while it waits for a lock. */
  function Advance(l: Local<AppenderPc>, t: nat, b: nat, size: nat): (r: Option<Local<AppenderPc>>)
    requires b < |l.data.bufs| == |l.data.accepted|
    ensures r.Some? ==> |r.value.data.bufs| == |r.value.data.accepted| == |l.data.bufs|
  {
    var d, me := l.data, Appender(t);
    match l.pc
    case Idle => None
    case WantBucket(text) =>
      if l.bucket.Some? || d.bufs[b].None? || |d.bufs[b].value.data| > size then None
      else if size - |d.bufs[b].value.data| > |text| then
        Some(l.(pc := Appended, bucket := Some(me), data := Accept(d, b, t, text, size)))
      else Some(l.(pc := WantFront(text), bucket := Some(me)))
    case WantFront(text) =>
      if l.front.Some? || d.bufs[b].None? then None
      else Some(l.(pc := Published(text), front := Some(me), data := Publish(d, b)))
    case Published(text) => Some(l.(pc := WantPool(text), front := None))
    case WantPool(text) =>
      if l.pool.Some? then None
      else Some(l.(pc := Popped(text), pool := Some(me), data := TryPop(d, me)))
    case Popped(text) => Some(l.(pc := HasBuffer(text), pool := None))
    case HasBuffer(text) =>
      var e := Store(FetchOrNew(d, me), b, me);
      if |e.bufs[b].value.data| > size then None
      else Some(l.(pc := Appended, data := Accept(e, b, t, text, size)))
    case Appended => Some(l.(pc := Idle, bucket := None))
  }

  /** What thread t sees of the state. */
  function ViewOf(s: State, t: nat): Local<AppenderPc>
    requires Shaped(s)
  {
    Local(Pc(s, t), s.bucketOwner[Home(t, |s.bucketOwner|)], s.frontOwner, s.poolOwner, s.data)
  }

  /** The state after thread t has left l behind. */
  function Update(s: State, t: nat, l: Local<AppenderPc>): State
    requires Shaped(s)
  {
    s.(appenders := s.appenders[t := l.pc],
       bucketOwner := s.bucketOwner[Home(t, |s.bucketOwner|) := l.bucket],
       frontOwner := l.front, poolOwner := l.pool, data := l.data)
  }

  function AppenderStep(s: State, t: nat, size: nat): Option<State>
    requires Shaped(s)
  {
    match Advance(ViewOf(s, t), t, Home(t, |s.bucketOwner|), size)
    case None => None
    case Some(l) => Some(Update(s, t, l))
  }

  /** The bucket the writer's sweep is at. */
  function SweepIndex(w: WriterPc): Option<nat> {
    match w
    case Sweep(i) => Some(i)
    case Check(i) => Some(i)
    case SweepFront(i) => Some(i)
    case SweepPool(i) => Some(i)
    case SweepPopped(i) => Some(i)
    case SweepStored(i) => Some(i)
    case SweepUnlock(i) => Some(i)
    case _ => None
  }

  /** The writer's next step at bucket i of its sweep; None while it waits for a lock. */
  function SweepStep(l: Local<WriterPc>, i: nat): (r: Option<Local<WriterPc>>)
    requires i < |l.data.bufs|
    ensures r.Some? ==> |r.value.data.bufs| == |l.data.bufs| && r.value.data.accepted == l.data.accepted
  {
    var d := l.data;
    match l.pc
    case Sweep(_) => if l.bucket.Some? then None else Some(l.(pc := Check(i), bucket := Some(Writer)))
    case Check(_) =>
      if d.bufs[i].None? then None
      else if |d.bufs[i].value.data| > 0 then Some(l.(pc := SweepFront(i)))
      else Some(l.(pc := SweepUnlock(i)))
    case SweepFront(_) =>
      if l.front.Some? || d.bufs[i].None? then None
      else Some(l.(pc := SweepPool(i), front := Some(Writer), data := Publish(d, i)))
    case SweepPool(_) =>
      if l.pool.Some? then None
      else Some(l.(pc := SweepPopped(i), pool := Some(Writer), data := TryPop(d, Writer)))
    case SweepPopped(_) =>
      Some(l.(pc := SweepStored(i), pool := None, data := Store(FetchOrNew(d, Writer), i, Writer)))
    case SweepStored(_) => Some(l.(pc := SweepUnlock(i), front := None))
    case SweepUnlock(_) => Some(l.(pc := Sweep(i + 1), bucket := None))
    case _ => None
  }

  /** The writer's next step outside the sweep; None while it waits for a lock and when
      it is done. */
  function BatchStep(l: Local<WriterPc>, running: bool, notice: Bytes): (r: Option<Local<WriterPc>>)
    ensures r.Some? ==> r.value.data.bufs == l.data.bufs && r.value.data.accepted == l.data.accepted
    ensures r.Some? ==> r.value.bucket == l.bucket
  {
    var d := l.data;
    match l.pc
    case Head => if running then Some(l.(pc := WantWait)) else Some(l.(pc := Exited, data := FlushOut(d)))
    case WantWait => if l.front.Some? then None else Some(l.(pc := HoldWait, front := Some(Writer)))
    case HoldWait => Some(l.(pc := if d.front == [] then Sleep else Sweep(0), front := None))
    case Sleep => if l.front.Some? then None else Some(l.(pc := Woken, front := Some(Writer)))
    case Woken => Some(l.(pc := Sweep(0), front := None))
    case WantSwap =>
      if l.front.Some? then None
      else Some(l.(pc := Swapped, front := Some(Writer), data := Swap(d)))
    case Swapped => Some(l.(pc := Trimming, front := None))
    case Trimming => Some(l.(pc := Writing(0), data := Trim(d, notice)))
    case Writing(k) =>
      if k < |d.back| then Some(l.(pc := Writing(k + 1), data := WriteOne(d, k)))
      else Some(l.(pc := Recycle, data := EndBatch(d)))
    case Recycle =>
      if d.back == [] then Some(l.(pc := Head, data := FlushOut(d)))
      else Some(l.(pc := WantSize, data := TakeLast(d)))
    case WantSize =>
      if l.pool.Some? then None
      else Some(l.(pc := HoldSize(|d.pool| < MAX_POOL), pool := Some(Writer)))
    case HoldSize(room) =>
      if Writer !in d.hands then None
      else if room then Some(l.(pc := WantPush, pool := None))
      else Some(l.(pc := Recycle, pool := None, data := Discard(d)))
    case WantPush =>
      if l.pool.Some? || Writer !in d.hands then None
      else Some(l.(pc := Pushed, pool := Some(Writer), data := PushPool(d)))
    case Pushed => Some(l.(pc := Recycle, pool := None))
    case _ => None
  }

  /** What the writer sees of the state. */
  function WriterView(s: State): Local<WriterPc>
    requires Shaped(s)
  {
    var i := SweepIndex(s.writer);
    Local(s.writer, if i.Some? && i.value < |s.bucketOwner| then s.bucketOwner[i.value] else None,
          s.frontOwner, s.poolOwner, s.data)
  }

  /** The state after the writer has left m behind. */
  function WriterUpdate(s: State, m: Local<WriterPc>): State
    requires Shaped(s)
  {
    var i := SweepIndex(s.writer);
    s.(writer := m.pc,
       bucketOwner := if i.Some? && i.value < |s.bucketOwner| then s.bucketOwner[i.value := m.bucket]
                      else s.bucketOwner,
       frontOwner := m.front, poolOwner := m.pool, data := m.data)
  }

  /** The next step of the writer; a sweep past the last bucket goes on to the swap. */
  function WriterStep(s: State, notice: Bytes): Option<State>
    requires Shaped(s)
  {
    var i := SweepIndex(s.writer);
    if i.Some? && i.value >= |s.bucketOwner| then Some(s.(writer := WantSwap))
    else
      var l := WriterView(s);
      match if i.Some? then SweepStep(l, i.value) else BatchStep(l, s.running, notice)
      case None => None
      case Some(m) => Some(WriterUpdate(s, m))
  }

  // ---- The invariant.

  predicate HoldsBucket(pc: AppenderPc) {
    !pc.Idle? && !pc.WantBucket?
  }

  /** The bucket is held and its buffer has been given away. */
  predicate Emptied(pc: AppenderPc) {
    pc.Published? || pc.WantPool? || pc.Popped? || pc.HasBuffer?
  }

  function WriterBucket(w: WriterPc): Option<nat> {
    match w
    case Check(i) => Some(i)
    case SweepFront(i) => Some(i)
    case SweepPool(i) => Some(i)
    case SweepPopped(i) => Some(i)
    case SweepStored(i) => Some(i)
    case SweepUnlock(i) => Some(i)
    case _ => None
  }

  /** The writer's loop has been entered again, and its batch is still to be taken. */
  predicate BeforeSwap(w: WriterPc) {
    w.WantWait? || w.HoldWait? || w.Sleep? || w.Woken? || SweepIndex(w).Some? || w.WantSwap?
  }

  predicate WriterHoldsFront(w: WriterPc) {
    w.HoldWait? || w.Woken? || w.SweepPool? || w.SweepPopped? || w.SweepStored? || w.Swapped?
  }

  predicate WriterHoldsPool(w: WriterPc) {
    w.SweepPopped? || w.HoldSize? || w.Pushed?
  }

  /** Each lock's owner is the one thread whose position says it holds it. */
  ghost predicate BucketLocks(s: State) {
    && Shaped(s)
    && (forall t: nat :: HoldsBucket(Pc(s, t)) ==> s.bucketOwner[Home(t, |s.bucketOwner|)] == Some(Appender(t)))
    && (forall i, t: nat :: 0 <= i < |s.bucketOwner| && s.bucketOwner[i] == Some(Appender(t)) ==>
                              Home(t, |s.bucketOwner|) == i && HoldsBucket(Pc(s, t)))
    && (forall i :: 0 <= i < |s.bucketOwner| ==>
                      (s.bucketOwner[i] == Some(Writer) <==> WriterBucket(s.writer) == Some(i)))
    && (WriterBucket(s.writer).Some? ==> WriterBucket(s.writer).value < |s.bucketOwner|)
  }

  ghost predicate FrontLock(s: State) {
    && (forall t: nat :: Pc(s, t).Published? <==> s.frontOwner == Some(Appender(t)))
    && (s.frontOwner == Some(Writer) <==> WriterHoldsFront(s.writer))
  }

  ghost predicate PoolLock(s: State) {
    && (forall t: nat :: Pc(s, t).Popped? <==> s.poolOwner == Some(Appender(t)))
    && (s.poolOwner == Some(Writer) <==> WriterHoldsPool(s.writer))
  }

  ghost predicate Locks(s: State) {
    BucketLocks(s) && FrontLock(s) && PoolLock(s)
  }

  /** A bucket is without a buffer only inside the critical section that is replacing
      it, and only threads doing so have a buffer in hand. */
  ghost predicate Slots(s: State)
    requires Shaped(s)
  {
    && (forall i :: 0 <= i < |s.data.bufs| && s.data.bufs[i].None? ==> s.bucketOwner[i].Some?)
    && (forall t: nat :: HoldsBucket(Pc(s, t)) ==> (Emptied(Pc(s, t)) <==> s.data.bufs[Home(t, |s.bucketOwner|)].None?))
    && (forall i: nat :: i < |s.data.bufs| && WriterBucket(s.writer) == Some(i) ==>
                           ((s.writer.SweepPool? || s.writer.SweepPopped?) <==> s.data.bufs[i].None?))
    && (forall t: nat :: Appender(t) in s.data.hands ==> Pc(s, t).Popped? || Pc(s, t).HasBuffer?)
    && (Writer in s.data.hands ==>
          s.writer.SweepPopped? || s.writer.WantSize? || s.writer.HoldSize? || s.writer.WantPush?)
    && (s.writer.WantSize? || s.writer.HoldSize? || s.writer.WantPush? ==> Writer in s.data.hands)
  }

  /** The last thing asked of the log file, if anything, was to flush. */
  predicate AllFlushed(d: Data) {
    d.output == [] || d.output[|d.output| - 1] == Flushed
  }

  /** The back list is empty outside a batch and everything written is flushed; within
      one it is blank up to what is written. */
  ghost predicate Batch(w: WriterPc, d: Data) {
    match w
    case Swapped => d.doomed == []
    case Trimming => d.doomed == []
    case Writing(k) => k <= |d.back| && forall j :: 0 <= j < k ==> Blank(d.back[j].buf)
    case Recycle => d.doomed == [] && forall j :: 0 <= j < |d.back| ==> Blank(d.back[j].buf)
    case WantSize => d.doomed == [] && forall j :: 0 <= j < |d.back| ==> Blank(d.back[j].buf)
    case HoldSize(_) => d.doomed == [] && forall j :: 0 <= j < |d.back| ==> Blank(d.back[j].buf)
    case WantPush => d.doomed == [] && forall j :: 0 <= j < |d.back| ==> Blank(d.back[j].buf)
    case Pushed => d.doomed == [] && forall j :: 0 <= j < |d.back| ==> Blank(d.back[j].buf)
    case _ => d.back == [] && d.doomed == [] && AllFlushed(d)
  }

  /** The pool never exceeds its bound although its size is read in one critical
      section and used in another: in between, others only take from it. */
  predicate Room(w: WriterPc, d: Data) {
    && |d.pool| <= MAX_POOL
    && (w == HoldSize(true) || w.WantPush? ==> |d.pool| < MAX_POOL)
  }

  /** The lines of thread t, as a buffer of the given size keeps them. */
  function LinesOf(lines: seq<Line>, t: nat, size: nat): seq<Bytes> {
    if lines == [] then []
    else
      var l := lines[|lines| - 1];
      LinesOf(lines[..|lines| - 1], t, size) + (if l.tid == t then [Stored(l.text, size)] else [])
  }

  function Pending(pc: AppenderPc, size: nat): seq<Bytes> {
    match pc
    case Idle => []
    case Appended => []
    case _ => [Stored(pc.text, size)]
  }

  /** Each thread's calls are, in order, what its bucket accepted from it and the line
      it is carrying. */
  ghost predicate InOrder(s: State, size: nat)
    requires Shaped(s)
  {
    forall t: nat :: LinesOf(s.data.calls, t, size)
                  == LinesOf(s.data.accepted[Home(t, |s.bucketOwner|)], t, size) + Pending(Pc(s, t), size)
  }

  /** Nothing is dropped without a notice in the output. */
  ghost predicate Reported(d: Data) {
    || (d.doomed == [] && forall k :: 0 <= k < |d.history| ==> d.history[k].Wrote?)
    || exists j :: 0 <= j < |d.output| && d.output[j].Notice?
  }

  ghost predicate Inv(s: State, size: nat) {
    && Locks(s) && Slots(s) && Batch(s.writer, s.data) && Room(s.writer, s.data) && InOrder(s, size)
    && DataInv(s.data, size) && Reported(s.data)
  }

  // ---- A thread's step keeps each part.

  /** A lock passes on when one thread's hold on it changes. */
  predicate Turns(before: Option<Actor>, after: Option<Actor>, me: Option<Actor>, held: bool, holds: bool) {
    if held == holds then after == before
    else if holds then before.None? && after == me
    else before == me && after.None?
  }

  /** Thread t held its bucket, and took, kept or released each lock as its positions say. */
  ghost predicate Moved(l: Local<AppenderPc>, m: Local<AppenderPc>, t: nat) {
    var me := Some(Appender(t));
    && (HoldsBucket(l.pc) || HoldsBucket(m.pc))
    && Turns(l.bucket, m.bucket, me, HoldsBucket(l.pc), HoldsBucket(m.pc))
    && Turns(l.front, m.front, me, l.pc.Published?, m.pc.Published?)
    && Turns(l.pool, m.pool, me, l.pc.Popped?, m.pc.Popped?)
  }

  /** Only bucket b lost or gained its buffer, as the new position says, and the only
      hand that changed is the thread's. */
  ghost predicate Traded(l: Local<AppenderPc>, m: Local<AppenderPc>, t: nat, b: nat) {
    var me, d, e := Appender(t), l.data, m.data;
    && |d.bufs| == |e.bufs| == |d.accepted| == |e.accepted| && b < |d.bufs|
    && (forall i :: 0 <= i < |d.bufs| && i != b ==> e.bufs[i] == d.bufs[i])
    && (HoldsBucket(m.pc) ==> (e.bufs[b].None? <==> Emptied(m.pc)))
    && (!HoldsBucket(m.pc) ==> e.bufs[b].Some?)
    && (forall a :: a in e.hands ==> a in d.hands || a == me)
    && (forall a :: a in d.hands ==> a in e.hands || a == me)
    && (me in e.hands ==> m.pc.Popped? || m.pc.HasBuffer?)
  }

  /** The writer's batch and histories are untouched, and the pool did not grow. */
  ghost predicate Apart(l: Local<AppenderPc>, m: Local<AppenderPc>) {
    && m.data.back == l.data.back && m.data.doomed == l.data.doomed
    && m.data.history == l.data.history && m.data.output == l.data.output
    && |m.data.pool| <= |l.data.pool|
  }

  lemma AdvanceMoves(l: Local<AppenderPc>, t: nat, b: nat, size: nat)
    requires b < |l.data.bufs| == |l.data.accepted| && Advance(l, t, b, size).Some?
    requires HoldsBucket(l.pc) ==> l.bucket == Some(Appender(t))
    requires l.pc.Published? ==> l.front == Some(Appender(t))
    requires l.pc.Popped? ==> l.pool == Some(Appender(t))
    ensures var m := Advance(l, t, b, size).value; Moved(l, m, t) && Apart(l, m)
  {
    hide Put, Filled;
  }

  lemma AdvanceTrades(l: Local<AppenderPc>, t: nat, b: nat, size: nat)
    requires b < |l.data.bufs| == |l.data.accepted| && Advance(l, t, b, size).Some?
    requires HoldsBucket(l.pc) ==> (l.data.bufs[b].None? <==> Emptied(l.pc))
    requires Appender(t) in l.data.hands ==> l.pc.Popped? || l.pc.HasBuffer?
    ensures Traded(l, Advance(l, t, b, size).value, t, b)
  {
    hide Put, Filled;
  }

  lemma AdvanceKeepsData(l: Local<AppenderPc>, t: nat, b: nat, size: nat)
    requires b < |l.data.bufs| == |l.data.accepted| && Advance(l, t, b, size).Some?
    requires Home(t, |l.data.bufs|) == b && DataInv(l.data, size)
    requires HoldsBucket(l.pc) ==> (l.data.bufs[b].None? <==> Emptied(l.pc))
    requires Appender(t) in l.data.hands ==> l.pc.Popped? || l.pc.HasBuffer?
    ensures DataInv(Advance(l, t, b, size).value.data, size)
  {
    hide Put, Filled, DataInv;
    var d, me := l.data, Appender(t);
    match l.pc
    case WantBucket(text) =>
      if size - |d.bufs[b].value.data| > |text| {
        AcceptKeeps(d, b, t, text, size);
      }
    case WantFront(text) => PublishKeeps(d, b, size);
    case WantPool(text) => TryPopKeeps(d, me, size);
    case HasBuffer(text) =>
      FetchOrNewKeeps(d, me, size);
      StoreKeeps(FetchOrNew(d, me), b, me, size);
      AcceptKeeps(Store(FetchOrNew(d, me), b, me), b, t, text, size);
    case _ =>
  }

  lemma UpdateKeepsLocks(s: State, t: nat, m: Local<AppenderPc>)
    requires Locks(s) && Moved(ViewOf(s, t), m, t) && Shaped(Update(s, t, m))
    ensures Locks(Update(s, t, m))
  {
    hide Home;
  }

  lemma UpdateKeepsSlots(s: State, t: nat, m: Local<AppenderPc>)
    requires Locks(s) && Slots(s) && Moved(ViewOf(s, t), m, t) && Traded(ViewOf(s, t), m, t, Home(t, |s.bucketOwner|))
    ensures Shaped(Update(s, t, m)) && Slots(Update(s, t, m))
  {
    hide Home;
  }

  // ---- Order.

  lemma LinesOfOne(lines: seq<Line>, l: Line, t: nat, size: nat)
    ensures LinesOf(lines + [l], t, size)
         == LinesOf(lines, t, size) + (if l.tid == t then [Stored(l.text, size)] else [])
  {
    assert (lines + [l])[..|lines|] == lines;
  }

  /** A line that fits, or that goes to a blank buffer, is accepted as Stored says. */
  lemma AcceptedOne(d: Data, i: nat, t: nat, text: Bytes, size: nat, u: nat)
    requires i < |d.bufs| == |d.accepted| && d.bufs[i].Some? && |d.bufs[i].value.data| <= size
    requires size - |d.bufs[i].value.data| > |text| || d.bufs[i].value.data == []
    ensures LinesOf(Accept(d, i, t, text, size).accepted[i], u, size)
         == LinesOf(d.accepted[i], u, size) + (if u == t then [Stored(text, size)] else [])
  {
    var b := d.bufs[i].value;
    var kept := Filled(b.data, text, size)[|b.data|..];
    assert Stored(kept, size) == Stored(text, size);
    LinesOfOne(d.accepted[i], Line(t, kept), u, size);
  }

  /** What the bucket accepted from each thread, with the line thread t carries, stays
      what it is. */
  ghost predicate Ordered(l: Local<AppenderPc>, m: Local<AppenderPc>, t: nat, b: nat, size: nat) {
    && b < |l.data.accepted| == |m.data.accepted| && m.data.calls == l.data.calls
    && (forall i :: 0 <= i < |l.data.accepted| && i != b ==> m.data.accepted[i] == l.data.accepted[i])
    && (forall u: nat :: u != t ==> LinesOf(m.data.accepted[b], u, size) == LinesOf(l.data.accepted[b], u, size))
    && LinesOf(m.data.accepted[b], t, size) + Pending(m.pc, size)
    == LinesOf(l.data.accepted[b], t, size) + Pending(l.pc, size)
  }

  lemma AdvanceOrders(l: Local<AppenderPc>, t: nat, b: nat, size: nat)
    requires b < |l.data.bufs| == |l.data.accepted| && Advance(l, t, b, size).Some?
    requires forall a :: a in l.data.hands ==> Blank(l.data.hands[a])
    requires forall k :: 0 <= k < |l.data.pool| ==> Blank(l.data.pool[k])
    ensures Ordered(l, Advance(l, t, b, size).value, t, b, size)
  {
    hide Put, Filled, LinesOf, Stored;
    var d, m, me := l.data, Advance(l, t, b, size).value, Appender(t);
    if l.pc.WantBucket? && m.pc.Appended? {
      forall u: nat
        ensures LinesOf(m.data.accepted[b], u, size)
             == LinesOf(d.accepted[b], u, size) + (if u == t then Pending(l.pc, size) else [])
      {
        AcceptedOne(d, b, t, l.pc.text, size, u);
      }
    } else if l.pc.HasBuffer? {
      forall u: nat
        ensures LinesOf(m.data.accepted[b], u, size)
             == LinesOf(d.accepted[b], u, size) + (if u == t then Pending(l.pc, size) else [])
      {
        AcceptedOne(Store(FetchOrNew(d, me), b, me), b, t, l.pc.text, size, u);
      }
    }
  }

  lemma UpdateKeepsOrder(s: State, t: nat, m: Local<AppenderPc>, size: nat)
    requires Shaped(s) && InOrder(s, size) && |m.data.bufs| == |s.data.bufs|
    requires Ordered(ViewOf(s, t), m, t, Home(t, |s.bucketOwner|), size)
    ensures Shaped(Update(s, t, m)) && InOrder(Update(s, t, m), size)
  {
    hide Home, LinesOf, Pending;
    var r := Update(s, t, m);
    forall u: nat
      ensures LinesOf(r.data.calls, u, size)
           == LinesOf(r.data.accepted[Home(u, |r.bucketOwner|)], u, size) + Pending(Pc(r, u), size)
    {
      assert LinesOf(s.data.calls, u, size)
          == LinesOf(s.data.accepted[Home(u, |s.bucketOwner|)], u, size) + Pending(Pc(s, u), size);
    }
  }

  lemma ReadySlots(s: State, t: nat)
    requires Locks(s) && Slots(s)
    ensures var l, b := ViewOf(s, t), Home(t, |s.bucketOwner|);
            && b < |l.data.bufs| == |l.data.accepted|
            && (HoldsBucket(l.pc) ==> l.bucket == Some(Appender(t)))
            && (l.pc.Published? ==> l.front == Some(Appender(t)))
            && (l.pc.Popped? ==> l.pool == Some(Appender(t)))
            && (HoldsBucket(l.pc) ==> (l.data.bufs[b].None? <==> Emptied(l.pc)))
            && (Appender(t) in l.data.hands ==> l.pc.Popped? || l.pc.HasBuffer?)
  {
    hide Home;
  }

  lemma UpdateKeepsBatch(s: State, t: nat, m: Local<AppenderPc>)
    requires Shaped(s) && Batch(s.writer, s.data) && Room(s.writer, s.data) && Reported(s.data)
    requires Apart(ViewOf(s, t), m)
    ensures var r := Update(s, t, m); Batch(r.writer, r.data) && Room(r.writer, r.data) && Reported(r.data)
  {
    hide Home, Blank;
  }

  lemma TradedShape(l: Local<AppenderPc>, m: Local<AppenderPc>, t: nat, b: nat)
    requires Traded(l, m, t, b)
    ensures |m.data.bufs| == |l.data.bufs|
  {
  }

  lemma AppenderKeeps(s: State, t: nat, size: nat)
    requires Inv(s, size) && AppenderStep(s, t, size).Some?
    ensures Inv(AppenderStep(s, t, size).value, size)
  {
    hide Advance, Moved, Traded, Apart, Ordered, FrontLock, PoolLock, Slots, Batch, Room, Reported, InOrder,
      Conserved, Owned, Home;
    var l, b := ViewOf(s, t), Home(t, |s.bucketOwner|);
    var m := Advance(l, t, b, size).value;
    ReadySlots(s, t);
    AdvanceMoves(l, t, b, size);
    AdvanceTrades(l, t, b, size);
    AdvanceKeepsData(l, t, b, size);
    AdvanceOrders(l, t, b, size);
    UpdateKeepsSlots(s, t, m);
    UpdateKeepsLocks(s, t, m);
    UpdateKeepsBatch(s, t, m);
    TradedShape(l, m, t, b);
    UpdateKeepsOrder(s, t, m, size);
  }

  lemma CallKeeps(s: State, t: nat, text: Bytes, size: nat)
    requires Inv(s, size) && Call(s, t, text).Some?
    ensures Inv(Call(s, t, text).value, size)
  {
    hide Call, FrontLock, PoolLock, Slots, InOrder, Batch, Room, Reported, DataInv;
    CallKeepsControl(s, t, text);
    CallKeepsOrder(s, t, text, size);
    CallKeepsBatch(s, t, text);
    CallKeepsData(s, t, text, size);
  }

  lemma CallKeepsBatch(s: State, t: nat, text: Bytes)
    requires Batch(s.writer, s.data) && Room(s.writer, s.data) && Reported(s.data) && Call(s, t, text).Some?
    ensures var r := Call(s, t, text).value; Batch(r.writer, r.data) && Room(r.writer, r.data) && Reported(r.data)
  {
    hide Blank, Pc;
  }

  lemma CallKeepsControl(s: State, t: nat, text: Bytes)
    requires Locks(s) && Slots(s) && Call(s, t, text).Some?
    ensures var r := Call(s, t, text).value; Locks(r) && Slots(r)
  {
    CallKeepsLocks(s, t, text);
    CallKeepsSlots(s, t, text);
  }

  lemma CallKeepsLocks(s: State, t: nat, text: Bytes)
    requires Locks(s) && Call(s, t, text).Some?
    ensures Locks(Call(s, t, text).value)
  {
    hide Home;
  }

  lemma CallKeepsSlots(s: State, t: nat, text: Bytes)
    requires Shaped(s) && Slots(s) && Call(s, t, text).Some?
    ensures Shaped(Call(s, t, text).value) && Slots(Call(s, t, text).value)
  {
    hide Home;
  }

  lemma CallKeepsData(s: State, t: nat, text: Bytes, size: nat)
    requires DataInv(s.data, size) && Call(s, t, text).Some?
    ensures DataInv(Call(s, t, text).value.data, size)
  {
    hide LinesFrom, Settled, Sound, Blank, Homely, Pc;
    SameChains(s.data, Call(s, t, text).value.data);
  }

  lemma CallKeepsOrder(s: State, t: nat, text: Bytes, size: nat)
    requires Shaped(s) && InOrder(s, size) && Call(s, t, text).Some?
    ensures var r := Call(s, t, text).value; Shaped(r) && InOrder(r, size)
  {
    hide Home, LinesOf, Stored;
    var r := Call(s, t, text).value;
    forall u: nat
      ensures LinesOf(r.data.calls, u, size)
           == LinesOf(r.data.accepted[Home(u, |r.bucketOwner|)], u, size) + Pending(Pc(r, u), size)
    {
      LinesOfOne(s.data.calls, Line(t, text), u, size);
      assert LinesOf(s.data.calls, u, size)
          == LinesOf(s.data.accepted[Home(u, |s.bucketOwner|)], u, size) + Pending(Pc(s, u), size);
    }
  }

  // ---- The writer's step keeps each part.

  /** The writer took, kept or released each lock as its positions say. */
  ghost predicate WriterMoved(l: Local<WriterPc>, m: Local<WriterPc>) {
    var me := Some(Writer);
    && Turns(l.bucket, m.bucket, me, WriterBucket(l.pc).Some?, WriterBucket(m.pc).Some?)
    && Turns(l.front, m.front, me, WriterHoldsFront(l.pc), WriterHoldsFront(m.pc))
    && Turns(l.pool, m.pool, me, WriterHoldsPool(l.pc), WriterHoldsPool(m.pc))
  }

  /** The sweep of bucket i trades its buffer as an appender does. */
  ghost predicate SweepTraded(l: Local<WriterPc>, m: Local<WriterPc>, i: nat) {
    var d, e := l.data, m.data;
    && |d.bufs| == |e.bufs| == |d.accepted| && i < |d.bufs|
    && (forall j :: 0 <= j < |d.bufs| && j != i ==> e.bufs[j] == d.bufs[j])
    && (e.bufs[i].None? <==> (m.pc.SweepPool? || m.pc.SweepPopped?))
    && (forall a :: a in e.hands ==> a in d.hands || a == Writer)
    && (forall a :: a in d.hands ==> a in e.hands || a == Writer)
    && (Writer in e.hands ==> m.pc.SweepPopped?)
    && e.accepted == d.accepted && e.calls == d.calls
    && e.back == d.back && e.doomed == d.doomed && e.history == d.history && e.output == d.output
    && |e.pool| <= |d.pool|
    && SweepIndex(m.pc).Some?
    && (WriterBucket(l.pc).Some? || WriterBucket(m.pc).Some?)
    && (WriterBucket(m.pc).Some? ==> WriterBucket(m.pc) == Some(i))
  }

  /** The sweep at bucket i is where its buffer and its locks say. */
  ghost predicate Sweeping(l: Local<WriterPc>, i: nat) {
    && i < |l.data.bufs| == |l.data.accepted| && SweepIndex(l.pc) == Some(i)
    && (WriterBucket(l.pc).Some? ==> l.bucket == Some(Writer))
    && (WriterHoldsFront(l.pc) ==> l.front == Some(Writer))
    && (WriterHoldsPool(l.pc) ==> l.pool == Some(Writer))
    && (WriterBucket(l.pc).Some? ==> (l.data.bufs[i].None? <==> (l.pc.SweepPool? || l.pc.SweepPopped?)))
    && (Writer in l.data.hands ==> l.pc.SweepPopped?)
  }

  lemma SweepMoves(l: Local<WriterPc>, i: nat)
    requires Sweeping(l, i) && SweepStep(l, i).Some?
    ensures WriterMoved(l, SweepStep(l, i).value)
  {
    hide Publish, TryPop, FetchOrNew, Store;
  }

  lemma SweepTrades(l: Local<WriterPc>, i: nat)
    requires Sweeping(l, i) && SweepStep(l, i).Some?
    requires l.pc.Sweep? ==> l.bucket.Some? || l.data.bufs[i].Some?
    ensures SweepTraded(l, SweepStep(l, i).value, i)
  {
  }

  lemma SweepKeepsData(l: Local<WriterPc>, i: nat, size: nat)
    requires Sweeping(l, i) && SweepStep(l, i).Some? && DataInv(l.data, size)
    ensures DataInv(SweepStep(l, i).value.data, size)
  {
    hide DataInv;
    var d := l.data;
    match l.pc
    case SweepFront(_) => PublishKeeps(d, i, size);
    case SweepPool(_) => TryPopKeeps(d, Writer, size);
    case SweepPopped(_) =>
      FetchOrNewKeeps(d, Writer, size);
      StoreKeeps(FetchOrNew(d, Writer), i, Writer, size);
    case _ =>
  }

  predicate WriterHolds(w: WriterPc) {
    w.WantSize? || w.HoldSize? || w.WantPush?
  }

  /** The writer outside the sweep is where its locks and its hand say. */
  ghost predicate Batching(l: Local<WriterPc>) {
    && SweepIndex(l.pc).None? && l.bucket.None?
    && (WriterHoldsFront(l.pc) ==> l.front == Some(Writer))
    && (WriterHoldsPool(l.pc) ==> l.pool == Some(Writer))
    && (Writer in l.data.hands <==> WriterHolds(l.pc))
    && Batch(l.pc, l.data)
  }

  /** Outside the sweep the writer leaves the buckets and all other hands alone. */
  ghost predicate BatchTraded(l: Local<WriterPc>, m: Local<WriterPc>) {
    var d, e := l.data, m.data;
    && e.bufs == d.bufs && e.accepted == d.accepted && e.calls == d.calls
    && (forall a :: a in e.hands && a != Writer ==> a in d.hands)
    && (Writer in e.hands <==> WriterHolds(m.pc))
    && WriterBucket(m.pc).None?
  }

  lemma BatchMoves(l: Local<WriterPc>, running: bool, notice: Bytes)
    requires Batching(l) && BatchStep(l, running, notice).Some?
    ensures WriterMoved(l, BatchStep(l, running, notice).value)
  {
    hide Swap, Trim, WriteOne, EndBatch, TakeLast, PushPool, Discard, Batch;
  }

  lemma BatchTrades(l: Local<WriterPc>, running: bool, notice: Bytes)
    requires Batching(l) && BatchStep(l, running, notice).Some?
    ensures BatchTraded(l, BatchStep(l, running, notice).value)
  {
    hide DropEvents, Blank;
  }

  /** The batch lists and the pool move on as the new position says. */
  lemma BatchKeepsBatch(l: Local<WriterPc>, running: bool, notice: Bytes)
    requires Batching(l) && BatchStep(l, running, notice).Some?
    ensures var m := BatchStep(l, running, notice).value; Batch(m.pc, m.data)
  {
    hide DropEvents;
  }

  lemma BatchKeepsRoom(l: Local<WriterPc>, running: bool, notice: Bytes)
    requires Room(l.pc, l.data) && BatchStep(l, running, notice).Some?
    ensures var m := BatchStep(l, running, notice).value; Room(m.pc, m.data)
  {
  }

  lemma BatchReports(l: Local<WriterPc>, running: bool, notice: Bytes)
    requires Reported(l.data) && BatchStep(l, running, notice).Some?
    ensures Reported(BatchStep(l, running, notice).value.data)
  {
    var d, e := l.data, BatchStep(l, running, notice).value.data;
    assert |e.output| >= |d.output| && e.output[..|d.output|] == d.output;
    if l.pc.Trimming? {
      assert |d.back| > MAX_BACK ==> e.output[|d.output|].Notice?;
    } else if l.pc.Writing? {
      DropEventsAre(d.doomed);
    }
    assert forall j :: 0 <= j < |d.output| && d.output[j].Notice? ==> e.output[j].Notice?;
  }

  lemma BatchKeepsData(l: Local<WriterPc>, running: bool, notice: Bytes, size: nat)
    requires Batching(l) && BatchStep(l, running, notice).Some? && DataInv(l.data, size)
    ensures DataInv(BatchStep(l, running, notice).value.data, size)
  {
    hide DataInv;
    var d := l.data;
    match l.pc
    case WantSwap => SwapKeeps(d, size);
    case Trimming => TrimKeeps(d, notice, size);
    case Writing(k) =>
      if k < |d.back| {
        WriteOneKeeps(d, k, size);
      } else {
        EndBatchKeeps(d, size);
      }
    case Head =>
      if !running {
        FlushOutKeeps(d, size);
      }
    case Recycle =>
      if d.back != [] {
        TakeLastKeeps(d, size);
      } else {
        FlushOutKeeps(d, size);
      }
    case HoldSize(room) =>
      if !room {
        DiscardKeeps(d, size);
      }
    case WantPush => PushPoolKeeps(d, size);
    case _ =>
  }

  /** The step is at the bucket of the sweep. */
  ghost predicate Same(l: Local<WriterPc>, m: Local<WriterPc>) {
    && (WriterBucket(l.pc).Some? ==> WriterBucket(l.pc) == SweepIndex(l.pc))
    && (WriterBucket(m.pc).Some? ==> WriterBucket(m.pc) == SweepIndex(l.pc))
  }

  lemma WriterKeepsLocks(s: State, m: Local<WriterPc>)
    requires Locks(s) && WriterMoved(WriterView(s), m) && Same(WriterView(s), m)
    requires SweepIndex(s.writer).Some? ==> SweepIndex(s.writer).value < |s.bucketOwner|
    requires Shaped(WriterUpdate(s, m))
    ensures Locks(WriterUpdate(s, m))
  {
    hide Home;
  }

  lemma SweepKeepsSlots(s: State, m: Local<WriterPc>, i: nat)
    requires Locks(s) && Slots(s) && SweepIndex(s.writer) == Some(i) && i < |s.bucketOwner|
    requires WriterMoved(WriterView(s), m) && SweepTraded(WriterView(s), m, i)
    ensures Shaped(WriterUpdate(s, m)) && Slots(WriterUpdate(s, m))
  {
    hide Home;
  }

  lemma BatchKeepsSlots(s: State, m: Local<WriterPc>)
    requires Locks(s) && Slots(s) && SweepIndex(s.writer).None?
    requires BatchTraded(WriterView(s), m)
    ensures Shaped(WriterUpdate(s, m)) && Slots(WriterUpdate(s, m))
  {
    hide Home;
  }

  lemma WriterKeepsOrder(s: State, m: Local<WriterPc>, size: nat)
    requires Shaped(s) && InOrder(s, size)
    requires |m.data.bufs| == |s.data.bufs| && m.data.accepted == s.data.accepted && m.data.calls == s.data.calls
    ensures var r := WriterUpdate(s, m); Shaped(r) && InOrder(r, size)
  {
    hide Home, LinesOf, Pending, SweepIndex;
    var r := WriterUpdate(s, m);
    forall u: nat
      ensures LinesOf(r.data.calls, u, size)
           == LinesOf(r.data.accepted[Home(u, |r.bucketOwner|)], u, size) + Pending(Pc(r, u), size)
    {
      assert LinesOf(s.data.calls, u, size)
          == LinesOf(s.data.accepted[Home(u, |s.bucketOwner|)], u, size) + Pending(Pc(s, u), size);
    }
  }

  lemma ReadyWriter(s: State)
    requires Locks(s) && Slots(s) && Batch(s.writer, s.data)
    ensures var l := WriterView(s);
            match SweepIndex(s.writer)
            case Some(i) =>
              if i < |s.bucketOwner| then Sweeping(l, i) && (l.bucket.Some? || l.data.bufs[i].Some?)
              else s.writer == Sweep(i)
            case None => Batching(l)
  {
    hide Home, Blank;
  }

  lemma SweepKeeps(s: State, i: nat, size: nat)
    requires Inv(s, size) && SweepIndex(s.writer) == Some(i) && i < |s.bucketOwner|
    requires SweepStep(WriterView(s), i).Some?
    ensures Inv(WriterUpdate(s, SweepStep(WriterView(s), i).value), size)
  {
    hide SweepStep, FrontLock, PoolLock, Slots, InOrder, Contents, Conserved, Owned, Home, Blank, WriterMoved;
    var l := WriterView(s);
    var m := SweepStep(l, i).value;
    ReadyWriter(s);
    SweepMoves(l, i);
    SweepTrades(l, i);
    SweepKeepsData(l, i, size);
    WriterKeepsLocks(s, m);
    SweepKeepsSlots(s, m, i);
    WriterKeepsOrder(s, m, size);
  }

  lemma BatchKeeps(s: State, notice: Bytes, size: nat)
    requires Inv(s, size) && SweepIndex(s.writer).None?
    requires BatchStep(WriterView(s), s.running, notice).Some?
    ensures Inv(WriterUpdate(s, BatchStep(WriterView(s), s.running, notice).value), size)
  {
    hide BatchStep, FrontLock, PoolLock, Slots, Batch, Room, Reported, InOrder, Contents, Conserved, Owned, Home, Blank,
      WriterMoved;
    var l := WriterView(s);
    var m := BatchStep(l, s.running, notice).value;
    ReadyWriter(s);
    BatchMoves(l, s.running, notice);
    BatchTrades(l, s.running, notice);
    BatchKeepsBatch(l, s.running, notice);
    BatchKeepsRoom(l, s.running, notice);
    BatchReports(l, s.running, notice);
    BatchKeepsData(l, s.running, notice, size);
    WriterKeepsLocks(s, m);
    BatchKeepsSlots(s, m);
    WriterKeepsOrder(s, m, size);
  }

  lemma PastLastKeeps(s: State, i: nat, size: nat)
    requires Inv(s, size) && s.writer == Sweep(i)
    ensures Inv(s.(writer := WantSwap), size)
  {
    hide DataInv, Home, LinesOf, Pending;
  }

  lemma WriterKeeps(s: State, notice: Bytes, size: nat)
    requires Inv(s, size) && WriterStep(s, notice).Some?
    ensures Inv(WriterStep(s, notice).value, size)
  {
    assert Shaped(s);
    hide Inv, SweepStep, BatchStep;
    match SweepIndex(s.writer)
    case Some(i) =>
      if i < |s.bucketOwner| {
        SweepKeeps(s, i, size);
      } else {
        PastLastKeeps(s, i, size);
      }
    case None => BatchKeeps(s, notice, size);
  }
}
