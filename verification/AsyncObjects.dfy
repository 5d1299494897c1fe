/** The logger as an object: what append and one pass of the writer do when no other
    thread runs in between. Each is a run of the transition system. */
module AsyncObjects {
  import opened Options
  import opened FixedBuffers
  import opened LogBuffers
  import opened AsyncLogging
  import opened AsyncRuns
  import opened AsyncTheorems

  // ---- Runs of one thread.

  /** The state after doing action a so many times in a row. */
  function Repeat(s: State, a: Action, n: nat, size: nat): Option<State> {
    if n == 0 then Some(s)
    else
      match Repeat(s, a, n - 1, size)
      case None => None
      case Some(p) => if Shaped(p) then Act(p, a, size) else None
  }

  lemma {:induction false} RepeatSum(s: State, a: Action, m: nat, n: nat, size: nat)
    requires Repeat(s, a, m, size).Some?
    ensures Repeat(s, a, m + n, size) == Repeat(Repeat(s, a, m, size).value, a, n, size)
  {
    hide Act;
    if n == 0 {
    } else {
      RepeatSum(s, a, m, n - 1, size);
    }
  }

  /** Thread t's own steps, n of them. */
  function AdvanceBy(l: Local<AppenderPc>, t: nat, b: nat, n: nat, size: nat): (r: Option<Local<AppenderPc>>)
    requires b < |l.data.bufs| == |l.data.accepted|
    ensures r.Some? ==> |r.value.data.bufs| == |r.value.data.accepted| == |l.data.bufs|
  {
    if n == 0 then Some(l)
    else
      match AdvanceBy(l, t, b, n - 1, size)
      case None => None
      case Some(m) => Advance(m, t, b, size)
  }

  lemma UpdateTwice(s: State, t: nat, l: Local<AppenderPc>, m: Local<AppenderPc>)
    requires Shaped(s) && Shaped(Update(s, t, l))
    ensures ViewOf(Update(s, t, l), t) == l && Update(Update(s, t, l), t, m) == Update(s, t, m)
  {
    hide Home;
    var b := Home(t, |s.bucketOwner|);
    assert s.appenders[t := l.pc][t := m.pc] == s.appenders[t := m.pc];
    assert s.bucketOwner[b := l.bucket][b := m.bucket] == s.bucketOwner[b := m.bucket];
  }

  /** Thread t's own steps are steps of the transition system. */
  lemma {:induction false} AdvanceByRepeats(s: State, t: nat, n: nat, size: nat)
    requires Shaped(s) && t in s.appenders
    requires AdvanceBy(ViewOf(s, t), t, Home(t, |s.bucketOwner|), n, size).Some?
    ensures Repeat(s, Advances(t), n, size)
         == Some(Update(s, t, AdvanceBy(ViewOf(s, t), t, Home(t, |s.bucketOwner|), n, size).value))
  {
    hide Home, Advance;
    var l, b := ViewOf(s, t), Home(t, |s.bucketOwner|);
    if n == 0 {
      assert s.appenders[t := s.appenders[t]] == s.appenders;
      assert Update(s, t, l) == s;
    } else {
      AdvanceByRepeats(s, t, n - 1, size);
      var m := AdvanceBy(l, t, b, n - 1, size).value;
      UpdateTwice(s, t, m, Advance(m, t, b, size).value);
    }
  }

  /** The position, the three locks free, and the buffers. */
  function Alone<P>(pc: P, d: Data): Local<P> {
    Local(pc, None, None, None, d)
  }

  predicate Roomy(d: Data, b: nat, text: Bytes, size: nat)
    requires b < |d.bufs| && d.bufs[b].Some?
  {
    size - |d.bufs[b].value.data| > |text|
  }

  /** A bucket's buffer published and replaced by an empty one. */
  function Replaced(d: Data, b: nat, me: Actor): (e: Data)
    requires b < |d.bufs| && d.bufs[b].Some?
    requires me !in d.hands && forall k :: 0 <= k < |d.pool| ==> Blank(d.pool[k])
    ensures |e.bufs| == |d.bufs| && e.bufs[b].Some? && Blank(e.bufs[b].value) && e.hands == d.hands
    ensures e.accepted == d.accepted
  {
    assert d.pool != [] ==> Blank(d.pool[0]);
    Store(FetchOrNew(TryPop(Publish(d, b), me), me), b, me)
  }

  /** What append does to the buffers when nobody interferes. */
  function Logged(d: Data, t: nat, b: nat, text: Bytes, size: nat): Data
    requires b < |d.bufs| == |d.accepted| && d.bufs[b].Some? && |d.bufs[b].value.data| <= size
    requires Appender(t) !in d.hands && forall k :: 0 <= k < |d.pool| ==> Blank(d.pool[k])
  {
    if Roomy(d, b, text, size) then Accept(d, b, t, text, size)
    else Accept(Replaced(d, b, Appender(t)), b, t, text, size)
  }

  lemma AppendSteps(d: Data, t: nat, b: nat, text: Bytes, size: nat)
    requires b < |d.bufs| == |d.accepted| && d.bufs[b].Some? && |d.bufs[b].value.data| <= size
    requires Appender(t) !in d.hands && forall k :: 0 <= k < |d.pool| ==> Blank(d.pool[k])
    ensures AdvanceBy(Alone(WantBucket(text), d), t, b, if Roomy(d, b, text, size) then 2 else 7, size)
         == Some(Alone(Idle, Logged(d, t, b, text, size)))
  {
    hide Put, Filled;
    var me, l := Appender(t), Alone(WantBucket(text), d);
    var l1 := Advance(l, t, b, size).value;
    assert AdvanceBy(l, t, b, 1, size) == Some(l1);
    var l2 := Advance(l1, t, b, size).value;
    assert AdvanceBy(l, t, b, 2, size) == Some(l2);
    if !Roomy(d, b, text, size) {
      var l3 := Advance(l2, t, b, size).value;
      assert AdvanceBy(l, t, b, 3, size) == Some(l3);
      var l4 := Advance(l3, t, b, size).value;
      assert AdvanceBy(l, t, b, 4, size) == Some(l4);
      var l5 := Advance(l4, t, b, size).value;
      assert AdvanceBy(l, t, b, 5, size) == Some(l5);
      var l6 := Advance(l5, t, b, size).value;
      assert AdvanceBy(l, t, b, 6, size) == Some(l6);
      var l7 := Advance(l6, t, b, size).value;
      assert AdvanceBy(l, t, b, 7, size) == Some(l7);
    }
  }

  /** Nobody holds a lock. */
  predicate Quiet(s: State) {
    && (forall i :: 0 <= i < |s.bucketOwner| ==> s.bucketOwner[i].None?)
    && s.frontOwner.None? && s.poolOwner.None?
  }

  /** An append with all locks free, done without interference, is a run. */
  lemma AppendIsRun(s: State, t: nat, text: Bytes, size: nat) returns (n: nat)
    requires Shaped(s) && Quiet(s) && t in s.appenders && s.appenders[t] == WantBucket(text)
    requires var d, b := s.data, Home(t, |s.bucketOwner|);
             d.bufs[b].Some? && |d.bufs[b].value.data| <= size && Appender(t) !in d.hands
             && forall k :: 0 <= k < |d.pool| ==> Blank(d.pool[k])
    ensures Repeat(s, Advances(t), n, size)
         == Some(s.(appenders := s.appenders[t := Idle],
                    data := Logged(s.data, t, Home(t, |s.bucketOwner|), text, size)))
  {
    hide Inv, Home, Roomy, Logged, Repeat, AdvanceBy;
    var d, b := s.data, Home(t, |s.bucketOwner|);
    n := if Roomy(d, b, text, size) then 2 else 7;
    AppendSteps(d, t, b, text, size);
    AdvanceByRepeats(s, t, n, size);
    assert s.bucketOwner[b := None] == s.bucketOwner;
  }

  // ---- The writer alone.

  /** The writer's steps at bucket i, n of them. */
  function SweepBy(l: Local<WriterPc>, i: nat, n: nat): (r: Option<Local<WriterPc>>)
    requires i < |l.data.bufs|
    ensures r.Some? ==> |r.value.data.bufs| == |l.data.bufs| && r.value.data.accepted == l.data.accepted
  {
    if n == 0 then Some(l)
    else
      match SweepBy(l, i, n - 1)
      case None => None
      case Some(m) => if SweepIndex(m.pc) == Some(i) then SweepStep(m, i) else None
  }

  /** The writer's steps outside the sweep, n of them. */
  function BatchBy(l: Local<WriterPc>, running: bool, notice: Bytes, n: nat): (r: Option<Local<WriterPc>>)
    ensures r.Some? ==> r.value.data.bufs == l.data.bufs && r.value.data.accepted == l.data.accepted
    ensures r.Some? ==> r.value.bucket == l.bucket
  {
    if n == 0 then Some(l)
    else
      match BatchBy(l, running, notice, n - 1)
      case None => None
      case Some(m) => if SweepIndex(m.pc).None? then BatchStep(m, running, notice) else None
  }

  lemma {:induction false} SweepByRepeats(s: State, i: nat, n: nat, notice: Bytes, size: nat)
    requires Shaped(s) && SweepIndex(s.writer) == Some(i) && i < |s.bucketOwner|
    requires SweepBy(WriterView(s), i, n).Some?
    ensures Repeat(s, Writes(notice), n, size) == Some(WriterUpdate(s, SweepBy(WriterView(s), i, n).value))
  {
    hide SweepStep;
    var l := WriterView(s);
    if n == 0 {
      assert s.bucketOwner[i := s.bucketOwner[i]] == s.bucketOwner;
    } else {
      SweepByRepeats(s, i, n - 1, notice, size);
      var m := SweepBy(l, i, n - 1).value;
      var p := WriterUpdate(s, m);
      assert WriterView(p) == m;
      var e := SweepStep(m, i).value;
      assert s.bucketOwner[i := m.bucket][i := e.bucket] == s.bucketOwner[i := e.bucket];
      assert Act(p, Writes(notice), size) == Some(WriterUpdate(s, e));
    }
  }

  lemma {:induction false} BatchByRepeats(s: State, n: nat, notice: Bytes, size: nat)
    requires Shaped(s) && SweepIndex(s.writer).None?
    requires BatchBy(WriterView(s), s.running, notice, n).Some?
    ensures Repeat(s, Writes(notice), n, size)
         == Some(WriterUpdate(s, BatchBy(WriterView(s), s.running, notice, n).value))
  {
    hide BatchStep;
    var l := WriterView(s);
    if n == 0 {
    } else {
      BatchByRepeats(s, n - 1, notice, size);
      var m := BatchBy(l, s.running, notice, n - 1).value;
      var p := WriterUpdate(s, m);
      var e := BatchStep(m, s.running, notice).value;
      assert WriterView(p) == m;
      assert Act(p, Writes(notice), size) == Some(WriterUpdate(s, e));
    }
  }

  /** The sweep's visit to bucket i. */
  function Swept(d: Data, i: nat): (e: Data)
    requires i < |d.bufs| && d.bufs[i].Some?
    requires Writer !in d.hands && forall k :: 0 <= k < |d.pool| ==> Blank(d.pool[k])
    ensures |e.bufs| == |d.bufs| && e.bufs[i].Some? && e.bufs[i].value.data == [] && e.hands == d.hands
    ensures e.accepted == d.accepted
  {
    if |d.bufs[i].value.data| > 0 then Replaced(d, i, Writer) else d
  }

  lemma SweepSteps(d: Data, i: nat) returns (n: nat)
    requires i < |d.bufs| && d.bufs[i].Some?
    requires Writer !in d.hands && forall k :: 0 <= k < |d.pool| ==> Blank(d.pool[k])
    ensures SweepBy(Alone(Sweep(i), d), i, n) == Some(Alone(Sweep(i + 1), Swept(d, i)))
  {
    var l := Alone(Sweep(i), d);
    var l1 := SweepStep(l, i).value;
    assert SweepBy(l, i, 1) == Some(l1);
    var l2 := SweepStep(l1, i).value;
    assert SweepBy(l, i, 2) == Some(l2);
    var l3 := SweepStep(l2, i).value;
    assert SweepBy(l, i, 3) == Some(l3);
    n := 3;
    if |d.bufs[i].value.data| > 0 {
      var l4 := SweepStep(l3, i).value;
      assert SweepBy(l, i, 4) == Some(l4);
      var l5 := SweepStep(l4, i).value;
      assert SweepBy(l, i, 5) == Some(l5);
      var l6 := SweepStep(l5, i).value;
      assert SweepBy(l, i, 6) == Some(l6);
      var l7 := SweepStep(l6, i).value;
      assert SweepBy(l, i, 7) == Some(l7);
      n := 7;
    }
  }

  // ---- One pass of the writer.

  /** The sweep over the first n buckets. */
  function SweptUpTo(d: Data, n: nat): (e: Data)
    requires n <= |d.bufs| && (forall i :: 0 <= i < |d.bufs| ==> d.bufs[i].Some?)
    requires Writer !in d.hands && forall k :: 0 <= k < |d.pool| ==> Blank(d.pool[k])
    ensures |e.bufs| == |d.bufs| && (forall i :: 0 <= i < |e.bufs| ==> e.bufs[i].Some?)
    ensures forall i :: 0 <= i < n ==> e.bufs[i].value.data == []
    ensures e.hands == d.hands && forall k :: 0 <= k < |e.pool| ==> Blank(e.pool[k])
    ensures e.back == d.back && e.doomed == d.doomed && e.accepted == d.accepted
  {
    if n == 0 then d else Swept(SweptUpTo(d, n - 1), n - 1)
  }

  /** The first n buffers of the batch written. */
  function WrittenUpTo(d: Data, n: nat): (e: Data)
    requires n <= |d.back|
    ensures |e.back| == |d.back| && e.bufs == d.bufs && e.hands == d.hands && e.pool == d.pool
    ensures e.front == d.front && e.doomed == d.doomed
    ensures forall j :: 0 <= j < n ==> Blank(e.back[j].buf)
  {
    if n == 0 then d else WriteOne(WrittenUpTo(d, n - 1), n - 1)
  }

  /** One buffer of the batch goes to the pool, if there is room. */
  function RecycledOne(d: Data): (e: Data)
    requires d.back != []
    ensures |e.back| == |d.back| - 1
  {
    var h := TakeLast(d);
    if |d.pool| < MAX_POOL then PushPool(h) else Discard(h)
  }

  function Recycled(d: Data): (e: Data)
    ensures e.back == []
    decreases |d.back|
  {
    if d.back == [] then d else Recycled(RecycledOne(d))
  }

  /** What becomes of the batch after the sweep. */
  function Settles(d: Data, notice: Bytes): (e: Data)
    ensures e.back == []
  {
    var b := Trim(Swap(d), notice);
    FlushOut(Recycled(EndBatch(WrittenUpTo(b, |b.back|))))
  }

  /** What a pass of the writer does to the buffers when nobody interferes. */
  function Passed(d: Data, notice: Bytes): (e: Data)
    requires forall i :: 0 <= i < |d.bufs| ==> d.bufs[i].Some?
    requires Writer !in d.hands && forall k :: 0 <= k < |d.pool| ==> Blank(d.pool[k])
    ensures e.back == []
  {
    Settles(SweptUpTo(d, |d.bufs|), notice)
  }

  lemma WaitSteps(d: Data, notice: Bytes) returns (n: nat)
    ensures BatchBy(Alone(Head, d), true, notice, n) == Some(Alone(Sweep(0), d))
  {
    var l := Alone(Head, d);
    var l1 := BatchStep(l, true, notice).value;
    assert BatchBy(l, true, notice, 1) == Some(l1);
    var l2 := BatchStep(l1, true, notice).value;
    assert BatchBy(l, true, notice, 2) == Some(l2);
    var l3 := BatchStep(l2, true, notice).value;
    assert BatchBy(l, true, notice, 3) == Some(l3);
    n := 3;
    if d.front == [] {
      var l4 := BatchStep(l3, true, notice).value;
      assert BatchBy(l, true, notice, 4) == Some(l4);
      var l5 := BatchStep(l4, true, notice).value;
      assert BatchBy(l, true, notice, 5) == Some(l5);
      n := 5;
    }
  }

  lemma SwapSteps(d: Data, notice: Bytes)
    ensures BatchBy(Alone(WantSwap, d), true, notice, 3) == Some(Alone(Writing(0), Trim(Swap(d), notice)))
  {
    hide Trim, Swap;
    var l := Alone(WantSwap, d);
    var l1 := BatchStep(l, true, notice).value;
    assert BatchBy(l, true, notice, 1) == Some(l1);
    var l2 := BatchStep(l1, true, notice).value;
    assert BatchBy(l, true, notice, 2) == Some(l2);
  }

  lemma BatchNext(l: Local<WriterPc>, notice: Bytes, n: nat, m: Local<WriterPc>)
    requires BatchBy(l, true, notice, n) == Some(m) && SweepIndex(m.pc).None?
    ensures BatchBy(l, true, notice, n + 1) == BatchStep(m, true, notice)
  {
  }

  lemma {:induction false} WriteSteps(d: Data, notice: Bytes, k: nat)
    requires k <= |d.back|
    ensures BatchBy(Alone(Writing(0), d), true, notice, k) == Some(Alone(Writing(k), WrittenUpTo(d, k)))
  {
    if k == 0 {
    } else {
      hide BatchBy, WriteOne, EndBatch;
      WriteSteps(d, notice, k - 1);
      BatchNext(Alone(Writing(0), d), notice, k - 1, Alone(Writing(k - 1), WrittenUpTo(d, k - 1)));
    }
  }

  /** Taking a buffer of the batch and looking at the pool. */
  lemma TakeMoves(d: Data, notice: Bytes)
    requires d.back != []
    ensures var h, room := TakeLast(d), |d.pool| < MAX_POOL;
            && Writer in h.hands
            && BatchStep(Alone(Recycle, d), true, notice) == Some(Alone(WantSize, h))
            && BatchStep(Alone(WantSize, h), true, notice) == Some(Local(HoldSize(room), None, None, Some(Writer), h))
  {
  }

  /** Pushing it, or letting it go. */
  lemma HandMoves(h: Data, notice: Bytes)
    requires Writer in h.hands
    ensures BatchStep(Local(HoldSize(true), None, None, Some(Writer), h), true, notice) == Some(Alone(WantPush, h))
    ensures BatchStep(Local(HoldSize(false), None, None, Some(Writer), h), true, notice)
         == Some(Alone(Recycle, Discard(h)))
    ensures BatchStep(Alone(WantPush, h), true, notice) == Some(Local(Pushed, None, None, Some(Writer), PushPool(h)))
    ensures BatchStep(Local(Pushed, None, None, Some(Writer), PushPool(h)), true, notice)
         == Some(Alone(Recycle, PushPool(h)))
  {
    hide PushPool, Discard;
  }

  lemma RecycleSteps(d: Data, notice: Bytes) returns (n: nat)
    requires d.back != []
    ensures BatchBy(Alone(Recycle, d), true, notice, n) == Some(Alone(Recycle, RecycledOne(d)))
  {
    var l, h, room := Alone(Recycle, d), TakeLast(d), |d.pool| < MAX_POOL;
    assert BatchBy(l, true, notice, 0) == Some(l);
    hide BatchBy, BatchStep, TakeLast, PushPool, Discard;
    TakeMoves(d, notice);
    HandMoves(h, notice);
    BatchNext(l, notice, 0, l);
    BatchNext(l, notice, 1, Alone(WantSize, h));
    BatchNext(l, notice, 2, Local(HoldSize(room), None, None, Some(Writer), h));
    n := 3;
    if room {
      BatchNext(l, notice, 3, Alone(WantPush, h));
      BatchNext(l, notice, 4, Local(Pushed, None, None, Some(Writer), PushPool(h)));
      n := 5;
    }
  }

  /** The state with the writer at w and the buffers as given. */
  function WriterAt(s: State, w: WriterPc, d: Data): State {
    s.(writer := w, data := d)
  }

  /** A run of steps outside the sweep, from one position without locks to another. */
  lemma BatchRuns(s: State, m: WriterPc, e: Data, n: nat, notice: Bytes, size: nat)
    requires Shaped(s) && Quiet(s) && s.running && SweepIndex(s.writer).None?
    requires BatchBy(Alone(s.writer, s.data), true, notice, n) == Some(Alone(m, e))
    ensures Repeat(s, Writes(notice), n, size) == Some(WriterAt(s, m, e))
  {
    hide BatchBy, Repeat;
    BatchByRepeats(s, n, notice, size);
  }

  lemma {:induction false} SweepRuns(s: State, i: nat, notice: Bytes, size: nat) returns (n: nat)
    requires Shaped(s) && Quiet(s) && s.writer == Sweep(0) && i <= |s.bucketOwner|
    requires forall j :: 0 <= j < |s.data.bufs| ==> s.data.bufs[j].Some?
    requires Writer !in s.data.hands && forall k :: 0 <= k < |s.data.pool| ==> Blank(s.data.pool[k])
    ensures Repeat(s, Writes(notice), n, size) == Some(WriterAt(s, Sweep(i), SweptUpTo(s.data, i)))
    ensures |SweptUpTo(s.data, i).accepted| == |s.data.accepted|
  {
    hide Repeat, Swept, SweepBy, Blank;
    if i == 0 {
      n := 0;
      assert WriterAt(s, Sweep(0), s.data) == s;
      RepeatNone(s, Writes(notice), size);
    } else {
      var m := SweepRuns(s, i - 1, notice, size);
      var d := SweptUpTo(s.data, i - 1);
      var p := WriterAt(s, Sweep(i - 1), d);
      var k := SweepSteps(d, i - 1);
      SweepByRepeats(p, i - 1, k, notice, size);
      assert s.bucketOwner[i - 1 := None] == s.bucketOwner;
      RepeatSum(s, Writes(notice), m, k, size);
      n := m + k;
    }
  }

  lemma RepeatNone(s: State, a: Action, size: nat)
    ensures Repeat(s, a, 0, size) == Some(s)
  {
  }

  lemma {:induction false} RecycleRuns(s: State, notice: Bytes, size: nat) returns (n: nat)
    requires Shaped(s) && Quiet(s) && s.running && s.writer == Recycle
    ensures Repeat(s, Writes(notice), n, size) == Some(WriterAt(s, Head, FlushOut(Recycled(s.data))))
    decreases |s.data.back|
  {
    hide Repeat, RecycledOne, BatchBy;
    if s.data.back == [] {
      n := 1;
      LastRecycle(s.data, notice);
      BatchRuns(s, Head, FlushOut(s.data), 1, notice, size);
    } else {
      var k := RecycleSteps(s.data, notice);
      var e := RecycledOne(s.data);
      RecycledShape(s.data);
      BatchRuns(s, Recycle, e, k, notice, size);
      var m := RecycleRuns(WriterAt(s, Recycle, e), notice, size);
      RepeatSum(s, Writes(notice), k, m, size);
      n := k + m;
    }
  }

  lemma LastRecycle(d: Data, notice: Bytes)
    requires d.back == []
    ensures BatchBy(Alone(Recycle, d), true, notice, 1) == Some(Alone(Head, FlushOut(d)))
  {
    BatchNext(Alone(Recycle, d), notice, 0, Alone(Recycle, d));
  }

  lemma RecycledShape(d: Data)
    requires d.back != []
    ensures RecycledOne(d).bufs == d.bufs && RecycledOne(d).accepted == d.accepted
  {
  }

  lemma {:induction false} WrittenAccepted(d: Data, n: nat)
    requires n <= |d.back|
    ensures WrittenUpTo(d, n).accepted == d.accepted
  {
    if n == 0 {
    } else {
      WrittenAccepted(d, n - 1);
    }
  }

  lemma PassSweeps(s: State, notice: Bytes, size: nat) returns (n: nat)
    requires Shaped(s) && Quiet(s) && s.running && s.writer == Head
    requires forall j :: 0 <= j < |s.data.bufs| ==> s.data.bufs[j].Some?
    requires Writer !in s.data.hands && forall k :: 0 <= k < |s.data.pool| ==> Blank(s.data.pool[k])
    ensures Repeat(s, Writes(notice), n, size) == Some(WriterAt(s, WantSwap, SweptUpTo(s.data, |s.data.bufs|)))
    ensures |SweptUpTo(s.data, |s.data.bufs|).accepted| == |s.data.accepted|
  {
    hide Repeat, BatchBy, SweptUpTo, Blank;
    var a, d := Writes(notice), SweptUpTo(s.data, |s.data.bufs|);
    var m := WaitSteps(s.data, notice);
    BatchRuns(s, Sweep(0), s.data, m, notice, size);
    var k := SweepRuns(WriterAt(s, Sweep(0), s.data), |s.data.bufs|, notice, size);
    RepeatSum(s, a, m, k, size);
    PastLastRuns(WriterAt(s, Sweep(|s.data.bufs|), d), notice, size);
    RepeatSum(s, a, m + k, 1, size);
    n := m + k + 1;
  }

  lemma BatchSettles(s: State, notice: Bytes, size: nat) returns (n: nat)
    requires Shaped(s) && Quiet(s) && s.running && s.writer == WantSwap
    ensures Repeat(s, Writes(notice), n, size) == Some(WriterAt(s, Head, Settles(s.data, notice)))
  {
    hide Repeat, BatchBy, WrittenUpTo, Recycled, Swap, Trim, EndBatch, Blank;
    var a, b := Writes(notice), Trim(Swap(s.data), notice);
    SwapSteps(s.data, notice);
    TrimShape(s.data, notice);
    BatchRuns(s, Writing(0), b, 3, notice, size);
    WriteSteps(b, notice, |b.back|);
    var w := WrittenUpTo(b, |b.back|);
    WrittenAccepted(b, |b.back|);
    BatchRuns(WriterAt(s, Writing(0), b), Writing(|b.back|), w, |b.back|, notice, size);
    RepeatSum(s, a, 3, |b.back|, size);
    LastWrite(w, |b.back|, notice);
    BatchRuns(WriterAt(s, Writing(|b.back|), w), Recycle, EndBatch(w), 1, notice, size);
    RepeatSum(s, a, 3 + |b.back|, 1, size);
    EndBatchShape(w);
    var k := RecycleRuns(WriterAt(s, Recycle, EndBatch(w)), notice, size);
    RepeatSum(s, a, 3 + |b.back| + 1, k, size);
    n := 3 + |b.back| + 1 + k;
  }

  /** A pass of the writer with no one else in between is a run of the transition system. */
  lemma PassIsRun(s: State, notice: Bytes, size: nat) returns (n: nat)
    requires Shaped(s) && Quiet(s) && s.running && s.writer == Head
    requires forall j :: 0 <= j < |s.data.bufs| ==> s.data.bufs[j].Some?
    requires Writer !in s.data.hands && forall k :: 0 <= k < |s.data.pool| ==> Blank(s.data.pool[k])
    ensures Repeat(s, Writes(notice), n, size) == Some(WriterAt(s, Head, Passed(s.data, notice)))
  {
    hide Repeat, SweptUpTo, Settles, Blank;
    var m := PassSweeps(s, notice, size);
    var k := BatchSettles(WriterAt(s, WantSwap, SweptUpTo(s.data, |s.data.bufs|)), notice, size);
    RepeatSum(s, Writes(notice), m, k, size);
    n := m + k;
  }

  lemma PastLastRuns(s: State, notice: Bytes, size: nat)
    requires Shaped(s) && s.writer == Sweep(|s.bucketOwner|)
    ensures Repeat(s, Writes(notice), 1, size) == Some(WriterAt(s, WantSwap, s.data))
  {
    RepeatNone(s, Writes(notice), size);
  }

  lemma TrimShape(d: Data, notice: Bytes)
    ensures var e := Trim(Swap(d), notice); e.bufs == d.bufs && e.accepted == d.accepted
  {
  }

  lemma EndBatchShape(d: Data)
    ensures EndBatch(d).bufs == d.bufs && EndBatch(d).accepted == d.accepted
  {
  }

  lemma LastWrite(d: Data, k: nat, notice: Bytes)
    requires k == |d.back|
    ensures BatchBy(Alone(Writing(k), d), true, notice, 1) == Some(Alone(Recycle, EndBatch(d)))
  {
    hide EndBatch;
    BatchNext(Alone(Writing(k), d), notice, 0, Alone(Writing(k), d));
  }

  // ---- What an undisturbed pass achieves.

  lemma {:induction false} RepeatKeeps(s: State, a: Action, n: nat, size: nat)
    requires Inv(s, size) && Repeat(s, a, n, size).Some?
    ensures Inv(Repeat(s, a, n, size).value, size)
  {
    hide Inv, Act;
    if n == 0 {
    } else {
      RepeatKeeps(s, a, n - 1, size);
      ActKeeps(Repeat(s, a, n - 1, size).value, a, size);
    }
  }

  /** When no lock is held, every bucket has its buffer and the writer's hand is empty. */
  lemma QuietReady(s: State, size: nat)
    requires Inv(s, size) && Quiet(s) && s.writer == Head
    ensures Shaped(s) && forall j :: 0 <= j < |s.data.bufs| ==> s.data.bufs[j].Some?
    ensures Writer !in s.data.hands && forall k :: 0 <= k < |s.data.pool| ==> Blank(s.data.pool[k])
  {
    hide Home, Blank, Sound, InOrder, Conserved, Owned, Accounted, Reported;
  }

  lemma {:induction false} RecycledFrame(d: Data)
    ensures var e := Recycled(d);
            e.bufs == d.bufs && e.front == d.front && e.doomed == d.doomed && e.accepted == d.accepted
    decreases |d.back|
  {
    hide RecycledOne;
    if d.back == [] {
    } else {
      assert RecycledOne(d).front == d.front && RecycledOne(d).doomed == d.doomed by { RecycledOneFrame(d); }
      RecycledShape(d);
      RecycledFrame(RecycledOne(d));
    }
  }

  lemma RecycledOneFrame(d: Data)
    requires d.back != []
    ensures RecycledOne(d).front == d.front && RecycledOne(d).doomed == d.doomed
  {
  }

  lemma SettlesFrame(d: Data, notice: Bytes)
    ensures var e := Settles(d, notice);
            e.bufs == d.bufs && e.front == [] && e.doomed == [] && e.accepted == d.accepted
  {
    hide Recycled, WrittenUpTo;
    var b := Trim(Swap(d), notice);
    WrittenAccepted(b, |b.back|);
    RecycledFrame(EndBatch(WrittenUpTo(b, |b.back|)));
  }

  /** One undisturbed pass of the writer writes or drops every byte accepted before it. */
  lemma PassSettlesAll(s: State, notice: Bytes, size: nat, b: nat)
    requires Inv(s, size) && Quiet(s) && s.running && s.writer == Head && b < |s.data.bufs|
    ensures Writer !in s.data.hands && forall k :: 0 <= k < |s.data.pool| ==> Blank(s.data.pool[k])
    ensures forall j :: 0 <= j < |s.data.bufs| ==> s.data.bufs[j].Some?
    ensures var e := Passed(s.data, notice);
            b < |e.accepted| && Texts(e.accepted[b]) == BytesFrom(Settled(e.history), b)
  {
    hide Repeat, SweptUpTo, Settles, BytesFrom, Settled, Texts, Inv, Blank;
    QuietReady(s, size);
    var n := PassIsRun(s, notice, size);
    RepeatKeeps(s, Writes(notice), n, size);
    var e := Passed(s.data, notice);
    SettlesFrame(SweptUpTo(s.data, |s.data.bufs|), notice);
    DataOf(WriterAt(s, Head, e), size);
    ChainBytes(e, size, b);
    NoBytes(b);
  }

  lemma DataOf(s: State, size: nat)
    requires Inv(s, size)
    ensures Contents(s.data, size) && Conserved(s.data) && |s.data.bufs| == |s.data.accepted|
  {
  }

  lemma NoBytes(b: nat)
    ensures BytesFrom([], b) == []
  {
  }

  lemma {:induction false} RecycledReady(d: Data)
    requires Writer !in d.hands && (forall k :: 0 <= k < |d.pool| ==> Blank(d.pool[k]))
    requires forall k :: 0 <= k < |d.back| ==> Blank(d.back[k].buf)
    ensures var e := Recycled(d); e.hands == d.hands && forall k :: 0 <= k < |e.pool| ==> Blank(e.pool[k])
    decreases |d.back|
  {
    hide Blank;
    if d.back == [] {
    } else {
      RecycledReady(RecycledOne(d));
    }
  }

  lemma SettlesReady(d: Data, notice: Bytes)
    requires Writer !in d.hands && (forall k :: 0 <= k < |d.pool| ==> Blank(d.pool[k]))
    ensures var e := Settles(d, notice); e.hands == d.hands && forall k :: 0 <= k < |e.pool| ==> Blank(e.pool[k])
  {
    hide Blank, Recycled, DropEvents;
    var b := Trim(Swap(d), notice);
    RecycledReady(EndBatch(WrittenUpTo(b, |b.back|)));
  }

  // ---- Any sequence of calls.

  /** A call on the logger: a thread's append, or one turn of the writer. */
  datatype ObjectCall = Appends(tid: nat, text: Bytes) | Passes(notice: Bytes)

  /** The buffers between calls: one in each bucket, blank ones in the pool, no batch. */
  ghost predicate Resting(d: Data, size: nat) {
    && |d.bufs| == |d.accepted| > 0
    && (forall i :: 0 <= i < |d.bufs| ==> d.bufs[i].Some? && |d.bufs[i].value.data| <= size)
    && (forall k :: 0 <= k < |d.pool| ==> Blank(d.pool[k]))
    && d.hands == map[] && d.back == [] && d.doomed == []
  }

  function Called(d: Data, c: ObjectCall, size: nat): Data
    requires Resting(d, size)
  {
    match c
    case Appends(t, text) =>
      Logged(d.(calls := d.calls + [Line(t, text)]), t, Home(t, |d.bufs|), text, size)
    case Passes(notice) => Passed(d, notice)
  }

  /** A new logger may be left with the buffers d by these calls in order. */
  ghost predicate Leaves(buckets: nat, size: nat, calls: seq<ObjectCall>, d: Data) {
    if buckets == 0 then false
    else if calls == [] then d == Initial(buckets).data
    else
      var last := |calls| - 1;
      exists p :: Leaves(buckets, size, calls[..last], p) && Resting(p, size) && d == Called(p, calls[last], size)
  }

  lemma LeavesNext(buckets: nat, size: nat, calls: seq<ObjectCall>, p: Data, c: ObjectCall)
    requires Leaves(buckets, size, calls, p) && Resting(p, size)
    ensures Leaves(buckets, size, calls + [c], Called(p, c, size))
  {
    hide Resting, Called;
    var all := calls + [c];
    assert all[..|all| - 1] == calls;
    assert Leaves(buckets, size, all[..|all| - 1], p) && Resting(p, size);
    assert Called(p, c, size) == Called(p, all[|all| - 1], size);
  }

  /** No thread is inside a call. */
  ghost predicate AtRest(s: State) {
    && Shaped(s) && Quiet(s) && s.running && s.writer == Head
    && forall u: nat :: Pc(s, u) == Idle
  }

  lemma {:induction false} RepeatReaches(buckets: nat, size: nat, actions: seq<Action>, s: State, a: Action, n: nat,
                                         r: State)
    returns (more: seq<Action>)
    requires Reaches(buckets, size, actions, s) && Repeat(s, a, n, size) == Some(r)
    ensures Reaches(buckets, size, more, r)
  {
    hide Act, Reaches;
    if n == 0 {
      more := actions;
    } else {
      var p := Repeat(s, a, n - 1, size).value;
      var before := RepeatReaches(buckets, size, actions, s, a, n - 1, p);
      var q := ReachNext(buckets, size, before, p, a);
      more := before + [a];
    }
  }

  lemma AppendReaches(buckets: nat, size: nat, actions: seq<Action>, s: State, t: nat, text: Bytes)
    returns (more: seq<Action>, r: State)
    requires Reaches(buckets, size, actions, s) && AtRest(s) && Resting(s.data, size)
    ensures Reaches(buckets, size, more, r) && AtRest(r) && r.data == Called(s.data, Appends(t, text), size)
  {
    hide Reaches, Home, Logged, Repeat;
    var c := ReachNext(buckets, size, actions, s, Enter(t, text));
    var n := AppendIsRun(c, t, text, size);
    var d := Logged(c.data, t, Home(t, |c.bucketOwner|), text, size);
    LoggedShape(c.data, t, Home(t, |c.bucketOwner|), text, size);
    r := c.(appenders := c.appenders[t := Idle], data := d);
    more := RepeatReaches(buckets, size, actions + [Enter(t, text)], c, Advances(t), n, r);
    forall u: nat
      ensures Pc(r, u) == Idle
    {
      assert Pc(s, u) == Idle;
    }
  }

  lemma LoggedRests(d: Data, t: nat, text: Bytes, size: nat)
    requires Resting(d, size)
    ensures Resting(Called(d, Appends(t, text), size), size)
  {
    hide Home;
  }

  lemma PassedRests(d: Data, notice: Bytes, size: nat)
    requires Resting(d, size)
    ensures var e := Called(d, Passes(notice), size); Resting(e, size) && |e.bufs| == |d.bufs|
  {
    hide Settles, Blank;
    var swept := SweptUpTo(d, |d.bufs|);
    SettlesReady(swept, notice);
    SettlesFrame(swept, notice);
  }

  lemma LoggedShape(d: Data, t: nat, b: nat, text: Bytes, size: nat)
    requires b < |d.bufs| == |d.accepted| && d.bufs[b].Some? && |d.bufs[b].value.data| <= size
    requires Appender(t) !in d.hands && forall k :: 0 <= k < |d.pool| ==> Blank(d.pool[k])
    ensures var e := Logged(d, t, b, text, size); |e.bufs| == |d.bufs| && |e.accepted| == |d.accepted|
  {
    hide Put, Filled;
  }

  lemma PassReaches(buckets: nat, size: nat, actions: seq<Action>, s: State, notice: Bytes)
    returns (more: seq<Action>, r: State)
    requires Reaches(buckets, size, actions, s) && AtRest(s) && Resting(s.data, size)
    ensures Reaches(buckets, size, more, r) && AtRest(r) && r.data == Called(s.data, Passes(notice), size)
  {
    hide Reaches, SweptUpTo, Settles, Repeat;
    var n := PassIsRun(s, notice, size);
    SettlesFrame(SweptUpTo(s.data, |s.data.bufs|), notice);
    r := WriterAt(s, Head, Passed(s.data, notice));
    more := RepeatReaches(buckets, size, actions, s, Writes(notice), n, r);
    forall u: nat
      ensures Pc(r, u) == Idle
    {
      assert Pc(s, u) == Idle;
    }
  }

  /** Whatever calls were made on a new logger, its buffers are those of a reachable
      state of the transition system, so everything proved of those holds of it. */
  lemma {:induction false} CallsAreRuns(buckets: nat, size: nat, calls: seq<ObjectCall>, d: Data)
    returns (actions: seq<Action>, s: State)
    requires Leaves(buckets, size, calls, d)
    ensures Reaches(buckets, size, actions, s) && AtRest(s) && s.data == d
  {
    hide Reaches, AtRest, Resting, Called;
    if calls == [] {
      actions, s := [], Initial(buckets);
      StartsAtRest(buckets, size);
    } else {
      var last := |calls| - 1;
      var p :| Leaves(buckets, size, calls[..last], p) && Resting(p, size) && d == Called(p, calls[last], size);
      var before, q := CallsAreRuns(buckets, size, calls[..last], p);
      match calls[last]
      case Appends(t, text) => actions, s := AppendReaches(buckets, size, before, q, t, text);
      case Passes(notice) => actions, s := PassReaches(buckets, size, before, q, notice);
    }
  }

  lemma StartsAtRest(buckets: nat, size: nat)
    requires buckets > 0
    ensures AtRest(Initial(buckets)) && Reaches(buckets, size, [], Initial(buckets))
  {
  }

  lemma InitialPool(buckets: nat, k: nat)
    requires buckets > 0 && k < INIT_POOL
    ensures var d := Initial(buckets).data; |d.pool| == INIT_POOL && d.nextId == buckets + INIT_POOL
    ensures var d := Initial(buckets).data; d.pool[..k] + [Buf(buckets + k, [], [])] == d.pool[..k + 1]
  {
  }

  lemma StartsResting(buckets: nat, size: nat)
    requires buckets > 0
    ensures var d := Initial(buckets).data;
            Resting(d, size) && |d.bufs| == buckets && Leaves(buckets, size, [], d) && d.nextId == buckets + INIT_POOL
  {
  }

  // ---- The objects.

  /** BlockingQueue, as the buffer pool uses it. */
  class BlockingQueue<T> {
    var queue: seq<T>

    constructor ()
      ensures queue == []
    {
      queue := [];
    }

    method Push(x: T)
      modifies this
      ensures queue == old(queue) + [x]
    {
      queue := queue + [x];
    }

    method TryPop() returns (x: Option<T>)
      modifies this
      ensures old(queue) == [] ==> x.None? && queue == []
      ensures old(queue) != [] ==> x == Some(old(queue)[0]) && queue == old(queue)[1..]
    {
      if |queue| == 0 {
        x := None;
      } else {
        x := Some(queue[0]);
        queue := queue[1..];
      }
    }

    function Size(): nat
      reads this
    {
      |queue|
    }
  }

  class Logger {
    const size: nat
    const pool: BlockingQueue<Buf>
    var bufs: seq<Option<Buf>>
    var front: seq<Full>
    var back: seq<Full>
    ghost var hands: map<Actor, Buf>
    ghost var place: map<nat, Place>
    ghost var calls: seq<Line>
    ghost var accepted: seq<seq<Line>>
    ghost var history: seq<Event>
    ghost var doomed: seq<Full>
    ghost var output: seq<Out>
    ghost var made: seq<ObjectCall>
    var nextId: nat

    ghost function View(): Data
      reads this, pool
    {
      Data(bufs, front, back, pool.queue, hands, place, nextId, calls, accepted, history, doomed, output)
    }

    /** Between calls: the buffers are at rest, and are what the calls made leave. */
    ghost predicate Valid()
      reads this, pool
    {
      Resting(View(), size) && Leaves(|bufs|, size, made, View())
    }

    constructor (size: nat, buckets: nat)
      requires buckets > 0
      ensures Valid() && fresh(pool) && this.size == size && View() == Initial(buckets).data && made == []
    {
      this.size := size;
      bufs := seq(buckets, (i: nat) => Some(Buf(i, [], [])));
      front, back := [], [];
      var q := new BlockingQueue<Buf>();
      pool := q;
      hands, calls, history, doomed, output, made := map[], [], [], [], [], [];
      accepted := seq(buckets, _ => []);
      place := map id: nat | id < buckets + INIT_POOL :: if id < buckets then InBucket(id) else InPool;
      nextId := buckets;
      new;
      ghost var start := Initial(buckets).data;
      assert View() == start.(pool := [], nextId := buckets);
      hide Initial;
      for k: nat := 0 to INIT_POOL
        invariant k <= INIT_POOL == |start.pool| && nextId == buckets + k
        invariant View() == start.(pool := start.pool[..k], nextId := buckets + k) && made == []
      {
        pool.Push(Buf(nextId, [], []));
        nextId := nextId + 1;
        InitialPool(buckets, k);
      }
      assert start.pool[..INIT_POOL] == start.pool;
      StartsResting(buckets, size);
    }

    /** FixedBuffer::append on a bucket's buffer. */
    method Put(b: nat, t: nat, text: Bytes)
      requires b < |bufs| == |accepted| && bufs[b].Some? && |bufs[b].value.data| <= size
      modifies this`bufs, this`accepted
      ensures View() == Accept(old(View()), b, t, text, size)
    {
      var buf := LogBuffers.Put(bufs[b].value, t, text, size);
      bufs := bufs[b := Some(buf)];
      accepted := accepted[b := accepted[b] + [buf.lines[|buf.lines| - 1]]];
    }

    /** The pool's pop: a pooled buffer, or a new one. */
    method PopBuffer(ghost me: Actor) returns (buf: Buf)
      requires me !in hands
      modifies this`hands, this`place, this`nextId, pool
      ensures View() == FetchOrNew(TryPop(old(View()), me), me)
      ensures me in hands && hands[me] == buf
    {
      var got := pool.TryPop();
      match got
      case Some(x) =>
        buf := x;
        hands := hands[me := buf];
        place := place[buf.id := InHand(me)];
      case None =>
        buf := Buf(nextId, [], []);
        hands := hands[me := buf];
        place := place[nextId := InHand(me)];
        nextId := nextId + 1;
    }

    /** A bucket's buffer goes to the front list and the pool's next takes its place. */
    method Replace(b: nat, ghost me: Actor)
      requires b < |bufs| && bufs[b].Some? && me !in hands
      requires forall k :: 0 <= k < |pool.queue| ==> Blank(pool.queue[k])
      modifies this`bufs, this`front, this`place, this`hands, this`nextId, pool
      ensures View() == Replaced(old(View()), b, me)
    {
      front := front + [Full(b, bufs[b].value)];
      place := place[bufs[b].value.id := InFront];
      bufs := bufs[b := None];
      assert View() == Publish(old(View()), b);
      var buf := PopBuffer(me);
      bufs := bufs[b := Some(buf)];
      place := place[buf.id := InBucket(b)];
      hands := hands - {me};
    }

    method Append(t: nat, text: Bytes)
      requires Valid()
      modifies this, pool
      ensures Valid() && made == old(made) + [Appends(t, text)]
      ensures View() == old(Called(View(), Appends(t, text), size))
    {
      ghost var was := View();
      LeavesNext(|bufs|, size, made, was, Appends(t, text));
      LoggedRests(was, t, text, size);
      hide Leaves;
      calls := calls + [Line(t, text)];
      var b := t % |bufs|;
      if size - |bufs[b].value.data| > |text| {
        Put(b, t, text);
      } else {
        Replace(b, Appender(t));
        Put(b, t, text);
      }
      made := made + [Appends(t, text)];
    }

    /** The sweep: every bucket that holds something is published. */
    method Sweep()
      requires Resting(View(), size)
      modifies this`bufs, this`front, this`place, this`hands, this`nextId, pool
      ensures View() == SweptUpTo(old(View()), |old(bufs)|)
    {
      ghost var d := View();
      for i: nat := 0 to |bufs|
        invariant i <= |bufs| == |d.bufs| && View() == SweptUpTo(d, i)
      {
        if |bufs[i].value.data| > 0 {
          Replace(i, Writer);
        }
      }
    }

    method SwapLists()
      modifies this`front, this`back, this`place
      ensures View() == LogBuffers.Swap(old(View()))
    {
      back, front := front, [];
      place := map id | id in place :: if place[id] == InFront then InBack else place[id];
    }

    /** Overload: of more than 25 buffers only the first two are kept. */
    method DropOverload(notice: Bytes)
      modifies this`output, this`place, this`doomed, this`back
      ensures View() == Trim(old(View()), notice)
    {
      if |back| > 25 {
        output := output + [Notice(notice)];
        place := map id | id in place && (forall k :: 2 <= k < |back| ==> back[k].buf.id != id) :: place[id];
        doomed := back[2..];
        back := back[..2];
      }
    }

    method WriteBatch()
      modifies this`output, this`history, this`back, this`doomed
      ensures View() == EndBatch(WrittenUpTo(old(View()), |old(back)|))
    {
      ghost var d := View();
      for k: nat := 0 to |back|
        invariant k <= |back| == |d.back| && View() == WrittenUpTo(d, k)
      {
        var f := back[k];
        output := output + [Piece(f)];
        history := history + [Wrote(f)];
        back := back[k := Full(f.home, Buf(f.buf.id, [], []))];
      }
      history := history + DropEvents(doomed);
      doomed := [];
    }

    /** The last buffer of the batch goes to the pool, unless sixteen are there. */
    method RecycleLast()
      requires back != []
      modifies this`back, this`hands, this`place, pool
      ensures View() == RecycledOne(old(View()))
    {
      var buf := back[|back| - 1].buf;
      back := back[..|back| - 1];
      hands := hands[Writer := buf];
      place := place[buf.id := InHand(Writer)];
      assert View() == TakeLast(old(View()));
      if pool.Size() < 16 {
        pool.Push(buf);
        place := place[buf.id := InPool];
      } else {
        place := place - {buf.id};
      }
      hands := hands - {Writer};
    }

    method RecycleBatch()
      modifies this`back, this`hands, this`place, pool
      ensures View() == Recycled(old(View()))
    {
      while |back| > 0
        invariant Recycled(View()) == Recycled(old(View()))
        decreases |back|
      {
        RecycleLast();
      }
    }

    /** The batch, from the swap to the pool and the flush. */
    method Settle(notice: Bytes)
      modifies this`front, this`back, this`place, this`output, this`history, this`doomed, this`hands, pool
      ensures View() == Settles(old(View()), notice)
    {
      hide Swap, Trim, EndBatch, WrittenUpTo, Recycled;
      SwapLists();
      DropOverload(notice);
      WriteBatch();
      RecycleBatch();
      output := output + [Flushed];
    }

    /** One turn of the writer's loop. */
    method Pass(notice: Bytes)
      requires Valid()
      modifies this, pool
      ensures Valid() && made == old(made) + [Passes(notice)]
      ensures View() == old(Called(View(), Passes(notice), size))
    {
      ghost var was := View();
      LeavesNext(|bufs|, size, made, was, Passes(notice));
      PassedRests(was, notice, size);
      hide Leaves, Resting, SweptUpTo, Settles;
      Sweep();
      Settle(notice);
      made := made + [Passes(notice)];
    }
  }

  /** The logger inherits the invariant: its buffers are those of a reachable state. */
  lemma LoggerReachable(logger: Logger) returns (actions: seq<Action>, s: State)
    requires logger.Valid()
    ensures Reaches(|logger.bufs|, logger.size, actions, s) && s.data == logger.View() && Inv(s, logger.size)
  {
    hide Inv, Reaches, AtRest, Resting, Leaves;
    actions, s := CallsAreRuns(|logger.bufs|, logger.size, logger.made, logger.View());
    RunKeeps(|logger.bufs|, logger.size, actions, s);
  }
}
