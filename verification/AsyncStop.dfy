/** What becomes of the lines a bucket accepted when the logger is stopped: how much of
    them is still written or dropped is known at the moment of the stop. */
module AsyncStop {
  import opened Options
  import opened FixedBuffers
  import opened LogBuffers
  import opened AsyncLogging
  import opened AsyncRuns
  import opened AsyncTheorems

  /** The writer's sweep is still to come to bucket b. */
  predicate BeforeSweep(w: WriterPc, b: nat) {
    match w
    case WantWait => true
    case HoldWait => true
    case Sleep => true
    case Woken => true
    case Sweep(i) => i <= b
    case Check(i) => i <= b
    case SweepFront(i) => i <= b
    case SweepPool(i) => i < b
    case SweepPopped(i) => i < b
    case SweepStored(i) => i < b
    case SweepUnlock(i) => i < b
    case _ => false
  }

  /** The bytes in bucket b's buffer. */
  function InBuffer(d: Data, b: nat): Bytes
    requires b < |d.bufs|
  {
    if d.bufs[b].Some? then d.bufs[b].value.data else []
  }

  /** The writer will take all that bucket b accepted: what is in the front list by its
      swap, and what is in the bucket by its sweep. */
  predicate Caught(w: WriterPc, d: Data, b: nat)
    requires b < |d.bufs|
  {
    && (BeforeSwap(w) || BytesFrom(d.front, b) == [])
    && (BeforeSweep(w, b) || InBuffer(d, b) == [])
  }

  /** How many of bucket b's bytes the writer will not take. */
  function Missed(w: WriterPc, d: Data, b: nat): nat
    requires b < |d.bufs|
  {
    (if BeforeSwap(w) then 0 else |BytesFrom(d.front, b)|) + (if BeforeSweep(w, b) then 0 else |InBuffer(d, b)|)
  }

  lemma CaughtMissesNothing(w: WriterPc, d: Data, b: nat)
    requires b < |d.bufs|
    ensures Caught(w, d, b) <==> Missed(w, d, b) == 0
  {
  }

  /** How many of them it takes, or has taken. */
  function Covered(s: State, b: nat): int
    requires b < |s.data.bufs| == |s.data.accepted|
  {
    |Texts(s.data.accepted[b])| - Missed(s.writer, s.data, b)
  }

  // ---- One step.

  lemma BytesFromOne(fs: seq<Full>, f: Full, b: nat)
    ensures BytesFrom(fs + [f], b) == BytesFrom(fs, b) + (if f.home == b then f.buf.data else [])
  {
    assert (fs + [f])[..|fs|] == fs;
  }

  /** The sweep takes what it was about to take. */
  lemma SweepMisses(l: Local<WriterPc>, i: nat, b: nat)
    requires Sweeping(l, i) && SweepStep(l, i).Some? && b < |l.data.bufs|
    requires forall a :: a in l.data.hands ==> Blank(l.data.hands[a])
    ensures var m := SweepStep(l, i).value; Missed(m.pc, m.data, b) == Missed(l.pc, l.data, b)
  {
    hide BytesFrom;
  }

  lemma BatchFront(l: Local<WriterPc>, running: bool, notice: Bytes)
    requires BatchStep(l, running, notice).Some? && !l.pc.WantSwap?
    ensures BatchStep(l, running, notice).value.data.front == l.data.front
  {
    hide DropEvents;
  }

  /** Nor does the writer's position say more, or less, than before. */
  lemma BatchPlaces(l: Local<WriterPc>, running: bool, notice: Bytes, b: nat)
    requires SweepIndex(l.pc).None? && BatchStep(l, running, notice).Some?
    ensures var m := BatchStep(l, running, notice).value;
            if l.pc.WantSwap? then m.pc.Swapped?
            else
              && (BeforeSwap(l.pc) ==> BeforeSwap(m.pc)) && (BeforeSweep(l.pc, b) ==> BeforeSweep(m.pc, b))
              && (!running || !l.pc.Head? ==>
                    BeforeSwap(l.pc) == BeforeSwap(m.pc) && BeforeSweep(l.pc, b) == BeforeSweep(m.pc, b))
  {
    hide Swap, Trim, WriteOne, EndBatch, FlushOut, TakeLast, PushPool, Discard;
  }

  lemma SwapMisses(d: Data, b: nat)
    requires b < |d.bufs|
    ensures Missed(Swapped, Swap(d), b) == Missed(WantSwap, d, b)
  {
    NoBytesFrom(b);
    hide BytesFrom;
  }

  /** So does the rest of the writer's loop, once it is not entered again. */
  lemma BatchMisses(l: Local<WriterPc>, running: bool, notice: Bytes, b: nat)
    requires SweepIndex(l.pc).None? && BatchStep(l, running, notice).Some? && b < |l.data.bufs|
    ensures var m := BatchStep(l, running, notice).value;
            && Missed(m.pc, m.data, b) <= Missed(l.pc, l.data, b)
            && (!running || !l.pc.Head? ==> Missed(m.pc, m.data, b) == Missed(l.pc, l.data, b))
  {
    hide BytesFrom, BeforeSwap, BeforeSweep;
    BatchPlaces(l, running, notice, b);
    if l.pc.WantSwap? {
      SwapMisses(l.data, b);
    } else {
      BatchFront(l, running, notice);
      hide BatchStep;
    }
  }

  /** An appender adds to what will be missed no more than it adds to what was accepted. */
  ghost predicate Covers(d: Data, e: Data, w: WriterPc, b: nat) {
    && b < |d.bufs| == |d.accepted| == |e.bufs| == |e.accepted|
    && Texts(d.accepted[b]) <= Texts(e.accepted[b])
    && Missed(w, e, b) - Missed(w, d, b) <= |Texts(e.accepted[b])| - |Texts(d.accepted[b])|
  }

  lemma AcceptCovers(d: Data, i: nat, t: nat, text: Bytes, size: nat, w: WriterPc, b: nat)
    requires i < |d.bufs| == |d.accepted| && d.bufs[i].Some? && |d.bufs[i].value.data| <= size && b < |d.bufs|
    ensures Covers(d, Accept(d, i, t, text, size), w, b)
  {
    hide Filled, BytesFrom;
    var buf := d.bufs[i].value;
    TextsOne(d.accepted[i], Line(t, Filled(buf.data, text, size)[|buf.data|..]));
    hide Texts;
  }

  lemma PublishCovers(d: Data, i: nat, w: WriterPc, b: nat)
    requires i < |d.bufs| == |d.accepted| && d.bufs[i].Some? && b < |d.bufs|
    ensures Covers(d, Publish(d, i), w, b)
  {
    BytesFromOne(d.front, Full(i, d.bufs[i].value), b);
    hide BytesFrom, Texts;
  }

  lemma StoreMissesNone(d: Data, i: nat, a: Actor, w: WriterPc, b: nat)
    requires i < |d.bufs| == |d.accepted| && d.bufs[i].None? && b < |d.bufs|
    requires forall x :: x in d.hands ==> Blank(d.hands[x])
    ensures var e := Store(FetchOrNew(d, a), i, a);
            |e.bufs| == |d.bufs| && e.accepted == d.accepted && Missed(w, e, b) == Missed(w, d, b)
  {
    hide BytesFrom;
  }

  lemma TryPopCovers(d: Data, a: Actor, w: WriterPc, b: nat)
    requires b < |d.bufs| == |d.accepted|
    ensures Covers(d, TryPop(d, a), w, b)
  {
    hide BytesFrom, Texts;
  }

  lemma RefillCovers(d: Data, i: nat, t: nat, text: Bytes, size: nat, w: WriterPc, b: nat)
    requires i < |d.bufs| == |d.accepted| && d.bufs[i].None? && b < |d.bufs|
    requires forall a :: a in d.hands ==> Blank(d.hands[a])
    requires |Store(FetchOrNew(d, Appender(t)), i, Appender(t)).bufs[i].value.data| <= size
    ensures Covers(d, Accept(Store(FetchOrNew(d, Appender(t)), i, Appender(t)), i, t, text, size), w, b)
  {
    hide BytesFrom, Texts, Accept, InBuffer;
    var e := Store(FetchOrNew(d, Appender(t)), i, Appender(t));
    StoreMissesNone(d, i, Appender(t), w, b);
    AcceptCovers(e, i, t, text, size, w, b);
  }

  lemma AdvanceCovers(l: Local<AppenderPc>, t: nat, c: nat, size: nat, w: WriterPc, b: nat)
    requires c < |l.data.bufs| == |l.data.accepted| && b < |l.data.bufs| && Advance(l, t, c, size).Some?
    requires HoldsBucket(l.pc) ==> (l.data.bufs[c].None? <==> Emptied(l.pc))
    requires forall a :: a in l.data.hands ==> Blank(l.data.hands[a])
    ensures Covers(l.data, Advance(l, t, c, size).value.data, w, b)
  {
    hide BytesFrom, Texts, Accept, Publish, Store, FetchOrNew, Missed;
    var d := l.data;
    match l.pc
    case WantBucket(text) =>
      if size - |d.bufs[c].value.data| > |text| {
        AcceptCovers(d, c, t, text, size, w, b);
      }
    case WantFront(_) => PublishCovers(d, c, w, b);
    case HasBuffer(text) => RefillCovers(d, c, t, text, size, w, b);
    case WantPool(_) => TryPopCovers(d, Appender(t), w, b);
    case _ =>
  }

  lemma BlankHands(s: State, size: nat)
    requires Inv(s, size)
    ensures Shaped(s) && Locks(s) && Slots(s) && Batch(s.writer, s.data)
    ensures forall a :: a in s.data.hands ==> Blank(s.data.hands[a])
  {
  }

  /** The writer's step changes what it will miss only by entering its loop again. */
  lemma WriterMisses(s: State, notice: Bytes, size: nat, b: nat)
    requires Inv(s, size) && Shaped(s) && WriterStep(s, notice).Some? && b < |s.data.bufs|
    ensures var r := WriterStep(s, notice).value;
            && Shaped(r) && r.data.accepted == s.data.accepted && r.running == s.running
            && Missed(r.writer, r.data, b) <= Missed(s.writer, s.data, b)
            && (!s.running || !s.writer.Head? ==> Missed(r.writer, r.data, b) == Missed(s.writer, s.data, b))
  {
    hide Inv, Locks, Slots, Batch, SweepStep, BatchStep, Missed, Sweeping, Batching;
    BlankHands(s, size);
    ReadyWriter(s);
    match SweepIndex(s.writer)
    case Some(i) =>
      if i < |s.bucketOwner| {
        SweepMisses(WriterView(s), i, b);
      } else {
        PastLastMisses(s.data, i, b);
      }
    case None => BatchMisses(WriterView(s), s.running, notice, b);
  }

  lemma PastLastMisses(d: Data, i: nat, b: nat)
    requires b < |d.bufs| <= i
    ensures Missed(WantSwap, d, b) == Missed(Sweep(i), d, b)
  {
  }

  lemma AppenderCovers(s: State, t: nat, size: nat, b: nat)
    requires Inv(s, size) && Shaped(s) && AppenderStep(s, t, size).Some? && b < |s.data.bufs|
    ensures var r := AppenderStep(s, t, size).value;
            Shaped(r) && r.writer == s.writer && Covers(s.data, r.data, s.writer, b)
  {
    hide Inv, Locks, Slots, Batch, Advance, Covers, Home;
    BlankHands(s, size);
    ReadySlots(s, t);
    AdvanceCovers(ViewOf(s, t), t, Home(t, |s.bucketOwner|), size, s.writer, b);
    CoversShape(s.data, Advance(ViewOf(s, t), t, Home(t, |s.bucketOwner|), size).value.data, s.writer, b);
  }

  lemma CoversShape(d: Data, e: Data, w: WriterPc, b: nat)
    requires Covers(d, e, w, b)
    ensures |d.bufs| == |d.accepted| == |e.bufs| == |e.accepted|
  {
  }

  /** No step of any thread takes back what the writer takes. */
  lemma StepCovers(s: State, a: Action, size: nat, b: nat)
    requires Inv(s, size) && Shaped(s) && Act(s, a, size).Some? && b < |s.data.bufs|
    ensures var r := Act(s, a, size).value;
            && Shaped(r) && |r.data.bufs| == |s.data.bufs|
            && Texts(s.data.accepted[b]) <= Texts(r.data.accepted[b]) && Covered(s, b) <= Covered(r, b)
  {
    hide Inv, Texts, AppenderStep, WriterStep, Missed;
    match a
    case Enter(t, text) => CallMisses(s, t, text, b);
    case Advances(t) => AppenderCovers(s, t, size, b);
    case Writes(notice) => WriterMisses(s, notice, size, b);
    case Stop =>
  }

  lemma CallMisses(s: State, t: nat, text: Bytes, b: nat)
    requires Shaped(s) && Call(s, t, text).Some? && b < |s.data.bufs|
    ensures var r := Call(s, t, text).value;
            && Shaped(r) && r.data.accepted == s.data.accepted && r.data.bufs == s.data.bufs
            && Missed(r.writer, r.data, b) == Missed(s.writer, s.data, b)
  {
    hide Pc, BytesFrom;
  }

  // ---- From the stop to the end.

  /** Whatever the threads do, what the writer takes of what was accepted stays taken. */
  lemma {:induction false} LeadsCovers(s: State, actions: seq<Action>, size: nat, r: State, b: nat)
    requires Inv(s, size) && Leads(s, actions, size, r) && Shaped(s) && b < |s.data.bufs|
    ensures Inv(r, size) && Shaped(r) && |r.data.bufs| == |s.data.bufs|
    ensures Texts(s.data.accepted[b]) <= Texts(r.data.accepted[b]) && Covered(s, b) <= Covered(r, b)
  {
    hide Inv, Act, Texts, Covered;
    if actions == [] {
    } else {
      var last := |actions| - 1;
      var p :| Leads(s, actions[..last], size, p) && Shaped(p) && Act(p, actions[last], size) == Some(r);
      LeadsCovers(s, actions[..last], size, p, b);
      ActKeeps(p, actions[last], size);
      StepCovers(p, actions[last], size, b);
    }
  }

  /** Only the writer moves. */
  predicate WriterAlone(actions: seq<Action>) {
    forall k :: 0 <= k < |actions| ==> actions[k].Writes?
  }

  /** Once stopped, the writer left to itself misses what it was going to miss. */
  lemma {:induction false} LeadsMisses(s: State, actions: seq<Action>, size: nat, r: State, b: nat)
    requires Inv(s, size) && Leads(s, actions, size, r) && Shaped(s) && b < |s.data.bufs|
    requires !s.running && WriterAlone(actions)
    ensures Inv(r, size) && Shaped(r) && !r.running && r.data.accepted == s.data.accepted
    ensures Missed(r.writer, r.data, b) == Missed(s.writer, s.data, b)
  {
    hide Inv, WriterStep, Missed;
    if actions == [] {
    } else {
      var last := |actions| - 1;
      var p :| Leads(s, actions[..last], size, p) && Shaped(p) && Act(p, actions[last], size) == Some(r);
      LeadsMisses(s, actions[..last], size, p, b);
      ActKeeps(p, actions[last], size);
      WriterMisses(p, actions[last].notice, size, b);
    }
  }

  /** At the end the writer has missed what is left in the front list and the bucket. */
  lemma ExitedTook(s: State, size: nat, b: nat)
    requires Inv(s, size) && s.writer.Exited? && Shaped(s) && b < |s.data.bufs|
    ensures BytesFrom(Settled(s.data.history), b) <= Texts(s.data.accepted[b])
    ensures |BytesFrom(Settled(s.data.history), b)| == Covered(s, b)
  {
    var d := s.data;
    NoBytesFrom(b);
    hide Inv, Texts, BytesFrom, Settled, Contents, Conserved;
    ExitedBlank(s, size);
    ChainBytes(d, size, b);
    var h, f, c := BytesFrom(Settled(d.history), b), BytesFrom(d.front, b), InBuffer(d, b);
    assert Texts(d.accepted[b]) == h + [] + [] + f + c == h + (f + c);
  }

  /** When the logger has been stopped and the writer runs on to its end, all that a
      bucket accepted is written or dropped exactly when it was caught at the moment of
      the stop; what is left is what was going to be missed then. */
  lemma StopSettles(buckets: nat, size: nat, before: seq<Action>, s: State, after: seq<Action>, r: State, b: nat)
    requires Reaches(buckets, size, before, s) && !s.running && b < |s.data.bufs|
    requires Leads(s, after, size, r) && WriterAlone(after) && r.writer.Exited?
    ensures r.data.accepted == s.data.accepted && b < |s.data.accepted|
    ensures Texts(r.data.accepted[b]) == BytesFrom(Settled(r.data.history), b) <==> Caught(s.writer, s.data, b)
    ensures |BytesFrom(Settled(r.data.history), b)| + Missed(s.writer, s.data, b) == |Texts(s.data.accepted[b])|
  {
    hide Inv, Reaches, Leads, Texts, BytesFrom, Settled, Missed, Caught;
    RunKeeps(buckets, size, before, s);
    ShapedOf(s, size);
    LeadsMisses(s, after, size, r, b);
    ExitedTook(r, size, b);
    CaughtMissesNothing(s.writer, s.data, b);
  }

  /** Whatever appenders do meanwhile, what was accepted of a bucket by now and will not
      be missed as things stand is written or dropped when the writer is done. */
  lemma CoveredSettles(buckets: nat, size: nat, before: seq<Action>, s: State, after: seq<Action>, r: State, b: nat)
    requires Reaches(buckets, size, before, s) && b < |s.data.bufs| == |s.data.accepted|
    requires Leads(s, after, size, r) && r.writer.Exited?
    ensures 0 <= Covered(s, b) <= |Texts(s.data.accepted[b])|
    ensures Texts(s.data.accepted[b])[..Covered(s, b)] <= BytesFrom(Settled(r.data.history), b)
    ensures Caught(s.writer, s.data, b) ==> Texts(s.data.accepted[b]) <= BytesFrom(Settled(r.data.history), b)
  {
    hide Inv, Reaches, Leads, Texts, BytesFrom, Settled, Missed, Caught;
    RunKeeps(buckets, size, before, s);
    ShapedOf(s, size);
    CoveredIs(s, size, b);
    LeadsCovers(s, after, size, r, b);
    ExitedTook(r, size, b);
    CaughtMissesNothing(s.writer, s.data, b);
  }

  /** No more is missed than was accepted. */
  lemma CoveredIs(s: State, size: nat, b: nat)
    requires Inv(s, size) && Shaped(s) && b < |s.data.bufs|
    ensures 0 <= Covered(s, b) <= |Texts(s.data.accepted[b])|
  {
    hide Texts, BytesFrom, Settled, Contents, Conserved, Locks, Slots, Batch, InOrder;
    ChainBytes(s.data, size, b);
  }
}
