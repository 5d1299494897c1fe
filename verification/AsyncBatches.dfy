/** What becomes of the buffers: which are written and which dropped, in one undisturbed
    turn of the writer and over every run, and what one append publishes. */
module AsyncBatches {
  import opened Options
  import opened FixedBuffers
  import opened LogBuffers
  import opened AsyncLogging
  import opened AsyncRuns
  import opened AsyncObjects

  /** The events of writing these buffers. */
  function WroteAll(fs: seq<Full>): seq<Event> {
    if fs == [] then [] else WroteAll(fs[..|fs| - 1]) + [Wrote(fs[|fs| - 1])]
  }

  /** What the log file is given of them. */
  function PieceAll(fs: seq<Full>): seq<Out> {
    if fs == [] then [] else PieceAll(fs[..|fs| - 1]) + [Piece(fs[|fs| - 1])]
  }

  lemma WroteNext(fs: seq<Full>, k: nat)
    requires k < |fs|
    ensures WroteAll(fs[..k + 1]) == WroteAll(fs[..k]) + [Wrote(fs[k])]
    ensures PieceAll(fs[..k + 1]) == PieceAll(fs[..k]) + [Piece(fs[k])]
  {
    assert fs[..k + 1][..k] == fs[..k];
  }

  /** What is kept of a batch: all of it, or of more than 25 buffers the first two. */
  function Kept(batch: seq<Full>): seq<Full> {
    if |batch| > 25 then batch[..2] else batch
  }

  function Cut(batch: seq<Full>): seq<Full> {
    batch[|Kept(batch)|..]
  }

  // ---- One undisturbed turn.

  /** The buffers of the first n buckets that hold something. */
  function Nonempty(bufs: seq<Option<Buf>>, n: nat): seq<Full>
    requires n <= |bufs|
  {
    if n == 0 then []
    else
      var b := bufs[n - 1];
      Nonempty(bufs, n - 1) + (if b.Some? && b.value.data != [] then [Full(n - 1, b.value)] else [])
  }

  function Less(m: nat, n: nat): nat {
    if n < m then m - n else 0
  }

  /** The sweep publishes exactly the buckets that hold something, in order. */
  lemma {:induction false} SweepPublishes(d: Data, n: nat)
    requires n <= |d.bufs| && (forall i :: 0 <= i < |d.bufs| ==> d.bufs[i].Some?)
    requires Writer !in d.hands && forall k :: 0 <= k < |d.pool| ==> Blank(d.pool[k])
    ensures var e := SweptUpTo(d, n);
            && e.front == d.front + Nonempty(d.bufs, n)
            && |e.pool| == Less(|d.pool|, |Nonempty(d.bufs, n)|)
            && e.output == d.output && e.history == d.history
            && forall i :: n <= i < |d.bufs| ==> e.bufs[i] == d.bufs[i]
  {
    hide Blank, Swept;
    if n == 0 {
      assert d.front + [] == d.front;
    } else {
      SweepPublishes(d, n - 1);
      VisitPublishes(SweptUpTo(d, n - 1), n - 1);
    }
  }

  lemma VisitPublishes(d: Data, i: nat)
    requires i < |d.bufs| && d.bufs[i].Some?
    requires Writer !in d.hands && forall k :: 0 <= k < |d.pool| ==> Blank(d.pool[k])
    ensures var e, full := Swept(d, i), d.bufs[i].value.data != [];
            && e.front == d.front + (if full then [Full(i, d.bufs[i].value)] else [])
            && |e.pool| == Less(|d.pool|, if full then 1 else 0)
            && e.output == d.output && e.history == d.history
            && forall j :: 0 <= j < |d.bufs| && j != i ==> e.bufs[j] == d.bufs[j]
  {
    hide Blank;
  }

  lemma {:induction false} WritesInOrder(d: Data, n: nat)
    requires n <= |d.back|
    ensures var e := WrittenUpTo(d, n);
            && e.output == d.output + PieceAll(d.back[..n]) && e.history == d.history + WroteAll(d.back[..n])
            && forall j :: n <= j < |d.back| ==> e.back[j] == d.back[j]
  {
    if n == 0 {
      assert d.output + [] == d.output && d.history + [] == d.history;
    } else {
      WritesInOrder(d, n - 1);
      WroteNext(d.back, n - 1);
      WriteOneIs(WrittenUpTo(d, n - 1), n - 1);
      hide WriteOne, WroteAll, PieceAll;
    }
  }

  lemma WriteOneIs(d: Data, k: nat)
    requires k < |d.back|
    ensures var e := WriteOne(d, k);
            && e.output == d.output + [Piece(d.back[k])] && e.history == d.history + [Wrote(d.back[k])]
            && |e.back| == |d.back| && e.doomed == d.doomed
            && forall j :: k < j < |d.back| ==> e.back[j] == d.back[j]
  {
  }

  /** Every buffer of the batch goes back to the pool while it has fewer than sixteen. */
  lemma {:induction false} RecyclesToPool(d: Data)
    requires |d.pool| <= 16
    ensures var e := Recycled(d);
            && |e.pool| == (if |d.pool| + |d.back| < 16 then |d.pool| + |d.back| else 16)
            && e.output == d.output && e.history == d.history
    decreases |d.back|
  {
    if d.back == [] {
    } else {
      RecyclesToPool(RecycledOne(d));
    }
  }

  /** The buffers an undisturbed turn finds, in order. */
  function Found(d: Data): seq<Full> {
    d.front + Nonempty(d.bufs, |d.bufs|)
  }

  /** Of the buffers it finds an undisturbed turn of the writer writes all, in order and
      without a notice, unless they are more than 25; then it gives a notice, writes the
      first two and drops the others. Then it flushes. */
  lemma PassWrites(d: Data, notice: Bytes, size: nat)
    requires Resting(d, size)
    ensures var e, found := Called(d, Passes(notice), size), Found(d);
            if |found| <= 25 then
              e.output == d.output + PieceAll(found) + [Flushed] && e.history == d.history + WroteAll(found)
            else
              && e.output == d.output + [Notice(notice)] + PieceAll(found[..2]) + [Flushed]
              && e.history == d.history + WroteAll(found[..2]) + DropEvents(found[2..])
  {
    hide SweptUpTo, Settles, PieceAll, WroteAll, Nonempty, DropEvents, Blank;
    var swept := SweptUpTo(d, |d.bufs|);
    SweepPublishes(d, |d.bufs|);
    SettlesBatch(swept, notice);
  }

  lemma SettlesBatch(d: Data, notice: Bytes)
    requires d.doomed == []
    ensures var e := Settles(d, notice);
            if |d.front| <= 25 then
              e.output == d.output + PieceAll(d.front) + [Flushed] && e.history == d.history + WroteAll(d.front)
            else
              && e.output == d.output + [Notice(notice)] + PieceAll(d.front[..2]) + [Flushed]
              && e.history == d.history + WroteAll(d.front[..2]) + DropEvents(d.front[2..])
    ensures |d.pool| <= 16 ==>
              var n := |d.pool| + |Kept(d.front)|; |Settles(d, notice).pool| == if n < 16 then n else 16
  {
    var b := Trim(Swap(d), notice);
    assert b.back == Kept(d.front) && b.doomed == Cut(d.front) && b.pool == d.pool;
    WritesInOrder(b, |b.back|);
    assert b.back[..|b.back|] == b.back;
    assert d.history + WroteAll(b.back) + [] == d.history + WroteAll(b.back);
    hide WroteAll, PieceAll, Recycled, WrittenUpTo;
    var w := EndBatch(WrittenUpTo(b, |b.back|));
    RecycledHistory(w);
    if |d.pool| <= 16 {
      RecyclesToPool(w);
    }
  }

  lemma {:induction false} RecycledHistory(d: Data)
    ensures Recycled(d).output == d.output && Recycled(d).history == d.history
    decreases |d.back|
  {
    if d.back == [] {
    } else {
      RecycledHistory(RecycledOne(d));
    }
  }

  /** And the buffers it writes go to the pool as long as it has fewer than sixteen. */
  lemma PassRefillsPool(d: Data, notice: Bytes, size: nat)
    requires Resting(d, size) && |d.pool| <= 16
    ensures var n := Less(|d.pool|, |Nonempty(d.bufs, |d.bufs|)|) + |Kept(Found(d))|;
            |Called(d, Passes(notice), size).pool| == if n < 16 then n else 16
  {
    hide SweptUpTo, Settles, PieceAll, WroteAll, Nonempty, DropEvents, Blank;
    SweepPublishes(d, |d.bufs|);
    SettlesBatch(SweptUpTo(d, |d.bufs|), notice);
  }

  // ---- One append.

  /** An append publishes its bucket's buffer if and only if the line is at least as long
      as what is free; otherwise the line joins what is there. */
  lemma AppendPublishes(d: Data, t: nat, text: Bytes, size: nat)
    requires Resting(d, size)
    ensures var e, b := Called(d, Appends(t, text), size), t % |d.bufs|;
            && |e.bufs| == |d.bufs| && e.bufs[b].Some? && e.output == d.output && e.history == d.history
            && (forall i :: 0 <= i < |d.bufs| && i != b ==> e.bufs[i] == d.bufs[i])
            && if size - |d.bufs[b].value.data| <= |text| then
                 && e.front == d.front + [Full(b, d.bufs[b].value)]
                 && e.bufs[b].value.data == text[..if |text| < size then |text| else size]
                 && |e.pool| == Less(|d.pool|, 1)
               else
                 e.front == d.front && e.bufs[b].value.data == d.bufs[b].value.data + text && e.pool == d.pool
  {
    hide Blank, Filled, Accept, Replaced;
    var b, c := t % |d.bufs|, d.(calls := d.calls + [Line(t, text)]);
    FilledFrom([], text, size);
    FilledFrom(d.bufs[b].value.data, text, size);
    if Roomy(c, b, text, size) {
      AcceptIs(c, b, t, text, size);
    } else {
      ReplacedIs(c, b, Appender(t));
      AcceptIs(Replaced(c, b, Appender(t)), b, t, text, size);
    }
  }

  lemma AcceptIs(d: Data, b: nat, t: nat, text: Bytes, size: nat)
    requires b < |d.bufs| == |d.accepted| && d.bufs[b].Some? && |d.bufs[b].value.data| <= size
    ensures var e := Accept(d, b, t, text, size);
            && |e.bufs| == |d.bufs| && e.bufs[b].Some?
            && e.bufs[b].value.data == Filled(d.bufs[b].value.data, text, size)
            && (forall i :: 0 <= i < |d.bufs| && i != b ==> e.bufs[i] == d.bufs[i])
            && e.front == d.front && e.pool == d.pool && e.output == d.output && e.history == d.history
  {
    hide Filled;
  }

  lemma ReplacedIs(d: Data, b: nat, me: Actor)
    requires b < |d.bufs| && d.bufs[b].Some? && me !in d.hands && forall k :: 0 <= k < |d.pool| ==> Blank(d.pool[k])
    ensures var e := Replaced(d, b, me);
            && e.bufs[b].value.data == [] && e.front == d.front + [Full(b, d.bufs[b].value)]
            && (forall i :: 0 <= i < |d.bufs| && i != b ==> e.bufs[i] == d.bufs[i])
            && |e.pool| == Less(|d.pool|, 1) && e.output == d.output && e.history == d.history
  {
  }

  lemma FilledFrom(data: Bytes, text: Bytes, size: nat)
    requires |data| <= size
    ensures data == [] ==> Filled(data, text, size) == text[..if |text| < size then |text| else size]
    ensures |data| + |text| < size ==> Filled(data, text, size) == data + text
  {
  }

  /** In any interleaving too: an append publishes exactly when its line is at least as long
      as what is free, the bucket being its own from there to the publishing. */
  lemma AdvancePublishes(l: Local<AppenderPc>, t: nat, b: nat, size: nat)
    requires b < |l.data.bufs| == |l.data.accepted| && Advance(l, t, b, size).Some?
    ensures var d, m := l.data, Advance(l, t, b, size).value;
            && (if l.pc.WantFront? then d.bufs[b].Some? && m.data.front == d.front + [Full(b, d.bufs[b].value)]
                else m.data.front == d.front)
            && (l.pc.WantBucket? ==>
                  && d.bufs[b].Some? && m.data.bufs[b].Some?
                  && (m.pc.WantFront? <==> size - |d.bufs[b].value.data| <= |l.pc.text|)
                  && m.data.bufs[b].value.data
                     == d.bufs[b].value.data + (if m.pc.WantFront? then [] else l.pc.text))
  {
    if l.pc.WantBucket? && l.data.bufs[b].Some? && |l.data.bufs[b].value.data| <= size {
      FilledFrom(l.data.bufs[b].value.data, l.pc.text, size);
    }
    hide Filled;
  }

  // ---- Every run.

  /** What becomes of these batches. */
  function Outcome(batches: seq<seq<Full>>): seq<Event> {
    if batches == [] then []
    else
      var last := batches[|batches| - 1];
      Outcome(batches[..|batches| - 1]) + (WroteAll(Kept(last)) + DropEvents(Cut(last)))
  }

  /** How many of them are too large. */
  function Overloads(batches: seq<seq<Full>>): nat {
    if batches == [] then 0
    else Overloads(batches[..|batches| - 1]) + (if |batches[|batches| - 1]| > 25 then 1 else 0)
  }

  function Notices(os: seq<Out>): nat {
    if os == [] then 0 else Notices(os[..|os| - 1]) + (if os[|os| - 1].Notice? then 1 else 0)
  }

  lemma OneMoreBatch(batches: seq<seq<Full>>, batch: seq<Full>)
    ensures Outcome(batches + [batch]) == Outcome(batches) + (WroteAll(Kept(batch)) + DropEvents(Cut(batch)))
    ensures Overloads(batches + [batch]) == Overloads(batches) + (if |batch| > 25 then 1 else 0)
  {
    assert (batches + [batch])[..|batches|] == batches;
  }

  lemma OneMoreOut(os: seq<Out>, o: Out)
    ensures Notices(os + [o]) == Notices(os) + (if o.Notice? then 1 else 0)
  {
    assert (os + [o])[..|os|] == os;
  }

  /** The history is what became of the batches so far, one notice for each that was too
      large, and between a swap and the end of its batch the part of it already done. */
  ghost predicate Accounts(w: WriterPc, d: Data, batches: seq<seq<Full>>, batch: seq<Full>) {
    match w
    case Swapped => d.history == Outcome(batches) && Notices(d.output) == Overloads(batches) && d.back == batch
    case Trimming => d.history == Outcome(batches) && Notices(d.output) == Overloads(batches) && d.back == batch
    case Writing(k) =>
      && k <= |d.back| == |Kept(batch)| && d.doomed == Cut(batch)
      && d.history == Outcome(batches) + WroteAll(Kept(batch)[..k])
      && Notices(d.output) == Overloads(batches) + (if |batch| > 25 then 1 else 0)
      && forall j :: k <= j < |d.back| ==> d.back[j] == batch[j]
    case _ => d.history == Outcome(batches) && Notices(d.output) == Overloads(batches)
  }

  lemma SwapAccounts(d: Data, batches: seq<seq<Full>>, batch: seq<Full>)
    requires Accounts(WantSwap, d, batches, batch)
    ensures Accounts(Swapped, Swap(d), batches, d.front)
  {
  }

  lemma TrimAccounts(d: Data, notice: Bytes, batches: seq<seq<Full>>, batch: seq<Full>)
    requires Accounts(Trimming, d, batches, batch) && d.doomed == []
    ensures Accounts(Writing(0), Trim(d, notice), batches, batch)
  {
    OneMoreOut(d.output, Notice(notice));
    hide Outcome, Overloads, Notices;
    assert Outcome(batches) + [] == Outcome(batches);
  }

  lemma WriteAccounts(d: Data, k: nat, batches: seq<seq<Full>>, batch: seq<Full>)
    requires Accounts(Writing(k), d, batches, batch) && k < |d.back|
    ensures Accounts(Writing(k + 1), WriteOne(d, k), batches, batch)
  {
    OneMoreOut(d.output, Piece(d.back[k]));
    WroteNext(Kept(batch), k);
    WriteOneIs(d, k);
    hide Outcome, Overloads, Notices, WroteAll, WriteOne;
    var o, w := Outcome(batches), WroteAll(Kept(batch)[..k]);
    assert o + w + [Wrote(d.back[k])] == o + (w + [Wrote(d.back[k])]);
  }

  lemma EndAccounts(d: Data, k: nat, batches: seq<seq<Full>>, batch: seq<Full>)
    requires Accounts(Writing(k), d, batches, batch) && k == |d.back|
    ensures Accounts(Recycle, EndBatch(d), batches + [batch], batch)
  {
    OneMoreBatch(batches, batch);
    hide Outcome, Overloads, Notices, WroteAll, DropEvents;
    assert Kept(batch)[..k] == Kept(batch);
    var o, w, c := Outcome(batches), WroteAll(Kept(batch)), DropEvents(Cut(batch));
    assert o + w + c == o + (w + c);
  }

  /** A position where the history is what became of whole batches. */
  predicate Between(w: WriterPc) {
    !w.Swapped? && !w.Trimming? && !w.Writing?
  }

  lemma BatchLeaves(l: Local<WriterPc>, running: bool, notice: Bytes)
    requires BatchStep(l, running, notice).Some? && Between(l.pc) && !l.pc.WantSwap?
    ensures var m := BatchStep(l, running, notice).value;
            Between(m.pc) && m.data.history == l.data.history && Notices(m.data.output) == Notices(l.data.output)
  {
    OneMoreOut(l.data.output, Flushed);
    hide Notices;
  }

  /** Each step of the writer keeps the account. */
  lemma BatchAccounts(l: Local<WriterPc>, running: bool, notice: Bytes, batches: seq<seq<Full>>, batch: seq<Full>)
    returns (more: seq<seq<Full>>, next: seq<Full>)
    requires Batching(l) && BatchStep(l, running, notice).Some? && Accounts(l.pc, l.data, batches, batch)
    ensures var m := BatchStep(l, running, notice).value; Accounts(m.pc, m.data, more, next)
  {
    more, next := batches, batch;
    match l.pc
    case WantSwap =>
      SwapAccounts(l.data, batches, batch);
      next := l.data.front;
    case Swapped =>
    case Trimming => TrimAccounts(l.data, notice, batches, batch);
    case Writing(k) =>
      if k < |l.data.back| {
        WriteAccounts(l.data, k, batches, batch);
      } else {
        EndAccounts(l.data, k, batches, batch);
        more := batches + [batch];
      }
    case _ => BatchLeaves(l, running, notice);
  }

  lemma SweepAccounts(l: Local<WriterPc>, m: Local<WriterPc>, i: nat, batches: seq<seq<Full>>, batch: seq<Full>)
    requires SweepTraded(l, m, i) && SweepIndex(l.pc) == Some(i) && Accounts(l.pc, l.data, batches, batch)
    ensures Accounts(m.pc, m.data, batches, batch)
  {
    hide Outcome, Overloads, Notices;
  }

  /** The writer's place and lists, and the histories, as before. */
  lemma SameAccounts(w: WriterPc, d: Data, e: Data, batches: seq<seq<Full>>, batch: seq<Full>)
    requires Accounts(w, d, batches, batch)
    requires e.back == d.back && e.doomed == d.doomed && e.history == d.history && e.output == d.output
    ensures Accounts(w, e, batches, batch)
  {
    hide Outcome, Overloads, Notices;
  }

  lemma WriterAccounts(s: State, notice: Bytes, size: nat, batches: seq<seq<Full>>, batch: seq<Full>)
    returns (more: seq<seq<Full>>, next: seq<Full>)
    requires Inv(s, size) && Shaped(s) && WriterStep(s, notice).Some? && Accounts(s.writer, s.data, batches, batch)
    ensures var r := WriterStep(s, notice).value; Accounts(r.writer, r.data, more, next)
  {
    hide Inv, Locks, Slots, Batch, SweepStep, BatchStep, Sweeping, Batching, Accounts, SweepTraded;
    ReadyForStep(s, size);
    more, next := batches, batch;
    match SweepIndex(s.writer)
    case Some(i) =>
      if i < |s.bucketOwner| {
        SweepTrades(WriterView(s), i);
        SweepAccounts(WriterView(s), SweepStep(WriterView(s), i).value, i, batches, batch);
      } else {
        PastLastAccounts(s.data, i, batches, batch);
      }
    case None => more, next := BatchAccounts(WriterView(s), s.running, notice, batches, batch);
  }

  lemma PastLastAccounts(d: Data, i: nat, batches: seq<seq<Full>>, batch: seq<Full>)
    requires Accounts(Sweep(i), d, batches, batch)
    ensures Accounts(WantSwap, d, batches, batch)
  {
  }

  lemma ReadyForStep(s: State, size: nat)
    requires Inv(s, size)
    ensures var l := WriterView(s);
            match SweepIndex(s.writer)
            case Some(i) =>
              if i < |s.bucketOwner| then Sweeping(l, i) && (l.bucket.Some? || l.data.bufs[i].Some?)
              else s.writer == Sweep(i)
            case None => Batching(l)
  {
    hide Locks, Slots, Batch, InOrder, DataInv, Reported, Sweeping, Batching;
    ReadyWriter(s);
  }

  lemma AppenderLeaves(s: State, t: nat, size: nat)
    requires Inv(s, size) && Shaped(s) && AppenderStep(s, t, size).Some?
    ensures var d, r := s.data, AppenderStep(s, t, size).value;
            && r.writer == s.writer && r.data.back == d.back && r.data.doomed == d.doomed
            && r.data.history == d.history && r.data.output == d.output
  {
    hide Locks, Slots, Batch, InOrder, DataInv, Reported, Home, Advance, Moved;
    ReadySlots(s, t);
    AdvanceMoves(ViewOf(s, t), t, Home(t, |s.bucketOwner|), size);
  }

  /** In every interleaving the writer treats whole batches: of one with at most 25
      buffers all are written, of a larger one the first two, and a notice is given. */
  lemma {:induction false} RunAccounts(buckets: nat, size: nat, actions: seq<Action>, s: State)
    returns (batches: seq<seq<Full>>, batch: seq<Full>)
    requires Reaches(buckets, size, actions, s)
    ensures Accounts(s.writer, s.data, batches, batch)
  {
    hide Inv, Accounts, AppenderStep, WriterStep;
    if actions == [] {
      batches, batch := [], [];
      StartAccounts(buckets);
    } else {
      var last := |actions| - 1;
      var p :| Reaches(buckets, size, actions[..last], p) && Shaped(p) && Act(p, actions[last], size) == Some(s);
      RunKeeps(buckets, size, actions[..last], p);
      batches, batch := RunAccounts(buckets, size, actions[..last], p);
      match actions[last]
      case Enter(t, text) => SameAccounts(p.writer, p.data, s.data, batches, batch);
      case Advances(t) =>
        AppenderLeaves(p, t, size);
        SameAccounts(p.writer, p.data, s.data, batches, batch);
      case Writes(notice) => batches, batch := WriterAccounts(p, notice, size, batches, batch);
      case Stop =>
    }
  }

  lemma StartAccounts(buckets: nat)
    requires buckets > 0
    ensures Accounts(Initial(buckets).writer, Initial(buckets).data, [], [])
  {
  }

  /** How many buffers were dropped. */
  function Drops(es: seq<Event>): nat {
    if es == [] then 0 else Drops(es[..|es| - 1]) + (if es[|es| - 1].Dropped? then 1 else 0)
  }

  lemma {:induction false} DropsConcat(a: seq<Event>, b: seq<Event>)
    ensures Drops(a + b) == Drops(a) + Drops(b)
  {
    if b == [] {
      assert a + b == a;
    } else {
      DropsConcat(a, b[..|b| - 1]);
      assert (a + b)[..|a + b| - 1] == a + b[..|b| - 1];
    }
  }

  lemma {:induction false} DropsOf(fs: seq<Full>)
    ensures Drops(WroteAll(fs)) == 0 && Drops(DropEvents(fs)) == |fs|
  {
    if fs == [] {
    } else {
      var init, last := fs[..|fs| - 1], fs[|fs| - 1];
      DropsOf(init);
      DropsConcat(WroteAll(init), [Wrote(last)]);
      DropsConcat(DropEvents(init), [Dropped(last)]);
    }
  }

  lemma {:induction false} OutcomeDrops(batches: seq<seq<Full>>)
    ensures Drops(Outcome(batches)) >= 24 * Overloads(batches)
    ensures Overloads(batches) == 0 ==> Drops(Outcome(batches)) == 0
  {
    if batches == [] {
    } else {
      var init, last := batches[..|batches| - 1], batches[|batches| - 1];
      OutcomeDrops(init);
      DropsConcat(Outcome(init), WroteAll(Kept(last)) + DropEvents(Cut(last)));
      DropsConcat(WroteAll(Kept(last)), DropEvents(Cut(last)));
      DropsOf(Kept(last));
      DropsOf(Cut(last));
      hide Drops, WroteAll, DropEvents;
    }
  }

  /** In every reachable state each notice stands for at least 24 buffers dropped, and
      nothing is dropped without one. */
  lemma NoticesCost(buckets: nat, size: nat, actions: seq<Action>, s: State)
    requires Reaches(buckets, size, actions, s)
    ensures Drops(s.data.history) + |s.data.doomed| >= 24 * Notices(s.data.output)
    ensures Notices(s.data.output) == 0 ==> Drops(s.data.history) == 0 && s.data.doomed == []
  {
    hide Reaches, Inv, Drops, WroteAll, DropEvents, Outcome, Overloads, Notices;
    RunKeeps(buckets, size, actions, s);
    DoomedInBatch(s, size);
    var batches, batch := RunAccounts(buckets, size, actions, s);
    OutcomeDrops(batches);
    match s.writer
    case Writing(k) =>
      DropsConcat(Outcome(batches), WroteAll(Kept(batch)[..k]));
      DropsOf(Kept(batch)[..k]);
    case _ =>
  }

  lemma DoomedInBatch(s: State, size: nat)
    requires Inv(s, size)
    ensures !s.writer.Writing? ==> s.data.doomed == []
  {
    hide Locks, Slots, InOrder, DataInv, Reported, Blank, AllFlushed;
  }
}
