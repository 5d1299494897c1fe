/** The buffers of the asynchronous logger and how they move: from a bucket to the
    front list, to the writer's back list, to the pool, and back to a bucket. Each
    operation is what one lock-protected region does to them. */
module LogBuffers {
  import opened Options
  import opened FixedBuffers

  type Bytes = seq<char>

  /** An append call, or what a buffer kept of one. */
  datatype Line = Line(tid: nat, text: Bytes)

  /** A buffer: its bytes, and the lines they were written as since the last reset. */
  datatype Buf = Buf(id: nat, data: Bytes, lines: seq<Line>)

  /** A buffer taken out of bucket home. */
  datatype Full = Full(home: nat, buf: Buf)

  datatype Actor = Appender(tid: nat) | Writer

  datatype Place = InBucket(i: nat) | InFront | InBack | InPool | InHand(actor: Actor)

  /** What became of a published buffer. */
  datatype Event = Wrote(full: Full) | Dropped(full: Full)

  /** What the log file was asked to do: append a notice or a buffer, or flush. */
  datatype Out = Notice(text: Bytes) | Piece(full: Full) | Flushed

  /** All buffers of the logger, with the histories the properties speak about:
      calls are all append calls in the order made, accepted the lines stored in each
      bucket, history the published buffers written or dropped, in order of arrival,
      doomed those dropped from the batch still being written, output everything the
      log file was given, place where each live buffer is. */
  datatype Data = Data(
    bufs: seq<Option<Buf>>,
    front: seq<Full>,
    back: seq<Full>,
    pool: seq<Buf>,
    hands: map<Actor, Buf>,
    place: map<nat, Place>,
    nextId: nat,
    calls: seq<Line>,
    accepted: seq<seq<Line>>,
    history: seq<Event>,
    doomed: seq<Full>,
    output: seq<Out>)

  const MAX_POOL: nat := 16
  const MAX_BACK: nat := 25

  // ---- The operations.

  /** What a buffer of the given size keeps of a line put into it empty. */
  function Stored(text: Bytes, size: nat): Bytes {
    Filled([], text, size)
  }

  /** FixedBuffer::append, recording the line. */
  function Put(b: Buf, tid: nat, text: Bytes, size: nat): Buf
    requires |b.data| <= size
  {
    var data := Filled(b.data, text, size);
    Buf(b.id, data, b.lines + [Line(tid, data[|b.data|..])])
  }

  function Accept(d: Data, i: nat, tid: nat, text: Bytes, size: nat): Data
    requires i < |d.bufs| == |d.accepted| && d.bufs[i].Some? && |d.bufs[i].value.data| <= size
  {
    var b := Put(d.bufs[i].value, tid, text, size);
    d.(bufs := d.bufs[i := Some(b)],
       accepted := d.accepted[i := d.accepted[i] + [b.lines[|b.lines| - 1]]])
  }

  /** The bucket's buffer goes to the end of the front list. */
  function Publish(d: Data, i: nat): Data
    requires i < |d.bufs| && d.bufs[i].Some?
  {
    d.(bufs := d.bufs[i := None],
       front := d.front + [Full(i, d.bufs[i].value)],
       place := d.place[d.bufs[i].value.id := InFront])
  }

  /** try_pop on the pool. */
  function TryPop(d: Data, a: Actor): Data {
    if d.pool == [] then d
    else d.(pool := d.pool[1..], hands := d.hands[a := d.pool[0]], place := d.place[d.pool[0].id := InHand(a)])
  }

  /** An empty pool means a new buffer. */
  function FetchOrNew(d: Data, a: Actor): Data {
    if a in d.hands then d
    else d.(hands := d.hands[a := Buf(d.nextId, [], [])],
            place := d.place[d.nextId := InHand(a)],
            nextId := d.nextId + 1)
  }

  function Store(d: Data, i: nat, a: Actor): Data
    requires i < |d.bufs| && a in d.hands
  {
    d.(bufs := d.bufs[i := Some(d.hands[a])],
       hands := d.hands - {a},
       place := d.place[d.hands[a].id := InBucket(i)])
  }

  function Swap(d: Data): Data {
    d.(front := [], back := d.front,
       place := map id | id in d.place :: if d.place[id] == InFront then InBack else d.place[id])
  }

  /** Overload: keep the first two buffers of the batch. */
  function Trim(d: Data, notice: Bytes): Data {
    if |d.back| > MAX_BACK then
      d.(back := d.back[..2], doomed := d.back[2..], output := d.output + [Notice(notice)],
         place := map id | id in d.place && (forall k :: 2 <= k < |d.back| ==> d.back[k].buf.id != id) :: d.place[id])
    else d
  }

  /** Hands buffer k of the batch to the log file and resets it. */
  function WriteOne(d: Data, k: nat): Data
    requires k < |d.back|
  {
    var f := d.back[k];
    d.(output := d.output + [Piece(f)],
       history := d.history + [Wrote(f)],
       back := d.back[k := Full(f.home, Buf(f.buf.id, [], []))])
  }

  function DropEvents(fs: seq<Full>): seq<Event> {
    if fs == [] then [] else DropEvents(fs[..|fs| - 1]) + [Dropped(fs[|fs| - 1])]
  }

  /** The batch is written: what was dropped from it has had its turn. */
  function EndBatch(d: Data): Data {
    d.(history := d.history + DropEvents(d.doomed), doomed := [])
  }

  /** The log file is flushed. */
  function FlushOut(d: Data): Data {
    d.(output := d.output + [Flushed])
  }

  function TakeLast(d: Data): Data
    requires d.back != []
  {
    var last := |d.back| - 1;
    d.(back := d.back[..last],
       hands := d.hands[Writer := d.back[last].buf],
       place := d.place[d.back[last].buf.id := InHand(Writer)])
  }

  function PushPool(d: Data): Data
    requires Writer in d.hands
  {
    d.(pool := d.pool + [d.hands[Writer]],
       hands := d.hands - {Writer},
       place := d.place[d.hands[Writer].id := InPool])
  }

  /** The pool is full: the buffer is freed. */
  function Discard(d: Data): Data
    requires Writer in d.hands
  {
    d.(hands := d.hands - {Writer}, place := d.place - {d.hands[Writer].id})
  }

  // ---- What the operations keep.

  function Texts(lines: seq<Line>): Bytes {
    if lines == [] then [] else Texts(lines[..|lines| - 1]) + lines[|lines| - 1].text
  }

  /** The buffer's bytes are whole lines, all from threads of bucket home. */
  ghost predicate Sound(b: Buf, home: nat, size: nat, buckets: nat) {
    && |b.data| <= size && b.data == Texts(b.lines)
    && Homely(b.lines, home, buckets)
  }

  ghost predicate Homely(lines: seq<Line>, home: nat, buckets: nat) {
    buckets > 0 && forall k :: 0 <= k < |lines| ==> lines[k].tid % buckets == home
  }

  predicate Blank(b: Buf) {
    b.data == [] && b.lines == []
  }

  ghost predicate SoundList(fs: seq<Full>, size: nat, buckets: nat) {
    forall k :: 0 <= k < |fs| ==> Sound(fs[k].buf, fs[k].home, size, buckets)
  }

  /** Contents: whole lines everywhere, blank buffers in the pool and in hand. */
  ghost predicate Contents(d: Data, size: nat) {
    && |d.bufs| == |d.accepted| > 0
    && (forall i :: 0 <= i < |d.bufs| && d.bufs[i].Some? ==> Sound(d.bufs[i].value, i, size, |d.bufs|))
    && SoundList(d.front, size, |d.bufs|) && SoundList(d.back, size, |d.bufs|) && SoundList(d.doomed, size, |d.bufs|)
    && (forall k :: 0 <= k < |d.pool| ==> Blank(d.pool[k]))
    && (forall a :: a in d.hands ==> Blank(d.hands[a]))
    && (forall i :: 0 <= i < |d.accepted| ==> Homely(d.accepted[i], i, |d.bufs|))
    && (forall k :: 0 <= k < |d.history| ==> Sound(d.history[k].full.buf, d.history[k].full.home, size, |d.bufs|))
  }

  /** The lines of bucket b's buffers in a list, in order. */
  function LinesFrom(fs: seq<Full>, b: nat): seq<Line> {
    if fs == [] then []
    else
      var f := fs[|fs| - 1];
      LinesFrom(fs[..|fs| - 1], b) + (if f.home == b then f.buf.lines else [])
  }

  function Settled(es: seq<Event>): seq<Full> {
    if es == [] then [] else Settled(es[..|es| - 1]) + [es[|es| - 1].full]
  }

  function Written(es: seq<Event>): seq<Full> {
    if es == [] then []
    else Written(es[..|es| - 1]) + (match es[|es| - 1] case Wrote(f) => [f] case Dropped(_) => [])
  }

  function Pieces(os: seq<Out>): seq<Full> {
    if os == [] then []
    else Pieces(os[..|os| - 1]) + (match os[|os| - 1] case Piece(f) => [f] case _ => [])
  }

  function Current(b: Option<Buf>): seq<Line> {
    if b.Some? then b.value.lines else []
  }

  /** Conservation: what a bucket accepted is, in order, in its settled buffers, then
      in its part of the batch being written, what was dropped from it, the front list
      and the bucket itself. */
  ghost predicate Conserved(d: Data) {
    && |d.bufs| == |d.accepted|
    && (forall b :: 0 <= b < |d.bufs| ==> d.accepted[b] == Chain(d, b))
    && Pieces(d.output) == Written(d.history)
  }

  function Chain(d: Data, b: nat): seq<Line>
    requires b < |d.bufs|
  {
    LinesFrom(Settled(d.history), b) + LinesFrom(d.back, b) + LinesFrom(d.doomed, b)
    + LinesFrom(d.front, b) + Current(d.bufs[b])
  }

  ghost predicate Distinct(fs: seq<Full>) {
    forall j, k :: 0 <= j < k < |fs| ==> fs[j].buf.id != fs[k].buf.id
  }

  ghost predicate At(d: Data, id: nat, p: Place) {
    id in d.place && d.place[id] == p
  }

  /** Ownership: every buffer is where place says, so in one place only. */
  ghost predicate Owned(d: Data) {
    && (forall i :: 0 <= i < |d.bufs| && d.bufs[i].Some? ==> At(d, d.bufs[i].value.id, InBucket(i)))
    && (forall k :: 0 <= k < |d.front| ==> At(d, d.front[k].buf.id, InFront))
    && (forall k :: 0 <= k < |d.back| ==> At(d, d.back[k].buf.id, InBack))
    && (forall k :: 0 <= k < |d.pool| ==> At(d, d.pool[k].id, InPool))
    && (forall a :: a in d.hands ==> At(d, d.hands[a].id, InHand(a)))
    && Distinct(d.front) && Distinct(d.back)
    && (forall j, k :: 0 <= j < k < |d.pool| ==> d.pool[j].id != d.pool[k].id)
    && (forall id :: id in d.place ==> id < d.nextId)
  }

  /** Buffer id is at place p. */
  ghost predicate Holds(d: Data, p: Place, id: nat) {
    match p
    case InBucket(i) => i < |d.bufs| && d.bufs[i].Some? && d.bufs[i].value.id == id
    case InFront => exists k :: 0 <= k < |d.front| && d.front[k].buf.id == id
    case InBack => exists k :: 0 <= k < |d.back| && d.back[k].buf.id == id
    case InPool => exists k :: 0 <= k < |d.pool| && d.pool[k].id == id
    case InHand(a) => a in d.hands && d.hands[a].id == id
  }

  /** No live buffer is lost: each is where place says. */
  ghost predicate Accounted(d: Data) {
    forall id :: id in d.place ==> Holds(d, d.place[id], id)
  }

  ghost predicate DataInv(d: Data, size: nat) {
    Contents(d, size) && Conserved(d) && Owned(d) && Accounted(d)
  }

  // ---- Lists.

  lemma {:induction false} LinesFromConcat(a: seq<Full>, b: seq<Full>, home: nat)
    ensures LinesFrom(a + b, home) == LinesFrom(a, home) + LinesFrom(b, home)
  {
    if b == [] {
      assert a + b == a;
    } else {
      LinesFromConcat(a, b[..|b| - 1], home);
      assert (a + b)[..|a + b| - 1] == a + b[..|b| - 1];
    }
  }

  lemma LinesFromOne(f: Full, home: nat)
    ensures LinesFrom([f], home) == if f.home == home then f.buf.lines else []
  {
    assert [f][..0] == [];
  }

  lemma {:induction false} SettledDrops(es: seq<Event>, fs: seq<Full>)
    ensures Settled(es + DropEvents(fs)) == Settled(es) + fs
    ensures Written(es + DropEvents(fs)) == Written(es)
  {
    hide Settled, Written;
    if fs == [] {
      assert es + DropEvents(fs) == es;
    } else {
      var init, last := fs[..|fs| - 1], fs[|fs| - 1];
      SettledDrops(es, init);
      assert es + DropEvents(fs) == es + DropEvents(init) + [Dropped(last)];
      SettledOne(es + DropEvents(init), Dropped(last));
      assert Settled(es) + init + [last] == Settled(es) + fs;
    }
  }

  lemma SettledOne(es: seq<Event>, e: Event)
    ensures Settled(es + [e]) == Settled(es) + [e.full]
    ensures Written(es + [e]) == Written(es) + (match e case Wrote(f) => [f] case Dropped(_) => [])
  {
    assert (es + [e])[..|es|] == es;
  }

  lemma PiecesOne(os: seq<Out>, o: Out)
    ensures Pieces(os + [o]) == Pieces(os) + (match o case Piece(f) => [f] case _ => [])
  {
    assert (os + [o])[..|os|] == os;
  }

  /** Blanking the first unwritten buffer moves its lines out of the front of the list. */
  lemma BlankedHead(fs: seq<Full>, k: nat, home: nat)
    requires k < |fs| && (forall j :: 0 <= j < k ==> Blank(fs[j].buf))
    ensures var blanked := fs[k := Full(fs[k].home, Buf(fs[k].buf.id, [], []))];
            LinesFrom(fs, home) == LinesFrom([fs[k]], home) + LinesFrom(blanked, home)
  {
    var f := fs[k];
    var blank := Full(f.home, Buf(f.buf.id, [], []));
    assert fs == fs[..k] + ([f] + fs[k + 1..]);
    assert fs[k := blank] == fs[..k] + ([blank] + fs[k + 1..]);
    NoLines(fs[..k], home);
    LinesFromConcat(fs[..k], [f] + fs[k + 1..], home);
    LinesFromConcat(fs[..k], [blank] + fs[k + 1..], home);
    LinesFromConcat([f], fs[k + 1..], home);
    LinesFromConcat([blank], fs[k + 1..], home);
    LinesFromOne(blank, home);
  }

  lemma {:induction false} NoLines(fs: seq<Full>, home: nat)
    requires forall j :: 0 <= j < |fs| ==> Blank(fs[j].buf)
    ensures LinesFrom(fs, home) == []
  {
    if fs == [] {
    } else {
      NoLines(fs[..|fs| - 1], home);
    }
  }

  // ---- Each operation keeps the invariant, part by part.

  lemma TextsOne(lines: seq<Line>, l: Line)
    ensures Texts(lines + [l]) == Texts(lines) + l.text
  {
    assert (lines + [l])[..|lines|] == lines;
  }

  lemma PutSound(b: Buf, tid: nat, text: Bytes, size: nat, home: nat, buckets: nat)
    requires Sound(b, home, size, buckets) && tid % buckets == home
    ensures Sound(Put(b, tid, text, size), home, size, buckets)
  {
    var data := Filled(b.data, text, size);
    TextsOne(b.lines, Line(tid, data[|b.data|..]));
    assert b.data + data[|b.data|..] == data;
  }

  lemma {:induction false} DropEventsAre(fs: seq<Full>)
    ensures |DropEvents(fs)| == |fs|
    ensures forall k :: 0 <= k < |fs| ==> DropEvents(fs)[k] == Dropped(fs[k])
  {
    if fs == [] {
    } else {
      DropEventsAre(fs[..|fs| - 1]);
    }
  }

  lemma BlankSound(b: Buf, home: nat, size: nat, buckets: nat)
    requires Blank(b) && buckets > 0
    ensures Sound(b, home, size, buckets)
  {
  }

  lemma PublishChain(d: Data, i: nat, b: nat)
    requires i < |d.bufs| && d.bufs[i].Some? && b < |d.bufs|
    ensures Chain(Publish(d, i), b) == Chain(d, b)
  {
    hide LinesFrom, Settled;
    var f := Full(i, d.bufs[i].value);
    LinesFromConcat(d.front, [f], b);
    LinesFromOne(f, b);
    var s, x := LinesFrom(Settled(d.history), b), LinesFrom(d.back, b);
    var y, z := LinesFrom(d.doomed, b), LinesFrom(d.front, b);
    if b == i {
      assert s + x + y + (z + f.buf.lines) + [] == s + x + y + z + f.buf.lines;
    } else {
      assert z + [] == z;
    }
  }

  lemma TrimChain(d: Data, notice: Bytes, b: nat)
    requires d.doomed == [] && b < |d.bufs|
    ensures Chain(Trim(d, notice), b) == Chain(d, b)
  {
    hide LinesFrom, Settled;
    if |d.back| > MAX_BACK {
      assert d.back == d.back[..2] + d.back[2..];
      LinesFromConcat(d.back[..2], d.back[2..], b);
      LinesFromNone(b);
      var s, x, y := LinesFrom(Settled(d.history), b), LinesFrom(d.back[..2], b), LinesFrom(d.back[2..], b);
      assert s + (x + y) + [] == s + x + y;
    }
  }

  lemma SwapChain(d: Data, b: nat)
    requires d.back == [] && d.doomed == [] && b < |d.bufs|
    ensures Chain(Swap(d), b) == Chain(d, b)
  {
    hide LinesFrom, Settled;
    LinesFromNone(b);
    var s, x, c := LinesFrom(Settled(d.history), b), LinesFrom(d.front, b), Current(d.bufs[b]);
    assert s + x + [] + [] + c == s + [] + [] + x + c;
  }

  lemma LastBlank(fs: seq<Full>, b: nat)
    requires fs != [] && Blank(fs[|fs| - 1].buf)
    ensures LinesFrom(fs[..|fs| - 1], b) == LinesFrom(fs, b)
  {
  }

  lemma LinesFromNone(b: nat)
    ensures LinesFrom([], b) == []
  {
  }

  lemma WriteOneChain(d: Data, k: nat, b: nat)
    requires k < |d.back| && b < |d.bufs| && (forall j :: 0 <= j < k ==> Blank(d.back[j].buf))
    ensures Chain(WriteOne(d, k), b) == Chain(d, b)
  {
    hide LinesFrom, Settled;
    var e, f := WriteOne(d, k), d.back[k];
    SettledOne(d.history, Wrote(f));
    BlankedHead(d.back, k, b);
    LinesFromConcat(Settled(d.history), [f], b);
    var s, x, y := LinesFrom(Settled(d.history), b), LinesFrom([f], b), LinesFrom(e.back, b);
    assert (s + x) + y == s + (x + y);
  }

  lemma EndBatchChain(d: Data, b: nat)
    requires b < |d.bufs| && (forall j :: 0 <= j < |d.back| ==> Blank(d.back[j].buf))
    ensures Chain(EndBatch(d), b) == Chain(d, b)
  {
    hide LinesFrom, Settled;
    SettledDrops(d.history, d.doomed);
    NoLines(d.back, b);
    LinesFromNone(b);
    LinesFromConcat(Settled(d.history), d.doomed, b);
    var s, y := LinesFrom(Settled(d.history), b), LinesFrom(d.doomed, b);
    assert (s + y) + [] + [] == s + [] + y;
  }

  lemma AcceptContents(d: Data, i: nat, tid: nat, text: Bytes, size: nat)
    requires Contents(d, size) && i < |d.bufs| && d.bufs[i].Some? && tid % |d.bufs| == i
    ensures Contents(Accept(d, i, tid, text, size), size)
  {
    PutSound(d.bufs[i].value, tid, text, size, i, |d.bufs|);
  }

  lemma AcceptConserved(d: Data, i: nat, tid: nat, text: Bytes, size: nat)
    requires Contents(d, size) && Conserved(d) && i < |d.bufs| && d.bufs[i].Some?
    ensures Conserved(Accept(d, i, tid, text, size))
  {
    hide LinesFrom, Settled;
    var e := Accept(d, i, tid, text, size);
    forall b | 0 <= b < |e.bufs|
      ensures e.accepted[b] == Chain(e, b)
    {
      assert d.accepted[b] == Chain(d, b);
    }
  }

  lemma AcceptOwned(d: Data, i: nat, tid: nat, text: Bytes, size: nat)
    requires Contents(d, size) && Owned(d) && i < |d.bufs| && d.bufs[i].Some?
    ensures Owned(Accept(d, i, tid, text, size))
  {
  }

  lemma AcceptAccounted(d: Data, i: nat, tid: nat, text: Bytes, size: nat)
    requires Contents(d, size) && Owned(d) && Accounted(d) && i < |d.bufs| && d.bufs[i].Some? && tid % |d.bufs| == i
    ensures Accounted(Accept(d, i, tid, text, size))
  {
    hide Homely, Blank;
    var e := Accept(d, i, tid, text, size);
    forall id | id in e.place
      ensures Holds(e, e.place[id], id)
    {
    }
  }

  lemma AcceptKeeps(d: Data, i: nat, tid: nat, text: Bytes, size: nat)
    requires DataInv(d, size) && i < |d.bufs| && d.bufs[i].Some? && tid % |d.bufs| == i
    ensures DataInv(Accept(d, i, tid, text, size), size)
  {
    AcceptContents(d, i, tid, text, size);
    AcceptConserved(d, i, tid, text, size);
    AcceptOwned(d, i, tid, text, size);
    AcceptAccounted(d, i, tid, text, size);
  }

  lemma PublishContents(d: Data, i: nat, size: nat)
    requires Contents(d, size) && i < |d.bufs| && d.bufs[i].Some?
    ensures Contents(Publish(d, i), size)
  {
  }

  lemma PublishConserved(d: Data, i: nat, size: nat)
    requires Contents(d, size) && Conserved(d) && i < |d.bufs| && d.bufs[i].Some?
    ensures Conserved(Publish(d, i))
  {
    hide LinesFrom, Settled;
    var e := Publish(d, i);
    forall b | 0 <= b < |e.bufs|
      ensures e.accepted[b] == Chain(e, b)
    {
      assert d.accepted[b] == Chain(d, b);
      PublishChain(d, i, b);
    }
  }

  lemma PublishOwned(d: Data, i: nat, size: nat)
    requires Contents(d, size) && Owned(d) && i < |d.bufs| && d.bufs[i].Some?
    ensures Owned(Publish(d, i))
  {
  }

  lemma PublishAccounted(d: Data, i: nat, size: nat)
    requires Contents(d, size) && Owned(d) && Accounted(d) && i < |d.bufs| && d.bufs[i].Some?
    ensures Accounted(Publish(d, i))
  {
    hide Sound, Homely, Blank;
    var e := Publish(d, i);
    assert e.front[|d.front|].buf.id == d.bufs[i].value.id;
    assert forall k :: 0 <= k < |d.front| ==> e.front[k] == d.front[k];
    forall id | id in e.place
      ensures Holds(e, e.place[id], id)
    {
    }
  }

  lemma PublishKeeps(d: Data, i: nat, size: nat)
    requires DataInv(d, size) && i < |d.bufs| && d.bufs[i].Some?
    ensures DataInv(Publish(d, i), size)
  {
    PublishContents(d, i, size);
    PublishConserved(d, i, size);
    PublishOwned(d, i, size);
    PublishAccounted(d, i, size);
  }

  lemma TryPopContents(d: Data, a: Actor, size: nat)
    requires Contents(d, size) && a !in d.hands
    ensures Contents(TryPop(d, a), size)
  {
  }

  lemma TryPopConserved(d: Data, a: Actor, size: nat)
    requires Contents(d, size) && Conserved(d) && a !in d.hands
    ensures Conserved(TryPop(d, a))
  {
    SameChains(d, TryPop(d, a));
  }

  lemma TryPopOwned(d: Data, a: Actor, size: nat)
    requires Contents(d, size) && Owned(d) && a !in d.hands
    ensures Owned(TryPop(d, a))
  {
  }

  lemma TryPopAccounted(d: Data, a: Actor, size: nat)
    requires Contents(d, size) && Owned(d) && Accounted(d) && a !in d.hands
    ensures Accounted(TryPop(d, a))
  {
    hide Sound, Homely, Blank;
    var e := TryPop(d, a);
    assert forall k :: 0 < k < |d.pool| ==> e.pool[k - 1] == d.pool[k];
    forall id | id in e.place
      ensures Holds(e, e.place[id], id)
    {
    }
  }

  lemma TryPopKeeps(d: Data, a: Actor, size: nat)
    requires DataInv(d, size) && a !in d.hands
    ensures DataInv(TryPop(d, a), size)
  {
    TryPopContents(d, a, size);
    TryPopConserved(d, a, size);
    TryPopOwned(d, a, size);
    TryPopAccounted(d, a, size);
  }

  lemma FetchOrNewContents(d: Data, a: Actor, size: nat)
    requires Contents(d, size)
    ensures Contents(FetchOrNew(d, a), size)
  {
  }

  lemma FetchOrNewConserved(d: Data, a: Actor, size: nat)
    requires Contents(d, size) && Conserved(d)
    ensures Conserved(FetchOrNew(d, a))
  {
    SameChains(d, FetchOrNew(d, a));
  }

  lemma FetchOrNewOwned(d: Data, a: Actor, size: nat)
    requires Contents(d, size) && Owned(d)
    ensures Owned(FetchOrNew(d, a))
  {
  }

  lemma FetchOrNewAccounted(d: Data, a: Actor, size: nat)
    requires Contents(d, size) && Owned(d) && Accounted(d)
    ensures Accounted(FetchOrNew(d, a))
  {
    hide Sound, Homely, Blank;
    var e := FetchOrNew(d, a);
    forall id | id in e.place
      ensures Holds(e, e.place[id], id)
    {
    }
  }

  lemma FetchOrNewKeeps(d: Data, a: Actor, size: nat)
    requires DataInv(d, size)
    ensures DataInv(FetchOrNew(d, a), size)
  {
    FetchOrNewContents(d, a, size);
    FetchOrNewConserved(d, a, size);
    FetchOrNewOwned(d, a, size);
    FetchOrNewAccounted(d, a, size);
  }

  lemma StoreContents(d: Data, i: nat, a: Actor, size: nat)
    requires Contents(d, size) && i < |d.bufs| && d.bufs[i].None? && a in d.hands
    ensures Contents(Store(d, i, a), size)
  {
    BlankSound(d.hands[a], i, size, |d.bufs|);
  }

  lemma StoreConserved(d: Data, i: nat, a: Actor, size: nat)
    requires Contents(d, size) && Conserved(d) && i < |d.bufs| && d.bufs[i].None? && a in d.hands
    ensures Conserved(Store(d, i, a))
  {
    hide LinesFrom, Settled;
    var e := Store(d, i, a);
    forall b | 0 <= b < |e.bufs|
      ensures e.accepted[b] == Chain(e, b)
    {
      assert d.accepted[b] == Chain(d, b);
    }
  }

  lemma StoreOwned(d: Data, i: nat, a: Actor, size: nat)
    requires Contents(d, size) && Owned(d) && i < |d.bufs| && d.bufs[i].None? && a in d.hands
    ensures Owned(Store(d, i, a))
  {
  }

  lemma StoreAccounted(d: Data, i: nat, a: Actor, size: nat)
    requires Contents(d, size) && Owned(d) && Accounted(d) && i < |d.bufs| && d.bufs[i].None? && a in d.hands
    ensures Accounted(Store(d, i, a))
  {
    hide Sound, Homely, Blank;
    var e := Store(d, i, a);
    forall id | id in e.place
      ensures Holds(e, e.place[id], id)
    {
    }
  }

  lemma StoreKeeps(d: Data, i: nat, a: Actor, size: nat)
    requires DataInv(d, size) && i < |d.bufs| && d.bufs[i].None? && a in d.hands
    ensures DataInv(Store(d, i, a), size)
  {
    StoreContents(d, i, a, size);
    StoreConserved(d, i, a, size);
    StoreOwned(d, i, a, size);
    StoreAccounted(d, i, a, size);
  }

  lemma SwapContents(d: Data, size: nat)
    requires Contents(d, size) && d.back == [] && d.doomed == []
    ensures Contents(Swap(d), size)
  {
  }

  lemma SwapConserved(d: Data, size: nat)
    requires Contents(d, size) && Conserved(d) && d.back == [] && d.doomed == []
    ensures Conserved(Swap(d))
  {
    hide LinesFrom, Settled;
    var e := Swap(d);
    forall b | 0 <= b < |e.bufs|
      ensures e.accepted[b] == Chain(e, b)
    {
      assert d.accepted[b] == Chain(d, b);
      SwapChain(d, b);
    }
  }

  lemma SwapOwned(d: Data, size: nat)
    requires Contents(d, size) && Owned(d) && d.back == [] && d.doomed == []
    ensures Owned(Swap(d))
  {
  }

  lemma SwapAccounted(d: Data, size: nat)
    requires Contents(d, size) && Owned(d) && Accounted(d) && d.back == [] && d.doomed == []
    ensures Accounted(Swap(d))
  {
    hide Sound, Homely, Blank;
    var e := Swap(d);
    forall id | id in e.place
      ensures Holds(e, e.place[id], id)
    {
    }
  }

  lemma SwapKeeps(d: Data, size: nat)
    requires DataInv(d, size) && d.back == [] && d.doomed == []
    ensures DataInv(Swap(d), size)
  {
    SwapContents(d, size);
    SwapConserved(d, size);
    SwapOwned(d, size);
    SwapAccounted(d, size);
  }

  lemma TrimContents(d: Data, notice: Bytes, size: nat)
    requires Contents(d, size) && d.doomed == []
    ensures Contents(Trim(d, notice), size)
  {
  }

  lemma TrimConserved(d: Data, notice: Bytes, size: nat)
    requires Contents(d, size) && Conserved(d) && d.doomed == []
    ensures Conserved(Trim(d, notice))
  {
    hide LinesFrom, Settled;
    var e := Trim(d, notice);
    PiecesOne(d.output, Notice(notice));
    forall b | 0 <= b < |e.bufs|
      ensures e.accepted[b] == Chain(e, b)
    {
      assert d.accepted[b] == Chain(d, b);
      TrimChain(d, notice, b);
    }
  }

  lemma TrimOwned(d: Data, notice: Bytes, size: nat)
    requires Contents(d, size) && Owned(d) && d.doomed == []
    ensures Owned(Trim(d, notice))
  {
  }

  lemma TrimAccounted(d: Data, notice: Bytes, size: nat)
    requires Contents(d, size) && Owned(d) && Accounted(d) && d.doomed == []
    ensures Accounted(Trim(d, notice))
  {
    hide Sound, Homely, Blank;
    var e := Trim(d, notice);
    assert forall k :: 0 <= k < |e.back| ==> e.back[k] == d.back[k];
    forall id | id in e.place
      ensures Holds(e, e.place[id], id)
    {
    }
  }

  lemma TrimKeeps(d: Data, notice: Bytes, size: nat)
    requires DataInv(d, size) && d.doomed == []
    ensures DataInv(Trim(d, notice), size)
  {
    TrimContents(d, notice, size);
    TrimConserved(d, notice, size);
    TrimOwned(d, notice, size);
    TrimAccounted(d, notice, size);
  }

  lemma WriteOneContents(d: Data, k: nat, size: nat)
    requires Contents(d, size) && k < |d.back|
    ensures Contents(WriteOne(d, k), size)
  {
    BlankSound(Buf(d.back[k].buf.id, [], []), d.back[k].home, size, |d.bufs|);
  }

  lemma WriteOneConserved(d: Data, k: nat, size: nat)
    requires Contents(d, size) && Conserved(d) && k < |d.back| && (forall j :: 0 <= j < k ==> Blank(d.back[j].buf))
    ensures Conserved(WriteOne(d, k))
  {
    hide LinesFrom, Settled;
    var e := WriteOne(d, k);
    SettledOne(d.history, Wrote(d.back[k]));
    PiecesOne(d.output, Piece(d.back[k]));
    forall b | 0 <= b < |e.bufs|
      ensures e.accepted[b] == Chain(e, b)
    {
      assert d.accepted[b] == Chain(d, b);
      WriteOneChain(d, k, b);
    }
  }

  lemma WriteOneOwned(d: Data, k: nat, size: nat)
    requires Contents(d, size) && Owned(d) && k < |d.back|
    ensures Owned(WriteOne(d, k))
  {
  }

  lemma WriteOneAccounted(d: Data, k: nat, size: nat)
    requires Contents(d, size) && Owned(d) && Accounted(d)
    requires k < |d.back| && (forall j :: 0 <= j < k ==> Blank(d.back[j].buf))
    ensures Accounted(WriteOne(d, k))
  {
    hide Sound, Homely, Blank;
    var e := WriteOne(d, k);
    assert forall j :: 0 <= j < |d.back| ==> e.back[j].buf.id == d.back[j].buf.id;
    forall id | id in e.place
      ensures Holds(e, e.place[id], id)
    {
    }
  }

  lemma WriteOneKeeps(d: Data, k: nat, size: nat)
    requires DataInv(d, size) && k < |d.back| && (forall j :: 0 <= j < k ==> Blank(d.back[j].buf))
    ensures DataInv(WriteOne(d, k), size)
  {
    WriteOneContents(d, k, size);
    WriteOneConserved(d, k, size);
    WriteOneOwned(d, k, size);
    WriteOneAccounted(d, k, size);
  }

  lemma EndBatchContents(d: Data, size: nat)
    requires Contents(d, size)
    ensures Contents(EndBatch(d), size)
  {
    DropEventsAre(d.doomed);
  }

  lemma EndBatchConserved(d: Data, size: nat)
    requires Contents(d, size) && Conserved(d) && (forall j :: 0 <= j < |d.back| ==> Blank(d.back[j].buf))
    ensures Conserved(EndBatch(d))
  {
    hide LinesFrom, Settled;
    var e := EndBatch(d);
    SettledDrops(d.history, d.doomed);
    forall b | 0 <= b < |e.bufs|
      ensures e.accepted[b] == Chain(e, b)
    {
      assert d.accepted[b] == Chain(d, b);
      EndBatchChain(d, b);
    }
  }

  lemma EndBatchOwned(d: Data, size: nat)
    requires Contents(d, size) && Owned(d)
    ensures Owned(EndBatch(d))
  {
  }

  lemma EndBatchAccounted(d: Data, size: nat)
    requires Contents(d, size) && Owned(d) && Accounted(d) && (forall j :: 0 <= j < |d.back| ==> Blank(d.back[j].buf))
    ensures Accounted(EndBatch(d))
  {
    hide Sound, Homely, Blank;
    var e := EndBatch(d);
    forall id | id in e.place
      ensures Holds(e, e.place[id], id)
    {
    }
  }

  lemma EndBatchKeeps(d: Data, size: nat)
    requires DataInv(d, size) && (forall j :: 0 <= j < |d.back| ==> Blank(d.back[j].buf))
    ensures DataInv(EndBatch(d), size)
  {
    EndBatchContents(d, size);
    EndBatchConserved(d, size);
    EndBatchOwned(d, size);
    EndBatchAccounted(d, size);
  }

  lemma FlushOutKeeps(d: Data, size: nat)
    requires DataInv(d, size)
    ensures DataInv(FlushOut(d), size)
  {
    hide LinesFrom, Settled, Sound, Homely, Blank;
    var e := FlushOut(d);
    PiecesOne(d.output, Flushed);
    forall b | 0 <= b < |e.bufs|
      ensures e.accepted[b] == Chain(e, b)
    {
      assert d.accepted[b] == Chain(d, b);
    }
    forall id | id in e.place
      ensures Holds(e, e.place[id], id)
    {
      assert Holds(d, d.place[id], id);
    }
  }

  lemma TakeLastContents(d: Data, size: nat)
    requires Contents(d, size) && d.back != [] && Writer !in d.hands && Blank(d.back[|d.back| - 1].buf)
    ensures Contents(TakeLast(d), size)
  {
  }

  lemma TakeLastConserved(d: Data, size: nat)
    requires Contents(d, size) && Conserved(d) && d.back != [] && Writer !in d.hands && Blank(d.back[|d.back| - 1].buf)
    ensures Conserved(TakeLast(d))
  {
    hide LinesFrom, Settled;
    var e := TakeLast(d);
    forall b | 0 <= b < |e.bufs|
      ensures e.accepted[b] == Chain(e, b)
    {
      assert d.accepted[b] == Chain(d, b);
      LastBlank(d.back, b);
    }
  }

  lemma TakeLastOwned(d: Data, size: nat)
    requires Contents(d, size) && Owned(d) && d.back != [] && Writer !in d.hands && Blank(d.back[|d.back| - 1].buf)
    ensures Owned(TakeLast(d))
  {
  }

  lemma TakeLastAccounted(d: Data, size: nat)
    requires Contents(d, size) && Owned(d) && Accounted(d)
    requires d.back != [] && Writer !in d.hands && Blank(d.back[|d.back| - 1].buf)
    ensures Accounted(TakeLast(d))
  {
    hide Sound, Homely, Blank;
    var e := TakeLast(d);
    assert forall k :: 0 <= k < |e.back| ==> e.back[k] == d.back[k];
    forall id | id in e.place
      ensures Holds(e, e.place[id], id)
    {
    }
  }

  lemma TakeLastKeeps(d: Data, size: nat)
    requires DataInv(d, size) && d.back != [] && Writer !in d.hands && Blank(d.back[|d.back| - 1].buf)
    ensures DataInv(TakeLast(d), size)
  {
    TakeLastContents(d, size);
    TakeLastConserved(d, size);
    TakeLastOwned(d, size);
    TakeLastAccounted(d, size);
  }

  lemma PushPoolContents(d: Data, size: nat)
    requires Contents(d, size) && Writer in d.hands
    ensures Contents(PushPool(d), size)
  {
  }

  lemma PushPoolConserved(d: Data, size: nat)
    requires Contents(d, size) && Conserved(d) && Writer in d.hands
    ensures Conserved(PushPool(d))
  {
    SameChains(d, PushPool(d));
  }

  lemma PushPoolOwned(d: Data, size: nat)
    requires Contents(d, size) && Owned(d) && Writer in d.hands
    ensures Owned(PushPool(d))
  {
  }

  lemma PushPoolAccounted(d: Data, size: nat)
    requires Contents(d, size) && Owned(d) && Accounted(d) && Writer in d.hands
    ensures Accounted(PushPool(d))
  {
    hide Sound, Homely, Blank;
    var e := PushPool(d);
    assert e.pool[|d.pool|] == d.hands[Writer];
    assert forall k :: 0 <= k < |d.pool| ==> e.pool[k] == d.pool[k];
    forall id | id in e.place
      ensures Holds(e, e.place[id], id)
    {
    }
  }

  lemma PushPoolKeeps(d: Data, size: nat)
    requires DataInv(d, size) && Writer in d.hands
    ensures DataInv(PushPool(d), size)
  {
    PushPoolContents(d, size);
    PushPoolConserved(d, size);
    PushPoolOwned(d, size);
    PushPoolAccounted(d, size);
  }

  lemma DiscardContents(d: Data, size: nat)
    requires Contents(d, size) && Writer in d.hands
    ensures Contents(Discard(d), size)
  {
  }

  lemma DiscardConserved(d: Data, size: nat)
    requires Contents(d, size) && Conserved(d) && Writer in d.hands
    ensures Conserved(Discard(d))
  {
    SameChains(d, Discard(d));
  }

  lemma DiscardOwned(d: Data, size: nat)
    requires Contents(d, size) && Owned(d) && Writer in d.hands
    ensures Owned(Discard(d))
  {
  }

  lemma DiscardAccounted(d: Data, size: nat)
    requires Contents(d, size) && Owned(d) && Accounted(d) && Writer in d.hands
    ensures Accounted(Discard(d))
  {
    hide Sound, Homely, Blank;
    var e := Discard(d);
    forall id | id in e.place
      ensures Holds(e, e.place[id], id)
    {
    }
  }

  lemma DiscardKeeps(d: Data, size: nat)
    requires DataInv(d, size) && Writer in d.hands
    ensures DataInv(Discard(d), size)
  {
    DiscardContents(d, size);
    DiscardConserved(d, size);
    DiscardOwned(d, size);
    DiscardAccounted(d, size);
  }

  lemma SameChains(d: Data, e: Data)
    requires Conserved(d)
    requires d.bufs == e.bufs && d.front == e.front && d.back == e.back && d.doomed == e.doomed
    requires d.history == e.history && d.accepted == e.accepted && d.output == e.output
    ensures Conserved(e)
  {
    forall b | 0 <= b < |e.bufs|
      ensures e.accepted[b] == Chain(e, b)
    {
      assert d.accepted[b] == Chain(d, b);
    }
  }
}
