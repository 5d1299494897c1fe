/** What the invariant of the asynchronous logger means: conservation and order of the
    lines, ownership of the buffers, and progress. */
module AsyncTheorems {
  import opened Options
  import opened LogBuffers
  import opened AsyncLogging
  import opened AsyncRuns

  // ---- Conservation.

  /** The bytes of bucket b's buffers in a list, in order. */
  function BytesFrom(fs: seq<Full>, b: nat): Bytes {
    if fs == [] then []
    else
      var f := fs[|fs| - 1];
      BytesFrom(fs[..|fs| - 1], b) + (if f.home == b then f.buf.data else [])
  }

  lemma {:induction false} TextsConcat(a: seq<Line>, b: seq<Line>)
    ensures Texts(a + b) == Texts(a) + Texts(b)
  {
    if b == [] {
      assert a + b == a;
    } else {
      var init, l := b[..|b| - 1], b[|b| - 1];
      TextsConcat(a, init);
      TextsLast(a, init, l);
      assert b == init + [l];
    }
  }

  lemma TextsLast(a: seq<Line>, init: seq<Line>, l: Line)
    requires Texts(a + init) == Texts(a) + Texts(init)
    ensures Texts(a + (init + [l])) == Texts(a) + Texts(init + [l])
  {
    hide Texts;
    TextsOne(a + init, l);
    TextsOne(init, l);
    assert a + init + [l] == a + (init + [l]);
  }

  lemma {:induction false} BytesOfLines(fs: seq<Full>, b: nat, size: nat, buckets: nat)
    requires SoundList(fs, size, buckets)
    ensures Texts(LinesFrom(fs, b)) == BytesFrom(fs, b)
  {
    if fs == [] {
    } else {
      var init, f := fs[..|fs| - 1], fs[|fs| - 1];
      BytesOfLines(init, b, size, buckets);
      TextsConcat(LinesFrom(init, b), if f.home == b then f.buf.lines else []);
    }
  }

  lemma {:induction false} SettledSound(es: seq<Event>, size: nat, buckets: nat)
    requires forall k :: 0 <= k < |es| ==> Sound(es[k].full.buf, es[k].full.home, size, buckets)
    ensures SoundList(Settled(es), size, buckets)
  {
    hide Sound;
    if es == [] {
    } else {
      SettledSound(es[..|es| - 1], size, buckets);
    }
  }

  /** The bytes a bucket accepted are, in order, in its buffers already written or
      dropped, then in its part of the batch, of what was dropped from the batch and of
      the front list, then in its current buffer. */
  lemma BytesConserved(buckets: nat, size: nat, actions: seq<Action>, s: State, b: nat)
    requires Reaches(buckets, size, actions, s) && b < |s.data.bufs| == |s.data.accepted|
    ensures var d := s.data;
            Texts(d.accepted[b])
            == BytesFrom(Settled(d.history), b) + BytesFrom(d.back, b) + BytesFrom(d.doomed, b) + BytesFrom(d.front, b)
               + (if d.bufs[b].Some? then d.bufs[b].value.data else [])
  {
    RunKeeps(buckets, size, actions, s);
    ChainBytes(s.data, size, b);
  }

  lemma ChainBytes(d: Data, size: nat, b: nat)
    requires Contents(d, size) && Conserved(d) && b < |d.bufs|
    ensures Texts(d.accepted[b])
         == BytesFrom(Settled(d.history), b) + BytesFrom(d.back, b) + BytesFrom(d.doomed, b) + BytesFrom(d.front, b)
            + (if d.bufs[b].Some? then d.bufs[b].value.data else [])
  {
    hide LinesFrom, Settled, BytesFrom, Homely, SoundList;
    var n := |d.bufs|;
    SettledSound(d.history, size, n);
    BytesOfLines(Settled(d.history), b, size, n);
    BytesOfLines(d.back, b, size, n);
    BytesOfLines(d.doomed, b, size, n);
    BytesOfLines(d.front, b, size, n);
    var h, k, m, f, c := LinesFrom(Settled(d.history), b), LinesFrom(d.back, b), LinesFrom(d.doomed, b),
      LinesFrom(d.front, b), Current(d.bufs[b]);
    assert d.accepted[b] == h + k + m + f + c;
    TextsConcat(h + k + m + f, c);
    TextsConcat(h + k + m, f);
    TextsConcat(h + k, m);
    TextsConcat(h, k);
  }

  // ---- Order.

  /** xs is ys with some elements left out. */
  predicate Survives<T(==)>(xs: seq<T>, ys: seq<T>) {
    if ys == [] then xs == []
    else
      || Survives(xs, ys[..|ys| - 1])
      || (xs != [] && xs[|xs| - 1] == ys[|ys| - 1] && Survives(xs[..|xs| - 1], ys[..|ys| - 1]))
  }

  lemma {:induction false} SurvivesAlone<T>(ys: seq<T>)
    ensures Survives([], ys)
  {
    if ys == [] {
    } else {
      SurvivesAlone(ys[..|ys| - 1]);
    }
  }

  lemma {:induction false} SurvivesMore<T>(xs: seq<T>, ys: seq<T>, zs: seq<T>)
    requires Survives(xs, ys)
    ensures Survives(xs, ys + zs)
  {
    if zs == [] {
      assert ys + zs == ys;
    } else {
      SurvivesMore(xs, ys, zs[..|zs| - 1]);
      assert (ys + zs)[..|ys + zs| - 1] == ys + zs[..|zs| - 1];
    }
  }

  lemma {:induction false} SurvivesBoth<T>(xs: seq<T>, ys: seq<T>, zs: seq<T>)
    requires Survives(xs, ys)
    ensures Survives(xs + zs, ys + zs)
  {
    if zs == [] {
      assert xs + zs == xs && ys + zs == ys;
    } else {
      SurvivesBoth(xs, ys, zs[..|zs| - 1]);
      assert (ys + zs)[..|ys + zs| - 1] == ys + zs[..|zs| - 1];
      assert (xs + zs)[..|xs + zs| - 1] == xs + zs[..|zs| - 1];
    }
  }

  /** The lines of thread t in a list of buffers, in order. */
  function ThreadLines(fs: seq<Full>, t: nat, size: nat): seq<Bytes> {
    if fs == [] then []
    else ThreadLines(fs[..|fs| - 1], t, size) + LinesOf(fs[|fs| - 1].buf.lines, t, size)
  }

  lemma {:induction false} LinesOfConcat(a: seq<Line>, b: seq<Line>, t: nat, size: nat)
    ensures LinesOf(a + b, t, size) == LinesOf(a, t, size) + LinesOf(b, t, size)
  {
    hide Stored;
    if b == [] {
      assert a + b == a;
    } else {
      LinesOfConcat(a, b[..|b| - 1], t, size);
      assert (a + b)[..|a + b| - 1] == a + b[..|b| - 1];
    }
  }

  /** No other bucket's buffers hold lines of t. */
  lemma {:induction false} NoneAway(lines: seq<Line>, home: nat, t: nat, size: nat, buckets: nat)
    requires Homely(lines, home, buckets) && Home(t, buckets) != home
    ensures LinesOf(lines, t, size) == []
  {
    if lines == [] {
    } else {
      NoneAway(lines[..|lines| - 1], home, t, size, buckets);
    }
  }

  lemma {:induction false} ThreadLinesAtHome(fs: seq<Full>, t: nat, size: nat, buckets: nat)
    requires buckets > 0 && SoundList(fs, size, buckets)
    ensures LinesOf(LinesFrom(fs, Home(t, buckets)), t, size) == ThreadLines(fs, t, size)
  {
    hide LinesOf, Home;
    if fs == [] {
      assert LinesOf([], t, size) == [] by { LinesOfNone(t, size); }
    } else {
      var init, f, h := fs[..|fs| - 1], fs[|fs| - 1], Home(t, buckets);
      assert SoundList(init, size, buckets);
      ThreadLinesAtHome(init, t, size, buckets);
      if f.home == h {
        LinesOfConcat(LinesFrom(init, h), f.buf.lines, t, size);
      } else {
        NoneAway(f.buf.lines, f.home, t, size, buckets);
        assert LinesFrom(fs, h) == LinesFrom(init, h);
      }
    }
  }

  lemma LinesOfNone(t: nat, size: nat)
    ensures LinesOf([], t, size) == []
  {
  }

  /** Dropping whole buffers leaves a thread's lines in order. */
  lemma {:induction false} WrittenSurvive(es: seq<Event>, t: nat, size: nat)
    ensures Survives(ThreadLines(Written(es), t, size), ThreadLines(Settled(es), t, size))
  {
    if es == [] {
    } else {
      var init, e := es[..|es| - 1], es[|es| - 1];
      WrittenSurvive(init, t, size);
      ThreadLinesOne(Settled(init), e.full, t, size);
      var ls := LinesOf(e.full.buf.lines, t, size);
      match e
      case Wrote(f) =>
        ThreadLinesOne(Written(init), f, t, size);
        SurvivesBoth(ThreadLines(Written(init), t, size), ThreadLines(Settled(init), t, size), ls);
      case Dropped(_) =>
        assert Written(es) == Written(init);
        SurvivesMore(ThreadLines(Written(init), t, size), ThreadLines(Settled(init), t, size), ls);
    }
  }

  lemma ThreadLinesOne(fs: seq<Full>, f: Full, t: nat, size: nat)
    ensures ThreadLines(fs + [f], t, size) == ThreadLines(fs, t, size) + LinesOf(f.buf.lines, t, size)
  {
    assert (fs + [f])[..|fs|] == fs;
  }

  lemma {:induction false} AllWritten(es: seq<Event>)
    requires forall k :: 0 <= k < |es| ==> es[k].Wrote?
    ensures Written(es) == Settled(es)
  {
    if es == [] {
    } else {
      AllWritten(es[..|es| - 1]);
    }
  }

  /** What thread t appended is what is settled, then what is still on its way. */
  lemma CallsAre(s: State, t: nat, size: nat) returns (rest: seq<Bytes>)
    requires Inv(s, size)
    ensures LinesOf(s.data.calls, t, size) == ThreadLines(Settled(s.data.history), t, size) + rest
  {
    hide LinesOf, LinesFrom, Settled, Home, Locks, Slots, Sound, Homely, ThreadLines, Stored, Owned;
    var d, n := s.data, |s.data.bufs|;
    assert Shaped(s) by { ShapedOf(s, size); }
    var b := Home(t, n);
    SettledSound(d.history, size, n);
    ThreadLinesAtHome(Settled(d.history), t, size, n);
    var h := LinesFrom(Settled(d.history), b);
    var more := LinesFrom(d.back, b) + LinesFrom(d.doomed, b) + LinesFrom(d.front, b) + Current(d.bufs[b]);
    assert d.accepted[b] == Chain(d, b) == h + more;
    LinesOfConcat(h, more, t, size);
    rest := LinesOf(more, t, size) + Pending(Pc(s, t), size);
    assert LinesOf(d.calls, t, size) == LinesOf(d.accepted[b], t, size) + Pending(Pc(s, t), size);
  }

  lemma ShapedOf(s: State, size: nat)
    requires Inv(s, size)
    ensures Shaped(s)
  {
  }

  /** Each thread's lines reach the output in the order it appended them, in any
      interleaving, whatever is dropped. */
  lemma OrderPreserved(buckets: nat, size: nat, actions: seq<Action>, s: State, t: nat)
    requires Reaches(buckets, size, actions, s)
    ensures Survives(ThreadLines(Pieces(s.data.output), t, size), LinesOf(s.data.calls, t, size))
  {
    hide LinesOf, LinesFrom, Settled, ThreadLines, Survives, Written, Pieces, Locks, Slots, Contents, Owned;
    RunKeeps(buckets, size, actions, s);
    var rest := CallsAre(s, t, size);
    WrittenSurvive(s.data.history, t, size);
    SurvivesMore(ThreadLines(Written(s.data.history), t, size), ThreadLines(Settled(s.data.history), t, size), rest);
  }

  /** As long as no notice is in the output, nothing is missing: what is in the output
      of each thread is a prefix of what it appended. */
  lemma NoNoticeNoLoss(buckets: nat, size: nat, actions: seq<Action>, s: State, t: nat)
    requires Reaches(buckets, size, actions, s)
    requires forall k :: 0 <= k < |s.data.output| ==> !s.data.output[k].Notice?
    ensures ThreadLines(Pieces(s.data.output), t, size) <= LinesOf(s.data.calls, t, size)
  {
    hide LinesOf, LinesFrom, Settled, ThreadLines, Written, Pieces, Locks, Slots, Contents, Owned;
    RunKeeps(buckets, size, actions, s);
    var rest := CallsAre(s, t, size);
    AllWritten(s.data.history);
  }

  // ---- After stop.

  /** Once the writer is done, everything a bucket accepted is settled exactly when
      nothing of it is left in the front list and the bucket's buffer is empty. */
  lemma ExitedSettles(buckets: nat, size: nat, actions: seq<Action>, s: State, b: nat)
    requires Reaches(buckets, size, actions, s) && s.writer.Exited?
    requires b < |s.data.bufs| == |s.data.accepted| && s.data.bufs[b].Some?
    ensures Texts(s.data.accepted[b]) == BytesFrom(Settled(s.data.history), b) <==>
            BytesFrom(s.data.front, b) == [] && s.data.bufs[b].value.data == []
  {
    NoBytesFrom(b);
    hide Inv, Reaches, Texts, BytesFrom, Settled;
    BytesConserved(buckets, size, actions, s, b);
    RunKeeps(buckets, size, actions, s);
    ExitedBlank(s, size);
    var h, f, c := BytesFrom(Settled(s.data.history), b), BytesFrom(s.data.front, b), s.data.bufs[b].value.data;
    assert |h + [] + [] + f + c| == |h| + |f| + |c|;
  }

  lemma ExitedBlank(s: State, size: nat)
    requires Inv(s, size) && s.writer.Exited?
    ensures s.data.back == [] && s.data.doomed == [] && Contents(s.data, size) && Conserved(s.data)
  {
    hide Contents, Conserved, Owned, Accounted, Locks, Slots, InOrder;
  }

  lemma NoBytesFrom(b: nat)
    ensures BytesFrom([], b) == []
  {
  }

  /** One bucket whose buffer holds data, and nothing in the output. */
  predicate Holding(s: State, data: Bytes) {
    && Shaped(s) && |s.data.bufs| == 1 && s.data.output == [] && s.writer == Head
    && s.data.bufs[0].Some? && s.data.bufs[0].value.data == data
  }

  lemma EntersBucket(s: State)
    requires Holding(s, []) && s.appenders == map[]
    ensures var r := Act(s, Enter(0, "x"), 10);
            r.Some? && Holding(r.value, []) && Pc(r.value, 0) == WantBucket("x") && r.value.bucketOwner == s.bucketOwner
  {
  }

  lemma FillsBucket(s: State)
    requires Holding(s, []) && Pc(s, 0) == WantBucket("x") && s.bucketOwner == [None]
    ensures var r := Act(s, Advances(0), 10); r.Some? && Holding(r.value, "x")
  {
    assert Home(0, 1) == 0;
  }

  lemma LeavesLoop(s: State)
    requires Holding(s, "x") && !s.running
    ensures Act(s, Writes([]), 10) == Some(s.(writer := Exited, data := FlushOut(s.data)))
  {
  }

  lemma Stops(s: State)
    requires Holding(s, "x")
    ensures var r := Act(s, Stop, 10); r.Some? && Holding(r.value, "x") && !r.value.running
  {
  }

  lemma StartsHolding()
    ensures var s := Initial(1);
            Holding(s, []) && s.bucketOwner == [None] && s.appenders == map[] && Reaches(1, 10, [], s)
  {
  }

  /** And something may be left: a line appended before stop is in its bucket when the
      writer is done, and no buffer was written. */
  lemma StopLeavesLines() returns (s: State)
    ensures Reaches(1, 10, [Enter(0, "x"), Advances(0), Stop, Writes([])], s)
    ensures s.writer.Exited? && s.data.output == [Flushed]
    ensures |s.data.bufs| == 1 && s.data.bufs[0].Some? && s.data.bufs[0].value.data == "x"
  {
    hide Initial, Reaches, Act;
    StartsHolding();
    s := Initial(1);
    EntersBucket(s);
    s := ReachNext(1, 10, [], s, Enter(0, "x"));
    assert [] + [Enter(0, "x")] == [Enter(0, "x")];
    FillsBucket(s);
    s := ReachNext(1, 10, [Enter(0, "x")], s, Advances(0));
    assert [Enter(0, "x")] + [Advances(0)] == [Enter(0, "x"), Advances(0)];
    Stops(s);
    s := ReachNext(1, 10, [Enter(0, "x"), Advances(0)], s, Stop);
    assert [Enter(0, "x"), Advances(0)] + [Stop] == [Enter(0, "x"), Advances(0), Stop];
    LeavesLoop(s);
    s := ReachNext(1, 10, [Enter(0, "x"), Advances(0), Stop], s, Writes([]));
    assert [Enter(0, "x"), Advances(0), Stop] + [Writes([])] == [Enter(0, "x"), Advances(0), Stop, Writes([])];
  }
}
