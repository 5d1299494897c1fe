/** From append call to log files: the asynchronous logger's output through the file
    roller. */
module AsyncFiles {
  import opened LogBuffers
  import opened AsyncLogging
  import opened AsyncRuns
  import opened AsyncTheorems
  import LogFiles

  /** The text an output stands for. */
  function OutText(o: Out): Bytes {
    match o
    case Notice(text) => text
    case Piece(f) => f.buf.data
    case Flushed => []
  }

  /** What the log file is asked to append, in order. */
  function OutTexts(os: seq<Out>): seq<Bytes> {
    if os == [] then []
    else
      var o := os[|os| - 1];
      OutTexts(os[..|os| - 1]) + (if o.Flushed? then [] else [OutText(o)])
  }

  /** The texts thread t contributed to some lines, as they are. */
  function TextsBy(lines: seq<Line>, t: nat): seq<Bytes> {
    if lines == [] then []
    else
      var l := lines[|lines| - 1];
      TextsBy(lines[..|lines| - 1], t) + (if l.tid == t then [l.text] else [])
  }

  /** The lines of all buffers in a list. */
  function AllLines(fs: seq<Full>): seq<Line> {
    if fs == [] then [] else AllLines(fs[..|fs| - 1]) + fs[|fs| - 1].buf.lines
  }

  ghost predicate Fit(lines: seq<Line>, size: nat) {
    forall k :: 0 <= k < |lines| ==> |lines[k].text| <= size
  }

  /** A line is kept whole exactly when it fits an empty buffer. */
  lemma StoredWhole(text: Bytes, size: nat)
    ensures Stored(text, size) == text <==> |text| <= size
  {
  }

  lemma {:induction false} WholeTexts(lines: seq<Line>, t: nat, size: nat)
    requires Fit(lines, size)
    ensures LinesOf(lines, t, size) == TextsBy(lines, t)
  {
    if lines == [] {
    } else {
      WholeTexts(lines[..|lines| - 1], t, size);
      StoredWhole(lines[|lines| - 1].text, size);
    }
  }

  lemma {:induction false} LinesFit(lines: seq<Line>, size: nat)
    requires |Texts(lines)| <= size
    ensures Fit(lines, size)
  {
    if lines == [] {
    } else {
      LinesFit(lines[..|lines| - 1], size);
    }
  }

  lemma {:induction false} TextsByConcat(a: seq<Line>, b: seq<Line>, t: nat)
    ensures TextsBy(a + b, t) == TextsBy(a, t) + TextsBy(b, t)
  {
    if b == [] {
      assert a + b == a;
    } else {
      TextsByConcat(a, b[..|b| - 1], t);
      assert (a + b)[..|a + b| - 1] == a + b[..|b| - 1];
    }
  }

  lemma {:induction false} AllLinesBy(fs: seq<Full>, t: nat, size: nat, buckets: nat)
    requires SoundList(fs, size, buckets)
    ensures ThreadLines(fs, t, size) == TextsBy(AllLines(fs), t)
  {
    hide LinesOf, Homely;
    if fs == [] {
    } else {
      var init, lines := fs[..|fs| - 1], fs[|fs| - 1].buf.lines;
      AllLinesBy(init, t, size, buckets);
      LinesFit(lines, size);
      WholeTexts(lines, t, size);
      TextsByConcat(AllLines(init), lines, t);
    }
  }

  lemma {:induction false} WrittenSound(es: seq<Event>, size: nat, buckets: nat)
    requires forall k :: 0 <= k < |es| ==> Sound(es[k].full.buf, es[k].full.home, size, buckets)
    ensures SoundList(Written(es), size, buckets)
  {
    hide Sound;
    if es == [] {
    } else {
      WrittenSound(es[..|es| - 1], size, buckets);
    }
  }

  lemma {:induction false} PieceSound(os: seq<Out>, k: nat, size: nat, buckets: nat)
    requires SoundList(Pieces(os), size, buckets) && k < |os| && os[k].Piece?
    ensures Sound(os[k].full.buf, os[k].full.home, size, buckets)
  {
    hide Sound;
    var init, last := os[..|os| - 1], os[|os| - 1];
    if k < |os| - 1 {
      assert forall j :: 0 <= j < |Pieces(init)| ==> Pieces(init)[j] == Pieces(os)[j];
      PieceSound(init, k, size, buckets);
    } else {
      assert Pieces(os)[|Pieces(init)|] == last.full;
    }
  }

  lemma OutputSound(s: State, size: nat)
    requires Inv(s, size)
    ensures SoundList(Pieces(s.data.output), size, |s.data.bufs|)
  {
    hide Sound, Locks, Slots, Batch, Room, InOrder, Owned, Accounted, Reported, Pieces, Written;
    WrittenSound(s.data.history, size, |s.data.bufs|);
  }

  /** When every line fits a buffer, each thread's lines come out whole and in the order
      it appended them, in every interleaving. */
  lemma LinesComeOutWhole(buckets: nat, size: nat, actions: seq<Action>, s: State, t: nat)
    requires Reaches(buckets, size, actions, s) && Fit(s.data.calls, size)
    ensures Survives(TextsBy(AllLines(Pieces(s.data.output)), t), TextsBy(s.data.calls, t))
  {
    hide Inv, Reaches, Survives, ThreadLines, LinesOf, TextsBy, AllLines, Sound;
    RunKeeps(buckets, size, actions, s);
    OutputSound(s, size);
    OrderPreserved(buckets, size, actions, s, t);
    AllLinesBy(Pieces(s.data.output), t, size, |s.data.bufs|);
    WholeTexts(s.data.calls, t, size);
  }

  /** The log file's part in a run: it is asked to append and to flush as the output
      says, and every write goes through. */
  ghost predicate Feeds(os: seq<Out>, calls: seq<LogFiles.Call>) {
    && |calls| == |os|
    && (forall k :: 0 <= k < |os| ==>
          if os[k].Flushed? then calls[k] == LogFiles.Flush
          else calls[k].Append? && calls[k].piece == OutText(os[k]) && calls[k].n == |calls[k].piece|)
  }

  lemma {:induction false} FedInput(os: seq<Out>, calls: seq<LogFiles.Call>)
    requires Feeds(os, calls)
    ensures LogFiles.Input(calls) == OutTexts(os)
  {
    if os == [] {
    } else {
      FedInput(os[..|os| - 1], calls[..|calls| - 1]);
    }
  }

  /** Wherever the writer is outside a batch, nothing that was written is unflushed in
      any file. */
  lemma WrittenIsFlushed(buckets: nat, size: nat, actions: seq<Action>, s: State,
                         cfg: LogFiles.Config, start: nat, calls: seq<LogFiles.Call>)
    requires Reaches(buckets, size, actions, s) && start > 0 && Feeds(s.data.output, calls)
    requires s.writer.Head? || s.writer.Exited? || BeforeSwap(s.writer)
    ensures LogFiles.Possible(calls)
    ensures var files := LogFiles.Run(cfg, start, calls).files;
            forall i :: 0 <= i < |files| ==> files[i].flushed == |files[i].data|
  {
    hide Reaches, Locks, Slots, Room, InOrder, DataInv, Reported, LogFiles.Run;
    RunKeeps(buckets, size, actions, s);
    assert AllFlushed(s.data);
    if calls != [] {
      LogFiles.FlushReachesAll(cfg, start, calls);
    } else {
      FirstFileFlushed(cfg, start);
    }
  }

  lemma FirstFileFlushed(cfg: LogFiles.Config, start: nat)
    requires start > 0
    ensures var files := LogFiles.Run(cfg, start, []).files;
            forall i :: 0 <= i < |files| ==> files[i].flushed == |files[i].data|
  {
  }

  /** End to end, when writes succeed: whatever the interleaving and the clock, the log
      files in order hold exactly the output, each file whole pieces of it, and each
      piece that is not a notice is whole lines. */
  lemma FilesHoldWholeLines(buckets: nat, size: nat, actions: seq<Action>, s: State,
                            cfg: LogFiles.Config, start: nat, calls: seq<LogFiles.Call>)
    requires Reaches(buckets, size, actions, s) && start > 0 && Feeds(s.data.output, calls)
    ensures LogFiles.Possible(calls)
    ensures var files := LogFiles.Run(cfg, start, calls).files;
            && LogFiles.AllPieces(files) == OutTexts(s.data.output)
            && forall i :: 0 <= i < |files| ==> files[i].data == LogFiles.Concat(files[i].pieces)
    ensures forall k :: 0 <= k < |s.data.output| && s.data.output[k].Piece? ==>
                          OutText(s.data.output[k]) == Texts(s.data.output[k].full.buf.lines)
  {
    hide Inv, Reaches, LogFiles.Run, LogFiles.AllPieces, LogFiles.AllData, LogFiles.Concat;
    LogFiles.RunLosesNothing(cfg, start, calls);
    LogFiles.RunKeeps(cfg, start, calls);
    FedInput(s.data.output, calls);
    RunKeeps(buckets, size, actions, s);
    OutputSound(s, size);
    forall k | 0 <= k < |s.data.output| && s.data.output[k].Piece?
      ensures OutText(s.data.output[k]) == Texts(s.data.output[k].full.buf.lines)
    {
      PieceSound(s.data.output, k, size, |s.data.bufs|);
    }
  }
}
