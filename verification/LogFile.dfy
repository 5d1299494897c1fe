/** The log file writer: a write loop over a stream that may take fewer bytes than
    offered, and a roller that starts new files by size and by day. */
module LogFiles {

  type Bytes = seq<char>

  function Concat(parts: seq<Bytes>): Bytes {
    if parts == [] then [] else Concat(parts[..|parts| - 1]) + parts[|parts| - 1]
  }

  /** A file: when it was created, what it holds, the bytes it was charged for, the
      pieces it was given, in order, and how much of it has been flushed. */
  datatype LogSegment = LogSegment(created: nat, data: Bytes, written: nat, pieces: seq<Bytes>, flushed: nat)

  datatype Config = Config(rollSize: nat, flushInterval: nat, checkEveryN: nat)

  /** The state of LogFile, with every file it has opened; the last one is open. */
  datatype Roller = Roller(count: nat, startOfPeriod: nat, lastRoll: nat, lastFlush: nat, files: seq<LogSegment>)

  const ROLL_PER_SECONDS: nat := 60 * 60 * 24

  function StartOfDay(now: nat): (start: nat)
    ensures start <= now < start + 86400 && start % 86400 == 0
  {
    now / ROLL_PER_SECONDS * ROLL_PER_SECONDS
  }

  const FRESH: Roller := Roller(0, 0, 0, 0, [])

  /** The open file flushed. */
  function FlushLast(files: seq<LogSegment>): seq<LogSegment> {
    if files == [] then []
    else
      var last := |files| - 1;
      files[last := files[last].(flushed := |files[last].data|)]
  }

  /** rollFile at clock reading now: a new file, unless the clock has not moved past
      the last roll. Closing the old one flushes it. */
  function RollFile(r: Roller, now: nat): Roller {
    if now > r.lastRoll then
      Roller(r.count, StartOfDay(now), now, now, FlushLast(r.files) + [LogSegment(now, [], 0, [], 0)])
    else r
  }

  /** AppendFile::append on the open file: n bytes get through, all are charged. */
  function WritePiece(r: Roller, piece: Bytes, n: nat): Roller
    requires r.files != [] && n <= |piece|
  {
    var last := |r.files| - 1;
    var f := r.files[last];
    var g := LogSegment(f.created, f.data + piece[..n], f.written + |piece|, f.pieces + [piece[..n]], f.flushed);
    r.(files := r.files[last := g])
  }

  /** LogFile::append, where t0 and t1 are the clock readings it may take. */
  function AppendCall(cfg: Config, r: Roller, piece: Bytes, n: nat, t0: nat, t1: nat): Roller
    requires r.files != [] && n <= |piece|
  {
    var w := WritePiece(r, piece, n);
    if w.files[|w.files| - 1].written > cfg.rollSize then RollFile(w, t0)
    else if w.count + 1 < cfg.checkEveryN then w.(count := w.count + 1)
    else
      var c := w.(count := 0);
      if StartOfDay(t0) != c.startOfPeriod then RollFile(c, t1)
      else if t0 - c.lastFlush > cfg.flushInterval then c.(lastFlush := t0, files := FlushLast(c.files))
      else c
  }

  /** One call: an append, with its piece, how many of its bytes the stream took and the
      clock, or a flush. */
  datatype Call = Append(piece: Bytes, n: nat, t0: nat, t1: nat) | Flush

  ghost predicate Possible(calls: seq<Call>) {
    forall i :: 0 <= i < |calls| ==> Feasible(calls[i])
  }

  predicate Feasible(c: Call) {
    c.Append? ==> c.n <= |c.piece|
  }

  /** One call. */
  function Step(cfg: Config, r: Roller, c: Call): (s: Roller)
    requires r.files != [] && Feasible(c)
    ensures s.files != []
  {
    match c
    case Append(piece, n, t0, t1) => AppendCall(cfg, r, piece, n, t0, t1)
    case Flush => r.(files := FlushLast(r.files))
  }

  /** Making the calls in order. */
  function From(cfg: Config, r: Roller, calls: seq<Call>): (s: Roller)
    requires r.files != [] && Possible(calls)
    ensures s.files != []
  {
    if calls == [] then r else Step(cfg, From(cfg, r, calls[..|calls| - 1]), calls[|calls| - 1])
  }

  /** Opening a log at time start and making the calls in order. */
  function Run(cfg: Config, start: nat, calls: seq<Call>): (r: Roller)
    requires start > 0 && Possible(calls)
    ensures r.files != []
  {
    From(cfg, RollFile(FRESH, start), calls)
  }

  // ---- What every run keeps.

  ghost predicate Invariant(r: Roller) {
    && r.files != []
    && (forall i, j :: 0 <= i < j < |r.files| ==> r.files[i].created < r.files[j].created)
    && r.files[|r.files| - 1].created == r.lastRoll
    && r.startOfPeriod == StartOfDay(r.lastRoll) && r.lastFlush >= r.lastRoll
    && (forall i :: 0 <= i < |r.files| ==> r.files[i].data == Concat(r.files[i].pieces))
    && (forall i :: 0 <= i < |r.files| ==> r.files[i].flushed <= |r.files[i].data|)
    && (forall i :: 0 <= i < |r.files| - 1 ==> r.files[i].flushed == |r.files[i].data|)
  }

  /** All pieces of all files, in order. */
  function AllPieces(files: seq<LogSegment>): seq<Bytes> {
    if files == [] then [] else AllPieces(files[..|files| - 1]) + files[|files| - 1].pieces
  }

  function AllData(files: seq<LogSegment>): Bytes {
    if files == [] then [] else AllData(files[..|files| - 1]) + files[|files| - 1].data
  }

  /** What the stream took of each append. */
  function Taken(calls: seq<Call>): seq<Bytes>
    requires Possible(calls)
  {
    if calls == [] then []
    else
      var c := calls[|calls| - 1];
      Taken(calls[..|calls| - 1]) + (if c.Append? then [c.piece[..c.n]] else [])
  }

  /** What the callers handed over. */
  function Input(calls: seq<Call>): seq<Bytes> {
    if calls == [] then []
    else
      var c := calls[|calls| - 1];
      Input(calls[..|calls| - 1]) + (if c.Append? then [c.piece] else [])
  }

  /** Flushing changes nothing but what has been flushed. */
  lemma FlushKeeps(r: Roller)
    requires Invariant(r)
    ensures Invariant(r.(files := FlushLast(r.files)))
    ensures AllPieces(FlushLast(r.files)) == AllPieces(r.files)
  {
    var last := |r.files| - 1;
    assert FlushLast(r.files)[..last] == r.files[..last];
  }

  lemma RollKeeps(r: Roller, now: nat)
    requires Invariant(r)
    ensures Invariant(RollFile(r, now)) && AllPieces(RollFile(r, now).files) == AllPieces(r.files)
  {
    FlushKeeps(r);
    LastIsFlushed(r.files);
    hide FlushLast, Concat, Invariant;
    if now > r.lastRoll {
      NewFileKeeps(r.(files := FlushLast(r.files)), now);
    }
  }

  lemma LastIsFlushed(files: seq<LogSegment>)
    requires files != []
    ensures var fs := FlushLast(files); fs != [] && fs[|fs| - 1].flushed == |fs[|fs| - 1].data|
  {
  }

  /** A new, empty file after flushed ones. */
  lemma NewFileKeeps(r: Roller, now: nat)
    requires Invariant(r) && now > r.lastRoll
    requires r.files[|r.files| - 1].flushed == |r.files[|r.files| - 1].data|
    ensures var files := r.files + [LogSegment(now, [], 0, [], 0)];
            Invariant(Roller(r.count, StartOfDay(now), now, now, files)) && AllPieces(files) == AllPieces(r.files)
  {
    var files := r.files + [LogSegment(now, [], 0, [], 0)];
    assert files[..|files| - 1] == r.files;
    assert Concat([]) == [];
    hide Concat;
  }

  lemma WriteKeeps(r: Roller, piece: Bytes, n: nat)
    requires Invariant(r) && n <= |piece|
    ensures Invariant(WritePiece(r, piece, n))
    ensures AllPieces(WritePiece(r, piece, n).files) == AllPieces(r.files) + [piece[..n]]
  {
    var s := WritePiece(r, piece, n);
    var last := |r.files| - 1;
    assert s.files[..last] == r.files[..last];
    assert (r.files[last].pieces + [piece[..n]])[..|r.files[last].pieces|] == r.files[last].pieces;
  }

  lemma AppendKeeps(cfg: Config, r: Roller, piece: Bytes, n: nat, t0: nat, t1: nat)
    requires Invariant(r) && n <= |piece|
    ensures var s := AppendCall(cfg, r, piece, n, t0, t1);
            Invariant(s) && AllPieces(s.files) == AllPieces(r.files) + [piece[..n]]
  {
    AppendCases(cfg, r, piece, n, t0, t1);
    hide Invariant, AllPieces, RollFile, WritePiece, AppendCall, FlushLast;
    var w := WritePiece(r, piece, n);
    WriteKeeps(r, piece, n);
    RollKeeps(w, t0);
    CountersKeep(w, w.(count := w.count + 1));
    CountersKeep(w, w.(count := 0));
    RollKeeps(w.(count := 0), t1);
    FlushKeeps(w);
    if t0 > w.lastFlush {
      CountersKeep(w.(files := FlushLast(w.files)), w.(count := 0, lastFlush := t0, files := FlushLast(w.files)));
    }
  }

  lemma AppendCases(cfg: Config, r: Roller, piece: Bytes, n: nat, t0: nat, t1: nat)
    requires r.files != [] && n <= |piece|
    ensures var s, w := AppendCall(cfg, r, piece, n, t0, t1), WritePiece(r, piece, n);
            || s == RollFile(w, t0)
            || s == w.(count := w.count + 1)
            || s == RollFile(w.(count := 0), t1)
            || s == w.(count := 0)
            || (t0 > w.lastFlush && s == w.(count := 0, lastFlush := t0, files := FlushLast(w.files)))
  {
  }

  lemma CountersKeep(r: Roller, s: Roller)
    requires Invariant(r) && s.files == r.files && s.lastRoll == r.lastRoll && s.startOfPeriod == r.startOfPeriod
    requires s.lastFlush >= r.lastFlush
    ensures Invariant(s)
  {
  }

  /** Over any run, whatever the clock: creation times strictly increase, the period
      is the day of the last roll, no flush counts as older than that, every file is a
      concatenation of whole pieces, every closed file is flushed, and the files in order
      hold exactly what the stream took, piece by piece. */
  lemma {:induction false} RunKeeps(cfg: Config, start: nat, calls: seq<Call>)
    requires start > 0 && Possible(calls)
    ensures Invariant(Run(cfg, start, calls))
    ensures AllPieces(Run(cfg, start, calls).files) == Taken(calls)
  {
    hide Invariant, AppendCall, AllPieces, RollFile;
    if calls == [] {
      FirstFile(start);
    } else {
      var before := calls[..|calls| - 1];
      RunKeeps(cfg, start, before);
      match calls[|calls| - 1]
      case Append(piece, n, t0, t1) => AppendKeeps(cfg, Run(cfg, start, before), piece, n, t0, t1);
      case Flush => FlushKeeps(Run(cfg, start, before));
    }
  }

  lemma FirstFile(start: nat)
    requires start > 0
    ensures Invariant(RollFile(FRESH, start)) && AllPieces(RollFile(FRESH, start).files) == []
  {
    assert RollFile(FRESH, start).files[..0] == [];
  }

  lemma {:induction false} ConcatAppend(a: seq<Bytes>, b: seq<Bytes>)
    ensures Concat(a + b) == Concat(a) + Concat(b)
  {
    if b == [] {
      assert a + b == a;
    } else {
      ConcatAppend(a, b[..|b| - 1]);
      assert (a + b)[..|a + b| - 1] == a + b[..|b| - 1];
    }
  }

  lemma {:induction false} DataOfPieces(files: seq<LogSegment>)
    requires forall i :: 0 <= i < |files| ==> files[i].data == Concat(files[i].pieces)
    ensures AllData(files) == Concat(AllPieces(files))
  {
    if files == [] {
    } else {
      DataOfPieces(files[..|files| - 1]);
      ConcatAppend(AllPieces(files[..|files| - 1]), files[|files| - 1].pieces);
    }
  }

  /** Every write goes through. */
  ghost predicate Complete(calls: seq<Call>) {
    forall i :: 0 <= i < |calls| && calls[i].Append? ==> calls[i].n == |calls[i].piece|
  }

  lemma {:induction false} AllTaken(calls: seq<Call>)
    requires Complete(calls)
    ensures Possible(calls) && Taken(calls) == Input(calls)
  {
    if calls == [] {
    } else {
      AllTaken(calls[..|calls| - 1]);
      var c := calls[|calls| - 1];
      if c.Append? {
        assert c.piece[..c.n] == c.piece;
      }
    }
  }

  /** When every write goes through, the files in order concatenate to the input and
      no piece is cut or split between two files. */
  lemma RunLosesNothing(cfg: Config, start: nat, calls: seq<Call>)
    requires start > 0 && Complete(calls)
    ensures Possible(calls)
    ensures AllPieces(Run(cfg, start, calls).files) == Input(calls)
    ensures AllData(Run(cfg, start, calls).files) == Concat(Input(calls))
  {
    AllTaken(calls);
    RunKeeps(cfg, start, calls);
    DataOfPieces(Run(cfg, start, calls).files);
  }

  /** After a flush nothing in any file is unflushed. */
  lemma FlushReachesAll(cfg: Config, start: nat, calls: seq<Call>)
    requires start > 0 && Possible(calls) && calls != [] && calls[|calls| - 1] == Flush
    ensures var files := Run(cfg, start, calls).files;
            forall i :: 0 <= i < |files| ==> files[i].flushed == |files[i].data|
  {
    RunKeeps(cfg, start, calls);
    LastIsFlushed(Run(cfg, start, calls[..|calls| - 1]).files);
  }

  /** A new file was started at clock reading now: empty, and nothing is due before then. */
  predicate Rolled(r: Roller, s: Roller, now: nat) {
    && |s.files| == |r.files| + 1 && s.files[|r.files|] == LogSegment(now, [], 0, [], 0)
    && s.lastRoll == now && s.lastFlush == now && s.startOfPeriod <= now < s.startOfPeriod + 86400
  }

  /** After each append the open file is within rollSize, or the clock had not moved
      past the last roll when a new file was due. */
  lemma SizeBound(cfg: Config, r: Roller, piece: Bytes, n: nat, t0: nat, t1: nat)
    requires r.files != [] && n <= |piece|
    ensures var s := AppendCall(cfg, r, piece, n, t0, t1);
            var w := WritePiece(r, piece, n);
            && (s.files[|s.files| - 1].written > cfg.rollSize
                <==> (w.files[|w.files| - 1].written > cfg.rollSize && t0 <= r.lastRoll))
            && (w.files[|w.files| - 1].written > cfg.rollSize && t0 > r.lastRoll ==>
                  Rolled(r, s, t0) && s.count == r.count)
  {
  }

  /** A file created on one day receives nothing after a check on another day, if
      the clock then reads past the last roll. */
  lemma DayRolls(cfg: Config, r: Roller, piece: Bytes, n: nat, t0: nat, t1: nat)
    requires Invariant(r) && n <= |piece|
    requires r.count + 1 >= cfg.checkEveryN && StartOfDay(t0) != StartOfDay(r.lastRoll)
    ensures var s := AppendCall(cfg, r, piece, n, t0, t1);
            (if WritePiece(r, piece, n).files[|r.files| - 1].written > cfg.rollSize then t0 else t1) > r.lastRoll
            ==> |s.files| == |r.files| + 1 && s.files[|r.files|].data == []
  {
  }

  /** After an append nothing in the open file is unflushed if and only if a new file
      was started, or the check found the flush due, or nothing was to be flushed. */
  lemma FlushDue(cfg: Config, r: Roller, piece: Bytes, n: nat, t0: nat, t1: nat)
    requires Invariant(r) && n <= |piece|
    ensures var s := AppendCall(cfg, r, piece, n, t0, t1);
            var w := WritePiece(r, piece, n);
            var open, was := s.files[|s.files| - 1], w.files[|w.files| - 1];
            var over, check, day := was.written > cfg.rollSize, r.count + 1 >= cfg.checkEveryN,
              StartOfDay(t0) != StartOfDay(r.lastRoll);
            open.flushed == |open.data| <==>
            || (over && t0 > r.lastRoll)
            || (!over && check && day && t1 > r.lastRoll)
            || (!over && check && !day && t0 - r.lastFlush > cfg.flushInterval)
            || was.flushed == |was.data|
  {
    hide Concat;
  }

  // ---- How often the clock is looked at.

  /** An append in so many looks at the clock. */
  function Every(cfg: Config): (n: nat)
    ensures n > 0
  {
    if cfg.checkEveryN == 0 then 1 else cfg.checkEveryN
  }

  /** The open file stays within rollSize. */
  predicate Fits(cfg: Config, r: Roller, c: Call)
    requires r.files != []
  {
    c.Append? ==> r.files[|r.files| - 1].written + |c.piece| <= cfg.rollSize
  }

  ghost predicate AllFit(cfg: Config, r: Roller, calls: seq<Call>)
    requires r.files != [] && Possible(calls)
  {
    calls != [] ==>
      var last := |calls| - 1;
      AllFit(cfg, r, calls[..last]) && Fits(cfg, From(cfg, r, calls[..last]), calls[last])
  }

  function Appends(calls: seq<Call>): nat {
    if calls == [] then 0
    else Appends(calls[..|calls| - 1]) + (if calls[|calls| - 1].Append? then 1 else 0)
  }

  /** How many appends stayed within rollSize. */
  function Fitting(cfg: Config, r: Roller, calls: seq<Call>): nat
    requires r.files != [] && Possible(calls)
  {
    if calls == [] then 0
    else
      var last := |calls| - 1;
      Fitting(cfg, r, calls[..last])
      + (if calls[last].Append? && Fits(cfg, From(cfg, r, calls[..last]), calls[last]) then 1 else 0)
  }

  lemma CountNext(n: nat, m: nat)
    requires m > 0
    ensures (n + 1) % m == if n % m + 1 < m then n % m + 1 else 0
  {
    var q, r := n / m, n % m;
    assert n + 1 == q * m + (r + 1);
    if r + 1 < m {
      Remainder(q, m, r + 1);
    } else {
      assert q * m + m == (q + 1) * m;
      Remainder(q + 1, m, 0);
    }
  }

  lemma Remainder(q: nat, m: nat, r: nat)
    requires r < m
    ensures (q * m + r) % m == r
  {
    var x := q * m + r;
    assert x == (x / m) * m + x % m;
    assert (x / m - q) * m == (x / m) * m - q * m;
    OnlyZero(x / m - q, m);
  }

  lemma OnlyZero(k: int, m: nat)
    requires m > 0 && 0 - m < k * m < m
    ensures k == 0
  {
  }

  /** The count is how many appends stayed within rollSize since the last check. */
  lemma {:induction false} CountGoes(cfg: Config, r: Roller, calls: seq<Call>)
    requires r.files != [] && Possible(calls) && r.count < Every(cfg)
    ensures From(cfg, r, calls).count == (r.count + Fitting(cfg, r, calls)) % Every(cfg)
  {
    if calls == [] {
      Remainder(0, Every(cfg), r.count);
    } else {
      hide Step, Fits, Every;
      var last := |calls| - 1;
      CountGoes(cfg, r, calls[..last]);
      CountNext(r.count + Fitting(cfg, r, calls[..last]), Every(cfg));
      CountSteps(cfg, From(cfg, r, calls[..last]), calls[last]);
    }
  }

  lemma CountSteps(cfg: Config, r: Roller, c: Call)
    requires r.files != [] && Feasible(c) && r.count < Every(cfg)
    ensures var s := Step(cfg, r, c);
            s.count == if c.Append? && Fits(cfg, r, c) then (if r.count + 1 < Every(cfg) then r.count + 1 else 0)
                       else r.count
  {
  }

  /** Nothing was rolled, and no check flushed. */
  predicate Steady(r: Roller, s: Roller) {
    && |s.files| == |r.files| && s.startOfPeriod == r.startOfPeriod
    && s.lastRoll == r.lastRoll && s.lastFlush == r.lastFlush
  }

  /** What an append within rollSize does besides writing: unless it looks at the clock,
      nothing; otherwise it rolls on another day, and on the same one flushes after the
      interval. */
  ghost predicate Looks(cfg: Config, r: Roller, s: Roller, c: Call, look: bool)
    requires c.Append? && r.files != []
  {
    var open, day := |r.files| - 1, StartOfDay(c.t0) != StartOfDay(r.lastRoll);
    && |s.files| == |r.files| + (if look && day && c.t1 > r.lastRoll then 1 else 0)
    && (look && day && c.t1 > r.lastRoll ==> Rolled(r, s, c.t1))
    && (!look ==> Steady(r, s) && s.files[open].flushed == r.files[open].flushed)
    && (look && !day ==>
          if c.t0 - r.lastFlush > cfg.flushInterval
          then s.lastFlush == c.t0 && s.files[open].flushed == |s.files[open].data|
          else Steady(r, s) && s.files[open].flushed == r.files[open].flushed)
  }

  lemma NthStep(cfg: Config, r: Roller, c: Call)
    requires Invariant(r) && Feasible(c) && c.Append? && Fits(cfg, r, c) && r.count < Every(cfg)
    ensures Looks(cfg, r, Step(cfg, r, c), c, r.count + 1 == Every(cfg))
  {
    hide Concat;
  }

  /** Of the appends that stay within rollSize, exactly every n-th looks at the clock. */
  lemma EveryNth(cfg: Config, start: nat, before: seq<Call>, c: Call)
    requires start > 0 && Possible(before) && Feasible(c) && c.Append? && Fits(cfg, Run(cfg, start, before), c)
    ensures var r, n := Run(cfg, start, before), Fitting(cfg, RollFile(FRESH, start), before);
            Looks(cfg, r, Step(cfg, r, c), c, (n + 1) % Every(cfg) == 0)
  {
    RunKeeps(cfg, start, before);
    CountGoes(cfg, RollFile(FRESH, start), before);
    CountNext(Fitting(cfg, RollFile(FRESH, start), before), Every(cfg));
    hide Concat, From, Fitting, Every, Looks, Invariant, Step, Fits;
    NthStep(cfg, Run(cfg, start, before), c);
  }

  /** While the check is not due, appends within rollSize only count. */
  lemma {:induction false} Waiting(cfg: Config, r: Roller, calls: seq<Call>)
    requires r.files != [] && Possible(calls) && AllFit(cfg, r, calls)
    requires r.count + Appends(calls) < Every(cfg)
    ensures var s := From(cfg, r, calls); Steady(r, s) && s.count == r.count + Appends(calls)
  {
    if calls == [] {
    } else {
      var last := |calls| - 1;
      Waiting(cfg, r, calls[..last]);
      WaitStep(cfg, From(cfg, r, calls[..last]), calls[last]);
      hide Step, Fits, Every;
    }
  }

  lemma WaitStep(cfg: Config, r: Roller, c: Call)
    requires r.files != [] && Feasible(c) && Fits(cfg, r, c)
    requires c.Append? ==> r.count + 1 < Every(cfg)
    ensures var s := Step(cfg, r, c); Steady(r, s) && s.count == r.count + (if c.Append? then 1 else 0)
  {
  }

  /** Among as many appends as it takes, if they stay within rollSize, one looks at the
      clock, and before it nothing is rolled and no check flushes. */
  lemma {:induction false} CheckComes(cfg: Config, r: Roller, calls: seq<Call>) returns (i: nat)
    requires r.files != [] && Possible(calls) && AllFit(cfg, r, calls)
    requires r.count < Every(cfg) <= r.count + Appends(calls)
    ensures i < |calls| && calls[i].Append? && Possible(calls[..i])
    ensures var p := From(cfg, r, calls[..i]); Steady(r, p) && p.count + 1 == Every(cfg) && Fits(cfg, p, calls[i])
  {
    var last := |calls| - 1;
    if r.count + Appends(calls[..last]) >= Every(cfg) {
      i := CheckComes(cfg, r, calls[..last]);
      assert calls[..last][..i] == calls[..i];
    } else {
      i := last;
      Waiting(cfg, r, calls[..last]);
    }
  }

  lemma FromNext(cfg: Config, r: Roller, calls: seq<Call>, i: nat)
    requires r.files != [] && Possible(calls) && i < |calls|
    ensures From(cfg, r, calls[..i + 1]) == Step(cfg, From(cfg, r, calls[..i]), calls[i])
  {
    assert calls[..i + 1][..i] == calls[..i];
  }

  /** What holds at every point of a run. */
  ghost predicate Reached(cfg: Config, r: Roller) {
    exists start: nat, before :: start > 0 && Possible(before) && r == Run(cfg, start, before)
  }

  lemma ReachedKeeps(cfg: Config, r: Roller)
    requires Reached(cfg, r)
    ensures Invariant(r) && r.count < Every(cfg)
  {
    hide Invariant, From;
    var start: nat, before :| start > 0 && Possible(before) && r == Run(cfg, start, before);
    RunKeeps(cfg, start, before);
    CountGoes(cfg, RollFile(FRESH, start), before);
  }

  lemma {:induction false} FromKeeps(cfg: Config, r: Roller, calls: seq<Call>)
    requires Invariant(r) && Possible(calls)
    ensures Invariant(From(cfg, r, calls))
  {
    assert r.files != [];
    hide Invariant, AppendCall;
    if calls == [] {
    } else {
      var last := |calls| - 1;
      var p := From(cfg, r, calls[..last]);
      FromKeeps(cfg, r, calls[..last]);
      match calls[last]
      case Append(piece, n, t0, t1) => AppendKeeps(cfg, p, piece, n, t0, t1);
      case Flush => FlushKeeps(p);
    }
  }

  /** From any point of a run, checkEveryN appends within rollSize start a new file if the
      clock reads another day at them all, past the last roll. */
  lemma DayComes(cfg: Config, r: Roller, calls: seq<Call>) returns (i: nat)
    requires Reached(cfg, r) && Possible(calls) && AllFit(cfg, r, calls) && Appends(calls) >= Every(cfg)
    requires forall c :: c in calls && c.Append? ==> StartOfDay(c.t0) != StartOfDay(r.lastRoll) && c.t1 > r.lastRoll
    ensures i < |calls| && Possible(calls[..i + 1])
    ensures var s := From(cfg, r, calls[..i + 1]); |s.files| == |r.files| + 1 && s.files[|r.files|].data == []
  {
    hide Invariant, From, Step, AllFit, StartOfDay;
    ReachedKeeps(cfg, r);
    i := CheckComes(cfg, r, calls);
    FromKeeps(cfg, r, calls[..i]);
    FromNext(cfg, r, calls, i);
    NthStep(cfg, From(cfg, r, calls[..i]), calls[i]);
  }

  /** And flush, if it reads the same day and more than the interval past the last flush. */
  lemma FlushComes(cfg: Config, r: Roller, calls: seq<Call>) returns (i: nat)
    requires Reached(cfg, r) && Possible(calls) && AllFit(cfg, r, calls) && Appends(calls) >= Every(cfg)
    requires forall c :: c in calls && c.Append? ==>
               StartOfDay(c.t0) == StartOfDay(r.lastRoll) && c.t0 - r.lastFlush > cfg.flushInterval
    ensures i < |calls| && calls[i].Append? && Possible(calls[..i + 1])
    ensures var s := From(cfg, r, calls[..i + 1]);
            && |s.files| == |r.files| && s.lastFlush == calls[i].t0
            && s.files[|r.files| - 1].flushed == |s.files[|r.files| - 1].data|
  {
    hide Invariant, From, Step, AllFit, StartOfDay;
    ReachedKeeps(cfg, r);
    i := CheckComes(cfg, r, calls);
    FromKeeps(cfg, r, calls[..i]);
    FromNext(cfg, r, calls, i);
    NthStep(cfg, From(cfg, r, calls[..i]), calls[i]);
  }

  // ---- The objects.

  /** AppendFile: a stream that takes any part of what it is offered. While it is
      working, a nonempty offer always makes progress. */
  class AppendFile {
    const created: nat
    const working: bool
    var contents: Bytes
    var writtenBytes: nat
    var flushedBytes: nat

    constructor (created: nat, working: bool)
      ensures this.created == created && this.working == working
      ensures contents == [] && writtenBytes == 0 && flushedBytes == 0
    {
      this.created, this.working := created, working;
      contents, writtenBytes, flushedBytes := [], 0, 0;
    }

    /** fwrite */
    method Write(logline: Bytes) returns (x: nat)
      modifies this`contents
      ensures x <= |logline| && contents == old(contents) + logline[..x]
      ensures working && logline != [] ==> x > 0
    {
      assert 0 <= |logline|;
      var taken: nat :| taken <= |logline|;
      x := if working && taken == 0 then |logline| else taken;
      contents := contents + logline[..x];
    }

    /** The retry loop: stops early only when a retry takes nothing. */
    method Append(logline: Bytes) returns (ghost n: nat)
      modifies this`contents, this`writtenBytes
      ensures n <= |logline| && contents == old(contents) + logline[..n]
      ensures working ==> n == |logline|
      ensures writtenBytes == old(writtenBytes) + |logline|
    {
      var done := Write(logline);
      var remain := |logline| - done;
      while remain > 0
        invariant done <= |logline| && remain == |logline| - done
        invariant contents == old(contents) + logline[..done]
        invariant writtenBytes == old(writtenBytes)
      {
        var x := Write(logline[done..]);
        assert logline[..done] + logline[done..][..x] == logline[..done + x];
        if x == 0 {
          break;
        }
        done := done + x;
        remain := |logline| - done;
      }
      n := done;
      writtenBytes := writtenBytes + |logline|;
    }

    method Flush()
      modifies this`flushedBytes
      ensures flushedBytes == |contents|
    {
      flushedBytes := |contents|;
    }
  }

  class LogFile {
    const cfg: Config
    const working: bool
    var count: nat
    var startOfPeriod: nat
    var lastRoll: nat
    var lastFlush: nat
    var file: AppendFile?
    ghost var closed: seq<LogSegment>
    ghost var pieces: seq<Bytes>

    /** The roller this object stands for. */
    ghost function View(): Roller
      reads this, file
    {
      Roller(count, startOfPeriod, lastRoll, lastFlush,
             if file == null then closed
             else closed + [LogSegment(file.created, file.contents, file.writtenBytes, pieces, file.flushedBytes)])
    }

    ghost predicate Valid()
      reads this, file
    {
      (file == null ==> closed == [] && lastRoll == 0) && (file != null ==> file.working == working)
    }

    /** Opens the first file, unless the clock reads zero. */
    constructor (cfg: Config, working: bool, now: nat)
      ensures Valid() && this.cfg == cfg && this.working == working
      ensures View() == RollFile(FRESH, now)
      ensures file != null ==> fresh(file)
      ensures file != null <==> now > 0
    {
      this.cfg, this.working := cfg, working;
      count, startOfPeriod, lastRoll, lastFlush := 0, 0, 0, 0;
      file, closed, pieces := null, [], [];
      new;
      var rolled := Roll(now);
    }

    method Roll(now: nat) returns (rolled: bool)
      requires Valid()
      modifies this, file
      ensures Valid() && View() == RollFile(old(View()), now)
      ensures rolled == (now > old(lastRoll))
      ensures if rolled then fresh(file) else file == old(file)
    {
      rolled := now > lastRoll;
      if rolled {
        lastRoll := now;
        lastFlush := now;
        startOfPeriod := now / ROLL_PER_SECONDS * ROLL_PER_SECONDS;
        if file != null {
          file.Flush();
        }
        closed := View().files;
        pieces := [];
        file := new AppendFile(now, working);
      }
    }

    method Flush()
      requires Valid() && file != null
      modifies file`flushedBytes
      ensures Valid() && View() == old(View()).(files := FlushLast(old(View()).files))
    {
      file.Flush();
    }

    method Append(logline: Bytes, t0: nat, t1: nat) returns (ghost n: nat)
      requires Valid() && file != null
      modifies this, file
      ensures Valid() && file != null && (file == old(file) || fresh(file))
      ensures n <= |logline| && (working ==> n == |logline|)
      ensures old(View()).files != [] && View() == AppendCall(cfg, old(View()), logline, n, t0, t1)
    {
      n := file.Append(logline);
      pieces := pieces + [logline[..n]];
      assert View() == WritePiece(old(View()), logline, n);
      if file.writtenBytes > cfg.rollSize {
        var rolled := Roll(t0);
      } else {
        count := count + 1;
        if count >= cfg.checkEveryN {
          count := 0;
          var thisPeriod := t0 / ROLL_PER_SECONDS * ROLL_PER_SECONDS;
          if thisPeriod != startOfPeriod {
            var rolled := Roll(t1);
          } else if t0 - lastFlush > cfg.flushInterval {
            lastFlush := t0;
            file.Flush();
          }
        }
      }
    }
  }
}
