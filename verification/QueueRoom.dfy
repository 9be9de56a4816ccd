/** When there is room: the eviction loop ends, and a drained queue takes new
    records under every policy. */
module QueueRoom {
  import opened Naturals
  import opened Options
  import opened Records
  import opened QueueLog
  import opened QueuePush
  import opened QueuePeek
  import opened QueueRuns
  import opened QueueAccounts

  // -------------------------------------------------------- the eviction loop

  /** `n` rounds of the drop_oldest loop without I/O failures. */
  ghost function DropMany(l: Log, n: nat): (m: Log)
    requires Inv(l)
    ensures Inv(m)
    decreases n
  {
    if n == 0 then l else DropMany(DropSegment(l, RollOk).0, n - 1)
  }

  lemma {:induction false} RoundsEnough(l: Log, maxBytes: nat, need: nat) returns (n: nat)
    requires Inv(l) && need <= maxBytes
    ensures Held(DropMany(l, n)) + need <= maxBytes
    decreases Held(l), |l.starts|
  {
    hide Tracks, Span, DropSegment;
    if Held(l) + need <= maxBytes {
      n := 0;
    } else {
      DropSegmentSafe(l, RollOk);
      DropSegmentProgress(l, RollOk);
      var k := RoundsEnough(DropSegment(l, RollOk).0, maxBytes, need);
      n := k + 1;
    }
  }

  /** The loop guard is eventually false if and only if the record alone fits the cap. */
  lemma EvictionEndsIff(l: Log, maxBytes: nat, need: nat)
    requires Inv(l)
    ensures (exists n :: Held(DropMany(l, n)) + need <= maxBytes) <==> need <= maxBytes
  {
    hide Tracks, Span, DropMany;
    if need <= maxBytes {
      var n := RoundsEnough(l, maxBytes, need);
      assert Held(DropMany(l, n)) + need <= maxBytes;
    }
  }

  // -------------------------------------------------------- after draining

  ghost predicate FaultFreeOp(op: Op) {
    match op
    case Push(_, io) => FaultFree(io)
    case Store(_, _) => false
    case Roll(io) => io.RollOk?
    case Peek(fails, _, _) => fails.None?
    case Save(ok) => ok
    case Crash(_) => false
    case _ => true
  }

  lemma StepSmallTail(l: Log, cfg: Config, op: Op)
    requires Inv(l) && Enabled(l, cfg, op) && FaultFreeOp(op)
    requires WriteOff(l) < cfg.segBytes
    ensures Shape(Next(l, cfg, op)) && WriteOff(Next(l, cfg, op)) < cfg.segBytes
  {
    CursorPlace(l);
    hide Tracks, Span, Whole, PushOp, PeekOp, EvictOp, ConfirmOp, UnlinkOp, TryRoll, Shape, WriteStart;
    match op
    case Push(r, io) => PushSmallTail(l, cfg, r, io);
    case Flush(k) => SameTail(l, FlushOp(l, k));
    case Roll(io) => RollTail(l, io);
    case Evict => EvictTail(l);
    case Peek(fails, max, budget) => PeekTail(l, fails, max, budget);
    case Ack(n) => ConfirmTail(l, n); UnlinkTail(ConfirmOp(l, n), l.peek.seg);
    case Confirm(n) => ConfirmTail(l, n);
    case Unlink(upto) => UnlinkTail(l, upto);
    case Save(ok) => SameTail(l, SaveOp(l, ok));
    case Reset => SameTail(l, ResetOp(l));
  }

  lemma SameTail(l: Log, m: Log)
    requires Shape(l) && m.hist == l.hist && m.starts == l.starts
    ensures Shape(m) && WriteOff(m) == WriteOff(l) && (m.first == l.first ==> Last(m) == Last(l))
  {
  }

  lemma ConfirmTail(l: Log, n: nat)
    requires Inv(l)
    ensures var m := ConfirmOp(l, n); Shape(m) && WriteOff(m) == WriteOff(l) && m.first == l.first && Last(m) == Last(l)
  {
    SameTail(l, ConfirmOp(l, n));
  }

  lemma PeekTail(l: Log, fails: Option<nat>, max: nat, budget: nat)
    requires Inv(l)
    ensures var m := PeekOp(l, fails, max, budget); Shape(m) && WriteOff(m) == WriteOff(l)
  {
    hide Tracks, PeekOp, Span, Whole, LongestRun;
    PeekIsLongestRun(l, fails, max, budget);
    SameTail(l, PeekOp(l, fails, max, budget));
  }

  lemma RollTail(l: Log, io: RollIo)
    requires Inv(l) && io.RollOk?
    ensures var m := TryRoll(l, io).0; Shape(m) && WriteOff(m) == 0
  {
    hide Tracks, Span, Whole;
    TryRollSafe(l, io);
    SpanZero(l.hist, |l.hist|, |l.hist|);
  }

  lemma PushSmallTail(l: Log, cfg: Config, r: Rec, io: PushIo)
    requires Inv(l) && Enabled(l, cfg, Push(r, io)) && FaultFree(io)
    requires WriteOff(l) < cfg.segBytes
    ensures var m := PushOp(l, cfg, r, io).0; Shape(m) && WriteOff(m) < cfg.segBytes
  {
    hide Tracks, Span, Whole, PushOp, GoodIn;
    PushStores(l, cfg, r, io);
    PushRefuses(l, cfg, r, io);
  }

  lemma UnlinkTail(l: Log, upto: nat)
    requires Shape(l) && l.first <= upto <= Last(l)
    ensures var m := UnlinkOp(l, upto); Shape(m) && WriteOff(m) == WriteOff(l)
  {
    hide Span;
    UnlinkKeeps(l, upto);
  }

  lemma EvictTail(l: Log)
    requires Inv(l) && |l.starts| >= 2
    ensures var m := EvictOp(l); Shape(m) && WriteOff(m) == WriteOff(l)
  {
    hide Tracks, Span;
    UnlinkTail(l, l.first + 1);
  }

  ghost predicate AllFaultFree(ops: seq<Op>) {
    forall i :: 0 <= i < |ops| ==> FaultFreeOp(ops[i])
  }

  lemma {:induction false} RunSmallTail(l: Log, cfg: Config, ops: seq<Op>)
    requires Inv(l) && Runs(l, cfg, ops) && AllFaultFree(ops)
    requires WriteOff(l) < cfg.segBytes
    ensures WriteOff(After(l, cfg, ops)) < cfg.segBytes
    decreases |ops|
  {
    hide Tracks, Span, Whole, Next, Enabled, Keeps, FaultFreeOp;
    if ops != [] {
      StepSafe(l, cfg, ops[0]);
      StepSmallTail(l, cfg, ops[0]);
      RunSmallTail(Next(l, cfg, ops[0]), cfg, ops[1..]);
    }
  }

  /** No wedge: in a fault-free run from a queue whose write segment is short (a
      fresh one is empty), once the peek has reached the end of the write segment
      and everything is acknowledged, only that segment is left, with less than
      `segBytes` in it, and a record that fits beside it is stored whatever the
      policy, without evicting anything. */
  lemma NoWedge(l: Log, cfg: Config, ops: seq<Op>, r: Rec, io: PushIo)
    requires Inv(l) && Runs(l, cfg, ops) && AllFaultFree(ops) && WriteOff(l) < cfg.segBytes
    requires var m := After(l, cfg, ops); m.peek == Pos(Last(m), |m.hist|)
    requires r.good && cfg.segBytes - 1 + SizeOf(r) <= cfg.maxBytes && FaultFree(io)
    ensures var a := AckOp(After(l, cfg, ops), After(l, cfg, ops).handed);
      && Inv(a)
      && |a.starts| == 1 && Held(a) < cfg.segBytes
      && PushOp(a, cfg, r, io).1 == Stored(0)
  {
    hide Tracks, Span, Whole, Next, Enabled, Keeps, FaultFreeOp, PushOp, GoodIn, Runs, After;
    RunSmallTail(l, cfg, ops);
    var m := After(l, cfg, ops);
    AckSafe(m, m.handed);
    CursorPlace(m);
    var a := AckOp(m, m.handed);
    assert Held(a) == WriteOff(m);
    AcceptsNow(a, cfg, r, io);
  }

  lemma AcceptsNow(l: Log, cfg: Config, r: Rec, io: PushIo)
    requires Inv(l) && r.good && Fits(l, cfg.maxBytes, r) && FaultFree(io)
    ensures PushOp(l, cfg, r, io).1 == Stored(0)
  {
    hide Tracks, Span, Whole, WriteOp;
    RoomAlready(l, cfg.maxBytes, r, io.evictRoll);
    WriteSafe(l, cfg.segBytes, r, 0, io);
    WriteStores(l, cfg.segBytes, r, 0, io);
  }

  /** A peek that is not cut short by its limits reaches the end of the write segment. */
  lemma PeekReachesEnd(l: Log, max: nat, budget: nat)
    requires Inv(l)
    requires l.peek.at <= |l.hist| && GoodIn(l.hist, l.peek.at, |l.hist|) < max
    requires GoodBytes(l.hist, l.peek.at, |l.hist|) <= budget
    ensures PeekOp(l, None, max, budget).peek == Pos(Last(l), |l.hist|)
  {
    hide Tracks, Span, Whole, GoodIn, Walk, Take, LongestRun, GoodBytes;
    var f := FlushTry(l, None);
    FlushTrySafe(l, None);
    FlushedDurable(l);
    PeekStarts(f);
    NothingStops(f, max, budget);
  }

  lemma NothingStops(l: Log, max: nat, budget: nat)
    requires Inv(l) && Durable(l) == |l.hist|
    requires l.first <= l.peek.seg <= Last(l) && l.peek.at <= Readable(l, l.peek.seg)
    requires GoodIn(l.hist, l.peek.at, |l.hist|) < max
    requires GoodBytes(l.hist, l.peek.at, |l.hist|) <= budget
    ensures Walk(l, max, budget, l.peek.seg, l.peek, Batch(l.peek.at, 0, 0, false)).0 == Pos(Last(l), |l.hist|)
  {
    hide Whole, Span, Walk, Take, Fates, Counts, Good, GoodBytes;
    var b := Batch(l.peek.at, 0, 0, false);
    SpanZero(l.hist, l.peek.at, l.peek.at);
    EmptyGoodBytes(l.hist, l.peek.at);
    WalkIsTake(l, max, budget, l.peek.seg, l.peek, b);
    TakeLongest(l.hist, l.peek.at, Durable(l), max, budget, b);
    var r := Take(l.hist, Durable(l), max, budget, b);
    SpanAdd(l.hist, l.peek.at, r.at, |l.hist|);
    if r.at < |l.hist| {
      GoodBytesPrefix(l.hist, l.peek.at, r.at + 1, |l.hist|);
      GoodBytesNext(l.hist, l.peek.at, r.at);
    }
  }

  lemma EmptyGoodBytes(h: seq<Rec>, a: nat)
    requires a <= |h|
    ensures GoodBytes(h, a, a) == 0
  {
  }

  lemma GoodBytesNext(h: seq<Rec>, a: nat, b: nat)
    requires a <= b < |h|
    ensures h[b].good ==> GoodBytes(h, a, b + 1) == GoodBytes(h, a, b) + SizeOf(h[b])
  {
  }

  lemma {:induction false} GoodBytesPrefix(h: seq<Rec>, a: nat, m: nat, b: nat)
    requires a <= m <= b <= |h|
    ensures GoodBytes(h, a, m) <= GoodBytes(h, a, b)
  {
    if m < b { GoodBytesPrefix(h, a, m, b - 1); }
  }

  /** A record that fits is stored behind what is there, and a peek with enough
      allowance hands it out last. */
  lemma PushIsRead(l: Log, cfg: Config, r: Rec, io: PushIo, max: nat, budget: nat)
    requires Inv(l) && r.good && Fits(l, cfg.maxBytes, r) && FaultFree(io)
    ensures var (m, res) := PushOp(l, cfg, r, io);
      && res == Stored(0) && Inv(m) && m.hist == l.hist + [r]
      && m.peek.at <= |l.hist|
      && (GoodIn(m.hist, m.peek.at, |m.hist|) < max && GoodBytes(m.hist, m.peek.at, |m.hist|) <= budget ==>
            var p := PeekOp(m, None, max, budget).peek.at;
            && p == |m.hist|
            && Payloads(m.hist, m.peek.at, p) == Payloads(m.hist, m.peek.at, |l.hist|) + [r.payload])
  {
    hide Tracks, Span, Whole, GoodIn, GoodBytes, PushOp, PeekOp, Fits, Keeps;
    AcceptsNow(l, cfg, r, io);
    FitsCap(l, cfg.maxBytes, r);
    PushStores(l, cfg, r, io);
    PushSlides(l, cfg, r, io);
    CursorBounds(l);
    var m := PushOp(l, cfg, r, io).0;
    CursorBounds(m);
    if GoodIn(m.hist, m.peek.at, |m.hist|) < max && GoodBytes(m.hist, m.peek.at, |m.hist|) <= budget {
      PeekReachesEnd(m, max, budget);
    }
  }

  lemma FitsCap(l: Log, maxBytes: nat, r: Rec)
    requires Shape(l) && Fits(l, maxBytes, r)
    ensures SizeOf(r) <= maxBytes
  {
  }

  /** Write-failure repair: however a push went wrong, and whatever part of the
      buffer reached the file, the next push of a record that fits is stored and
      readable. */
  lemma RepairedPushIsRead(l: Log, cfg: Config, lost: Rec, bad: PushIo, r: Rec, io: PushIo, max: nat, budget: nat)
    requires Inv(l) && lost.good && r.good && FaultFree(io)
    requires cfg.policy.DropOldest? ==> SizeOf(lost) <= cfg.maxBytes
    ensures var f := PushOp(l, cfg, lost, bad).0;
      && Inv(f)
      && (Fits(f, cfg.maxBytes, r) ==>
            var (m, res) := PushOp(f, cfg, r, io);
            && res == Stored(0) && Inv(m) && m.hist == f.hist + [r]
            && m.peek.at <= |f.hist|
            && (GoodIn(m.hist, m.peek.at, |m.hist|) < max && GoodBytes(m.hist, m.peek.at, |m.hist|) <= budget ==>
                  var p := PeekOp(m, None, max, budget).peek.at;
                  && p == |m.hist|
                  && Payloads(m.hist, m.peek.at, p) == Payloads(m.hist, m.peek.at, |f.hist|) + [r.payload]))
  {
    hide Tracks, Span, Whole, GoodIn, GoodBytes, PushOp, PeekOp, Fits, Keeps, Payloads;
    PushSafe(l, cfg, lost, bad);
    var f := PushOp(l, cfg, lost, bad).0;
    if Fits(f, cfg.maxBytes, r) { PushIsRead(f, cfg, r, io, max, budget); }
  }

  // ------------------------------------------------------- exactly when it fits

  /** A fault-free run that ends with everything handed out. */
  ghost predicate Drains(l: Log, cfg: Config, ops: seq<Op>)
    requires Inv(l)
  {
    Runs(l, cfg, ops) && AllFaultFree(ops)
    && var m := After(l, cfg, ops); m.peek == Pos(Last(m), |m.hist|)
  }

  /** And now acknowledged. */
  ghost function Drained(l: Log, cfg: Config, ops: seq<Op>): (a: Log)
    requires Inv(l) && Drains(l, cfg, ops)
    ensures Inv(a)
  {
    AckSafe(After(l, cfg, ops), After(l, cfg, ops).handed);
    AckOp(After(l, cfg, ops), After(l, cfg, ops).handed)
  }

  ghost predicate AlwaysAccepts(l: Log, cfg: Config, r: Rec)
    requires Inv(l) && r.good && !cfg.policy.DropOldest?
  {
    forall ops, io | Drains(l, cfg, ops) && FaultFree(io) :: PushOp(Drained(l, cfg, ops), cfg, r, io).1 == Stored(0)
  }

  const GOOD_IO := PushIo(RollOk, true, Wrote(0), RollOk)

  lemma DrainedRoom(l: Log, cfg: Config, ops: seq<Op>)
    requires Inv(l) && Drains(l, cfg, ops)
    ensures var a := Drained(l, cfg, ops);
      |a.starts| == 1 && Held(a) == WriteOff(After(l, cfg, ops))
  {
    hide Tracks, Span, Whole, Next, Enabled, Keeps, FaultFreeOp, GoodIn, Runs, After;
    CursorPlace(After(l, cfg, ops));
    AckSafe(After(l, cfg, ops), After(l, cfg, ops).handed);
  }

  /** One record that leaves the write segment as long as it can be. */
  lemma FillTail(l: Log, cfg: Config, w: Rec) returns (ops: seq<Op>)
    requires IsFresh(l) && Inv(l) && w.good && SizeOf(w) < cfg.segBytes && SizeOf(w) <= cfg.maxBytes
    requires !cfg.policy.DropOldest?
    ensures Drains(l, cfg, ops) && WriteOff(After(l, cfg, ops)) == SizeOf(w)
  {
    hide Tracks, Span, Whole, Keeps, PushOp, PeekOp, GoodIn, GoodBytes, StoreOp, IsFresh;
    var push, peek := Push(w, GOOD_IO), Peek(None, 2, SizeOf(w));
    ops := [push, peek];
    FillPush(l, cfg, w);
    var m := PushOp(l, cfg, w, GOOD_IO).0;
    PeekReachesEnd(m, 2, SizeOf(w));
    PeekTail(m, None, 2, SizeOf(w));
    PeekSafe(m, None, 2, SizeOf(w));
    var n := PeekOp(m, None, 2, SizeOf(w));
    assert ops[1..] == [peek] && [peek][1..] == [];
    assert Runs(n, cfg, []) && After(n, cfg, []) == n;
    assert Runs(m, cfg, [peek]) && After(m, cfg, [peek]) == n;
    assert Runs(l, cfg, ops) && After(l, cfg, ops) == n;
    PeekKeepsEnd(m, 2, SizeOf(w));
  }

  lemma PeekKeepsEnd(l: Log, max: nat, budget: nat)
    requires Inv(l) && PeekOp(l, None, max, budget).peek == Pos(Last(l), |l.hist|)
    ensures var m := PeekOp(l, None, max, budget); Shape(m) && m.peek == Pos(Last(m), |m.hist|)
  {
    hide Tracks, PeekOp, Span, Whole, LongestRun;
    PeekIsLongestRun(l, None, max, budget);
  }

  lemma FillPush(l: Log, cfg: Config, w: Rec)
    requires IsFresh(l) && Inv(l) && w.good && SizeOf(w) < cfg.segBytes && SizeOf(w) <= cfg.maxBytes
    requires !cfg.policy.DropOldest?
    ensures var m := PushOp(l, cfg, w, GOOD_IO).0;
      && Inv(m) && WriteOff(m) == SizeOf(w) && m.peek.at <= |m.hist|
      && GoodIn(m.hist, m.peek.at, |m.hist|) == 1 && GoodBytes(m.hist, m.peek.at, |m.hist|) == SizeOf(w)
  {
    hide Tracks, Span, Whole, GoodIn;
    FreshInv(l);
    RoomAlready(l, cfg.maxBytes, w, RollOk);
    StoreSafe(l, w, 0);
    SpanGrows(l.hist, w, 0);
    SpanZero(l.hist, 0, 0);
    var m := StoreOp(l, w, 0);
    assert m.hist == [w];
    OneGood(w);
  }

  lemma OneGood(w: Rec)
    requires w.good
    ensures GoodBytes([w], 0, 1) == SizeOf(w)
  {
    assert GoodBytes([w], 0, 0) == 0;
  }

  /** Under `block` and `drop_newest` a record is accepted after every fault-free
      run from a fresh queue, once drained, if and only if it fits the cap beside
      the longest write segment that draining can leave. */
  lemma AlwaysAcceptsIff(l: Log, cfg: Config, r: Rec)
    requires IsFresh(l) && Inv(l) && r.good && |r.payload| >= 1 && !cfg.policy.DropOldest? && cfg.segBytes >= 10
    ensures AlwaysAccepts(l, cfg, r) <==> cfg.segBytes - 1 + SizeOf(r) <= cfg.maxBytes
  {
    hide Tracks, Span, Whole, Next, Enabled, Keeps, FaultFreeOp, PushOp, GoodIn, Runs, After, IsFresh, AllFaultFree;
    FreshInv(l);
    if cfg.segBytes - 1 + SizeOf(r) <= cfg.maxBytes {
      forall ops, io | Drains(l, cfg, ops) && FaultFree(io)
        ensures PushOp(Drained(l, cfg, ops), cfg, r, io).1 == Stored(0)
      {
        NoWedge(l, cfg, ops, r, io);
      }
    } else {
      var ops := LongTail(l, cfg, r);
      DrainedRoom(l, cfg, ops);
      var a := Drained(l, cfg, ops);
      PushRefuses(a, cfg, r, GOOD_IO);
      assert Drains(l, cfg, ops) && FaultFree(GOOD_IO) && PushOp(a, cfg, r, GOOD_IO).1 != Stored(0);
    }
  }

  lemma LongTail(l: Log, cfg: Config, r: Rec) returns (ops: seq<Op>)
    requires IsFresh(l) && Inv(l) && |r.payload| >= 1 && !cfg.policy.DropOldest? && cfg.segBytes >= 10
    requires cfg.segBytes - 1 + SizeOf(r) > cfg.maxBytes
    ensures Drains(l, cfg, ops) && WriteOff(After(l, cfg, ops)) + SizeOf(r) > cfg.maxBytes
  {
    hide Tracks, Span, Whole, Keeps;
    var tail := Min(cfg.segBytes - 1, cfg.maxBytes);
    if tail > HEADER {
      var w := Rec(seq(tail - HEADER, _ => 0), 0, true);
      ops := FillTail(l, cfg, w);
    } else {
      FreshInv(l);
      ops := [];
      assert Runs(l, cfg, ops) && After(l, cfg, ops) == l;
    }
  }

  // ------------------------------------------------------------------ a wedge

  /** The write segment is all there is, and a record does not fit beside it. */
  ghost predicate Wedged(l: Log, cfg: Config, r: Rec) {
    Inv(l) && |l.starts| == 1 && !Fits(l, cfg.maxBytes, r) && !cfg.policy.DropOldest?
  }

  /** What goes on without a shorter record being pushed. */
  ghost predicate NothingShorter(op: Op, r: Rec) {
    match op
    case Push(q, _) => SizeOf(q) >= SizeOf(r)
    case Store(_, _) => false
    case Roll(_) => false
    case Evict => false
    case Crash(_) => false
    case _ => true
  }

  lemma StepWedged(l: Log, cfg: Config, op: Op, r: Rec)
    requires Wedged(l, cfg, r) && Enabled(l, cfg, op) && NothingShorter(op, r)
    ensures Wedged(Next(l, cfg, op), cfg, r)
  {
    StepSafe(l, cfg, op);
    CursorPlace(l);
    hide Tracks, Span, Whole, PushOp, PeekOp, UnlinkOp, Keeps;
    match op
    case Push(q, io) => PushRefuses(l, cfg, q, io);
    case Peek(fails, max, budget) => PeekSameLayout(l, fails, max, budget);
    case Ack(n) => UnlinkNothing(ConfirmOp(l, n), l.peek.seg);
    case Unlink(upto) => UnlinkNothing(l, upto);
    case _ =>
  }

  lemma UnlinkNothing(l: Log, upto: nat)
    requires Shape(l) && |l.starts| == 1 && l.first <= upto <= Last(l)
    ensures UnlinkOp(l, upto).hist == l.hist && UnlinkOp(l, upto).starts == l.starts
  {
  }

  lemma PeekSameLayout(l: Log, fails: Option<nat>, max: nat, budget: nat)
    requires Inv(l)
    ensures PeekOp(l, fails, max, budget).hist == l.hist && PeekOp(l, fails, max, budget).starts == l.starts
  {
    hide Tracks, PeekOp, Span, Whole, LongestRun;
    PeekIsLongestRun(l, fails, max, budget);
  }

  /** A wedge lasts: through peeks, acks, flushes and pushes of the record or of
      longer ones the record goes on being refused. */
  lemma {:induction false} WedgeLasts(l: Log, cfg: Config, ops: seq<Op>, r: Rec, io: PushIo)
    requires Wedged(l, cfg, r) && Runs(l, cfg, ops) && r.good
    requires forall i :: 0 <= i < |ops| ==> NothingShorter(ops[i], r)
    ensures PushOp(After(l, cfg, ops), cfg, r, io).1 == if cfg.policy.Block? then Full else Dropped
    decreases |ops|
  {
    hide Tracks, Span, Whole, Next, Enabled, Keeps, PushOp, NothingShorter;
    if ops == [] {
      PushRefuses(l, cfg, r, io);
    } else {
      StepSafe(l, cfg, ops[0]);
      StepWedged(l, cfg, ops[0], r);
      WedgeLasts(Next(l, cfg, ops[0]), cfg, ops[1..], r, io);
    }
  }

  /** With a cap no larger than one segment the queue can wedge: everything is
      acknowledged and counted as zero, and still a record that fits the cap is
      refused under `block`.  A shorter record that does fit is stored. */
  lemma WedgeWhenCapIsOneSegment(r: Rec) returns (l: Log, cfg: Config)
    requires r.good
    ensures cfg == Config(2 * SizeOf(r) - 1, 2 * SizeOf(r) - 1, Block) && Wedged(l, cfg, r)
    ensures WriteOff(l) < cfg.segBytes && SizeOf(r) <= cfg.maxBytes
    ensures l.count == 0 && l.cursor == Pos(Last(l), |l.hist|)
    ensures forall q: Rec, io: PushIo :: q.good && SizeOf(q) == SizeOf(r) - 1 && FaultFree(io) ==>
              PushOp(l, cfg, q, io).1 == Stored(0)
  {
    hide Whole, PushOp;
    l := Log([r], 0, [0], SizeOf(r), false, Pos(0, 1), Pos(0, 1), Pos(0, 1), None, 0, 0, {0}, {}, 1, 0, 0);
    cfg := Config(2 * SizeOf(r) - 1, 2 * SizeOf(r) - 1, Block);
    assert Off(l.hist, 1) == SizeOf(r) && Good(l.hist, 1) == 1;
    WholeAll(l.hist, 0);
    forall q: Rec, io: PushIo | q.good && SizeOf(q) == SizeOf(r) - 1 && FaultFree(io)
      ensures PushOp(l, cfg, q, io).1 == Stored(0)
    {
      AcceptsNow(l, cfg, q, io);
    }
  }
}
