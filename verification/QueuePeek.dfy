/** Reading ahead: the batch a peek hands out and where it leaves the reader. */
module QueuePeek {
  import opened Options
  import opened Records
  import opened QueueLog

  /** Progress of one batch: next index, events taken, their bytes, and whether
      the byte budget refused the record at `at`. */
  datatype Batch = Batch(at: nat, n: nat, used: nat, hit: bool)

  /** Take records up to `lim`, stepping over bad ones, until `max` are taken or
      the next good one would go over the budget; the first is always taken. */
  function Take(h: seq<Rec>, lim: nat, max: nat, budget: nat, b: Batch): (r: Batch)
    requires b.at <= lim <= |h| && !b.hit
    ensures b.at <= r.at <= lim
    ensures r.hit ==> r.at < lim && r.n > 0
    decreases lim - b.at
  {
    if b.n >= max || b.at == lim then b
    else if !h[b.at].good then Take(h, lim, max, budget, b.(at := b.at + 1))
    else if b.n > 0 && b.used + SizeOf(h[b.at]) > budget then b.(hit := true)
    else Take(h, lim, max, budget, Batch(b.at + 1, b.n + 1, b.used + SizeOf(h[b.at]), false))
  }

  predicate Stops(b: Batch, max: nat) {
    b.n >= max || b.hit
  }

  /** How far segment `s` can be read: torn bytes at the end of the write segment cannot. */
  function Readable(l: Log, s: nat): (e: nat)
    requires Shape(l) && l.first <= s <= Last(l)
    ensures e <= |l.hist|
  {
    if s == Last(l) then Durable(l) else End(l, s)
  }

  /** Segment by segment from `s`; `pos` is where the previous segment left the reader. */
  function Walk(l: Log, max: nat, budget: nat, s: nat, pos: Pos, b: Batch): (r: (Pos, Batch))
    requires Shape(l) && l.first <= s <= Last(l) + 1
    requires pos.seg == s ==> s <= Last(l) && pos.at <= Readable(l, s)
    decreases Last(l) + 1 - s
  {
    if s > Last(l) || Stops(b, max) then (pos, b)
    else
      var from := if s == pos.seg then pos.at else Start(l, s);
      var c := Take(l.hist, Readable(l, s), max, budget, Batch(from, b.n, b.used, false));
      Walk(l, max, budget, s + 1, Pos(s, c.at), c)
  }

  /** The payloads of the good records among `a..b`, in order. */
  function Payloads(h: seq<Rec>, a: nat, b: nat): seq<seq<Byte>>
    requires a <= b <= |h|
  {
    if a == b then []
    else Payloads(h, a, b - 1) + (if h[b - 1].good then [h[b - 1].payload] else [])
  }

  /** The buffered writer is flushed first; a failed flush is ignored. */
  function FlushTry(l: Log, fails: Option<nat>): Log
    requires Shape(l) && l.flushed <= WriteOff(l)
  {
    if !l.writerOpen || l.flushed == WriteOff(l) then l
    else if fails.None? then FlushOp(l, WriteOff(l))
    else FlushOp(l, l.flushed + Partial(fails.value, WriteOff(l) - l.flushed))
  }

  ghost function PeekOp(l: Log, fails: Option<nat>, max: nat, budget: nat): Log
    requires Inv(l)
  {
    var m := FlushTry(l, fails);
    FlushTrySafe(l, fails);
    PeekStarts(m);
    var p := Walk(m, max, budget, m.peek.seg, m.peek, Batch(m.peek.at, 0, 0, false)).0;
    WalkRange(m, max, budget, m.peek.seg, m.peek, Batch(m.peek.at, 0, 0, false));
    MovePeek(m, p)
  }

  function MovePeek(l: Log, p: Pos): Log
    requires l.peek.at <= p.at <= |l.hist|
  {
    l.(peek := p, handed := l.handed + GoodIn(l.hist, l.peek.at, p.at))
  }

  lemma MovePeekSafe(l: Log, p: Pos)
    requires Inv(l) && InSegment(l, p) && Behind(l.peek, p) && p.at <= Durable(l)
    ensures Inv(MovePeek(l, p)) && Keeps(l, MovePeek(l, p))
  {
    hide Whole, Span, GoodIn, InSegment;
    var m := MovePeek(l, p);
    SamePlace(l, m, p);
    SamePlace(l, m, l.cursor);
    if l.saved.seg >= l.first { SamePlace(l, m, l.saved); }
    if l.saving.Some? && l.saving.value.seg >= l.first { SamePlace(l, m, l.saving.value); }
    hide Shape;
    SpanAdd(l.hist, l.cursor.at, l.peek.at, p.at);
  }

  lemma FlushTrySafe(l: Log, fails: Option<nat>)
    requires Inv(l)
    ensures Inv(FlushTry(l, fails)) && Keeps(l, FlushTry(l, fails))
  {
    hide Tracks, Span, Whole, Keeps;
    FlushSafe(l, l.flushed);
    FlushSafe(l, if !l.writerOpen then l.flushed else WriteOff(l));
    if l.writerOpen && l.flushed < WriteOff(l) && fails.Some? {
      FlushSafe(l, l.flushed + Partial(fails.value, WriteOff(l) - l.flushed));
    }
  }

  lemma PeekStarts(l: Log)
    requires Inv(l)
    ensures l.first <= l.peek.seg <= Last(l) && l.peek.at <= Readable(l, l.peek.seg)
  {
  }

  lemma SegmentReadable(l: Log, s: nat)
    requires Shape(l) && l.first <= s <= Last(l)
    ensures Start(l, s) <= Readable(l, s) <= Durable(l)
    ensures s < Last(l) ==> Readable(l, s) == Start(l, s + 1)
    ensures Readable(l, s) <= End(l, s)
  {
  }

  /** One segment of the walk. */
  lemma WalkStep(l: Log, max: nat, budget: nat, s: nat, pos: Pos, b: Batch)
    requires Shape(l) && l.first <= s <= Last(l) && !Stops(b, max)
    requires pos.seg == s ==> pos.at <= Readable(l, s)
    ensures var from := if s == pos.seg then pos.at else Start(l, s);
      && from <= Readable(l, s)
      && var c := Take(l.hist, Readable(l, s), max, budget, Batch(from, b.n, b.used, false));
      && from <= c.at <= Readable(l, s)
      && (c.at == Readable(l, s) || Stops(c, max))
      && Walk(l, max, budget, s, pos, b) == Walk(l, max, budget, s + 1, Pos(s, c.at), c)
  {
    hide Take, Whole;
    SegmentReadable(l, s);
    var from := if s == pos.seg then pos.at else Start(l, s);
    TakeEnds(l.hist, Readable(l, s), max, budget, Batch(from, b.n, b.used, false));
  }

  /** The walk only moves forward and stays within a segment of the queue. */
  lemma {:induction false} WalkRange(l: Log, max: nat, budget: nat, s: nat, pos: Pos, b: Batch)
    requires Shape(l) && l.first <= s <= Last(l) + 1
    requires InSegment(l, pos) && pos.at <= Durable(l)
    requires pos.seg == s || (s == pos.seg + 1 && (pos.at == Readable(l, pos.seg) || Stops(b, max)))
    requires pos.seg == s ==> pos.at <= Readable(l, s)
    ensures var p := Walk(l, max, budget, s, pos, b).0;
      InSegment(l, p) && Behind(pos, p) && p.at <= Durable(l)
    decreases Last(l) + 1 - s
  {
    hide Whole, Take;
    if s <= Last(l) && !Stops(b, max) {
      WalkStep(l, max, budget, s, pos, b);
      SegmentReadable(l, s);
      SegmentReadable(l, pos.seg);
      var from := if s == pos.seg then pos.at else Start(l, s);
      var c := Take(l.hist, Readable(l, s), max, budget, Batch(from, b.n, b.used, false));
      WalkRange(l, max, budget, s + 1, Pos(s, c.at), c);
    }
  }

  /** Taking ends at the limit unless something stopped it. */
  lemma {:induction false} TakeEnds(h: seq<Rec>, lim: nat, max: nat, budget: nat, b: Batch)
    requires b.at <= lim <= |h| && !b.hit
    ensures var r := Take(h, lim, max, budget, b); r.at == lim || Stops(r, max)
    decreases lim - b.at
  {
    if b.n >= max || b.at == lim {
    } else if !h[b.at].good {
      TakeEnds(h, lim, max, budget, b.(at := b.at + 1));
    } else if b.n > 0 && b.used + SizeOf(h[b.at]) > budget {
    } else {
      TakeEnds(h, lim, max, budget, Batch(b.at + 1, b.n + 1, b.used + SizeOf(h[b.at]), false));
    }
  }

  lemma PeekSafe(l: Log, fails: Option<nat>, max: nat, budget: nat)
    requires Inv(l)
    ensures Inv(PeekOp(l, fails, max, budget)) && Keeps(l, PeekOp(l, fails, max, budget))
  {
    hide Whole, Span, GoodIn, Walk, MovePeek, Tracks, FlushTry, Keeps;
    var m := FlushTry(l, fails);
    FlushTrySafe(l, fails);
    PeekStarts(m);
    PeekPlaces(m);
    WalkRange(m, max, budget, m.peek.seg, m.peek, Batch(m.peek.at, 0, 0, false));
    var p := Walk(m, max, budget, m.peek.seg, m.peek, Batch(m.peek.at, 0, 0, false)).0;
    MovePeekSafe(m, p);
    KeepsTrans(l, m, MovePeek(m, p));
  }

  lemma PeekPlaces(l: Log)
    requires Inv(l)
    ensures InSegment(l, l.peek) && l.peek.at <= Durable(l)
  {
  }

  // --------------------------------------------- segments make no difference

  lemma {:induction false} TakeSplit(h: seq<Rec>, mid: nat, lim: nat, max: nat, budget: nat, b: Batch)
    requires b.at <= mid <= lim <= |h| && !b.hit
    ensures var c := Take(h, mid, max, budget, b);
      if Stops(c, max) then Take(h, lim, max, budget, b) == c
      else c.at == mid && Take(h, lim, max, budget, b) == Take(h, lim, max, budget, c)
    decreases mid - b.at
  {
    if b.n >= max || b.at == mid {
    } else if !h[b.at].good {
      TakeSplit(h, mid, lim, max, budget, b.(at := b.at + 1));
    } else if b.n > 0 && b.used + SizeOf(h[b.at]) > budget {
    } else {
      TakeSplit(h, mid, lim, max, budget, Batch(b.at + 1, b.n + 1, b.used + SizeOf(h[b.at]), false));
    }
  }

  /** Walking the segments takes what one run over the whole history would. */
  lemma {:induction false} WalkIsTake(l: Log, max: nat, budget: nat, s: nat, pos: Pos, b: Batch)
    requires Shape(l) && l.first <= s <= Last(l)
    requires b.at == pos.at <= Durable(l) && !b.hit
    requires if pos.seg == s then InSegment(l, pos) else s == pos.seg + 1 && pos.at == Start(l, s)
    requires pos.seg == s ==> pos.at <= Readable(l, s)
    ensures var (p, r) := Walk(l, max, budget, s, pos, b);
      && r == Take(l.hist, Durable(l), max, budget, b)
      && p.at == r.at
      && (!Stops(r, max) ==> p == Pos(Last(l), Durable(l)))
    decreases Last(l) - s
  {
    hide Whole, Take;
    if Stops(b, max) {
      TakeStopped(l.hist, Durable(l), max, budget, b);
    } else {
      WalkStep(l, max, budget, s, pos, b);
      SegmentReadable(l, s);
      var c := Take(l.hist, Readable(l, s), max, budget, b);
      TakeSplit(l.hist, Readable(l, s), Durable(l), max, budget, b);
      if s < Last(l) && !Stops(c, max) {
        SegmentReadable(l, s + 1);
        WalkIsTake(l, max, budget, s + 1, Pos(s, c.at), c);
      } else if !Stops(c, max) {
        TakeStopped(l.hist, Durable(l), max, budget, c);
      }
    }
  }

  lemma TakeStopped(h: seq<Rec>, lim: nat, max: nat, budget: nat, b: Batch)
    requires b.at <= lim <= |h| && !b.hit && (Stops(b, max) || b.at == lim)
    ensures Take(h, lim, max, budget, b) == b
  {
  }

  // ------------------------------------------------------- the longest run

  /** Bytes of the good records among `a..b`. */
  function GoodBytes(h: seq<Rec>, a: nat, b: nat): nat
    requires a <= b <= |h|
  {
    if a == b then 0
    else GoodBytes(h, a, b - 1) + (if h[b - 1].good then SizeOf(h[b - 1]) else 0)
  }

  /** `a..b` is the longest run that respects both limits, as far as `lim`. */
  ghost predicate LongestRun(h: seq<Rec>, a: nat, b: nat, lim: nat, max: nat, budget: nat)
    requires a <= b <= lim <= |h|
  {
    var n := GoodIn(h, a, b);
    && n <= max
    && (GoodBytes(h, a, b) <= budget || n <= 1)
    && (b == lim
        || (n == max && (a < b ==> h[b - 1].good))
        || (h[b].good && n >= 1 && GoodBytes(h, a, b) + SizeOf(h[b]) > budget))
  }

  lemma {:induction false} TakeLongest(h: seq<Rec>, a: nat, lim: nat, max: nat, budget: nat, b: Batch)
    requires a <= b.at <= lim <= |h| && !b.hit
    requires b.n == GoodIn(h, a, b.at) <= max && b.used == GoodBytes(h, a, b.at)
    requires b.used <= budget || b.n <= 1
    requires b.n == max && a < b.at ==> h[b.at - 1].good
    ensures var r := Take(h, lim, max, budget, b);
      && r.n == GoodIn(h, a, r.at)
      && LongestRun(h, a, r.at, lim, max, budget)
    decreases lim - b.at
  {
    if b.n >= max || b.at == lim {
    } else if !h[b.at].good {
      TakeLongest(h, a, lim, max, budget, b.(at := b.at + 1));
    } else if b.n > 0 && b.used + SizeOf(h[b.at]) > budget {
    } else {
      TakeLongest(h, a, lim, max, budget, Batch(b.at + 1, b.n + 1, b.used + SizeOf(h[b.at]), false));
    }
  }

  lemma {:induction false} PayloadCount(h: seq<Rec>, a: nat, b: nat)
    requires a <= b <= |h|
    ensures |Payloads(h, a, b)| == GoodIn(h, a, b)
  {
    if a < b { PayloadCount(h, a, b - 1); }
  }

  lemma {:induction false} PayloadsSplit(h: seq<Rec>, a: nat, m: nat, b: nat)
    requires a <= m <= b <= |h|
    ensures Payloads(h, a, b) == Payloads(h, a, m) + Payloads(h, m, b)
  {
    if m < b { PayloadsSplit(h, a, m, b - 1); }
  }

  /** A longest run with nothing in it has nothing readable ahead of it. */
  lemma EmptyRun(h: seq<Rec>, a: nat, b: nat, lim: nat, max: nat, budget: nat)
    requires a <= b <= lim <= |h| && max >= 1
    requires LongestRun(h, a, b, lim, max, budget)
    ensures GoodIn(h, a, b) == 0 <==> GoodIn(h, a, lim) == 0
  {
    hide Good;
    SpanAdd(h, a, b, lim);
  }

  /** A peek hands out the longest run of records after the peek position that
      are whole on disk, wherever the segments lie, and moves past exactly those;
      a peek whose flush succeeds leaves nothing undiscovered. */
  lemma PeekIsLongestRun(l: Log, fails: Option<nat>, max: nat, budget: nat)
    requires Inv(l)
    ensures var m := PeekOp(l, fails, max, budget);
      && Shape(m) && m.hist == l.hist && l.peek.at <= m.peek.at <= Durable(m)
      && (fails.None? ==> Durable(m) == |l.hist|)
      && LongestRun(l.hist, l.peek.at, m.peek.at, Durable(m), max, budget)
      && |Payloads(l.hist, l.peek.at, m.peek.at)| == GoodIn(l.hist, l.peek.at, m.peek.at)
      && (max >= 1 && GoodIn(l.hist, l.peek.at, Durable(m)) > 0 ==>
            Payloads(l.hist, l.peek.at, m.peek.at) != [])
      && m == l.(flushed := m.flushed, peek := m.peek,
                 handed := l.handed + GoodIn(l.hist, l.peek.at, m.peek.at))
  {
    hide Whole, Span, GoodIn, Walk, Good, Tracks, Take, LongestRun, Payloads, PeekOp, Shape;
    PeekFlushes(l, fails, max, budget);
    var m := PeekOp(l, fails, max, budget);
    PayloadCount(l.hist, l.peek.at, m.peek.at);
    if max >= 1 { EmptyRun(l.hist, l.peek.at, m.peek.at, Durable(m), max, budget); }
  }

  lemma PeekFlushes(l: Log, fails: Option<nat>, max: nat, budget: nat)
    requires Inv(l)
    ensures var m := PeekOp(l, fails, max, budget);
      && Shape(m) && m.hist == l.hist && l.peek.at <= m.peek.at <= Durable(m)
      && (fails.None? ==> Durable(m) == |l.hist|)
      && LongestRun(l.hist, l.peek.at, m.peek.at, Durable(m), max, budget)
      && m == l.(flushed := m.flushed, peek := m.peek,
                 handed := l.handed + GoodIn(l.hist, l.peek.at, m.peek.at))
  {
    hide Whole, Span, GoodIn, Walk, Good, Tracks, Take, LongestRun, Keeps, FlushTry;
    var f := FlushTry(l, fails);
    FlushTrySafe(l, fails);
    FlushTryFields(l, fails);
    PeekStarts(f);
    StartBatch(f, max, budget);
  }

  lemma FlushTryFields(l: Log, fails: Option<nat>)
    requires Inv(l)
    ensures var f := FlushTry(l, fails);
      && Shape(f) && f == l.(flushed := f.flushed)
      && (fails.None? ==> Durable(f) == |l.hist|)
  {
    hide Whole, Span, Tracks;
    FlushedDurable(l);
  }

  lemma FlushedDurable(l: Log)
    requires Shape(l) && l.flushed <= WriteOff(l)
    ensures (l.flushed == WriteOff(l) ==> Durable(l) == |l.hist|)
    ensures Durable(FlushOp(l, WriteOff(l))) == |l.hist|
  {
    WholeAll(l.hist, WriteStart(l));
  }

  lemma StartBatch(l: Log, max: nat, budget: nat)
    requires Inv(l) && l.first <= l.peek.seg <= Last(l) && l.peek.at <= Readable(l, l.peek.seg)
    ensures var p := Walk(l, max, budget, l.peek.seg, l.peek, Batch(l.peek.at, 0, 0, false)).0;
      && l.peek.at <= p.at <= Durable(l)
      && LongestRun(l.hist, l.peek.at, p.at, Durable(l), max, budget)
  {
    hide Whole, Span, Walk, Take, Fates, Counts;
    SpanZero(l.hist, l.peek.at, l.peek.at);
    WalkIsTake(l, max, budget, l.peek.seg, l.peek, Batch(l.peek.at, 0, 0, false));
    TakeLongest(l.hist, l.peek.at, Durable(l), max, budget, Batch(l.peek.at, 0, 0, false));
  }
}
