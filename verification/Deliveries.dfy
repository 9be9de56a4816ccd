/** What a worker that sends before it acknowledges keeps, and what follows over any
    number of processes: at-least-once delivery. */
module Deliveries {
  import opened Naturals
  import opened Options
  import opened Records
  import opened QueueLog
  import opened QueuePush
  import opened QueuePeek
  import opened QueueRuns
  import opened QueueAccounts

  const PEEK_MAX_BYTES := 8 * 1024 * 1024

  // ------------------------------------------------------ what the worker keeps

  /** Nothing good is in flight. */
  ghost predicate Idle(l: Log)
    requires Inv(l)
  {
    CursorBounds(l);
    l.handed == 0 && forall i :: l.cursor.at <= i < l.peek.at ==> !l.hist[i].good
  }

  /** Every good record acknowledged since `l0` is among `sent`. */
  ghost predicate OnlySent(l0: Log, l: Log, sent: set<nat>)
    requires Inv(l)
  {
    AckedKnown(l);
    forall i :: i in l.acked && i !in l0.acked && l.hist[i].good ==> i in sent
  }

  lemma AckedKnown(l: Log)
    requires Inv(l)
    ensures forall i :: i in l.acked ==> 0 <= i < Durable(l) <= |l.hist|
  {
  }

  /** What was sent is exactly what the cursor has passed since it was at `from`. */
  ghost predicate InOrder(from: nat, l: Log, wire: seq<seq<Byte>>)
    requires Inv(l)
  {
    CursorBounds(l);
    from <= l.cursor.at && wire == Payloads(l.hist, from, l.cursor.at)
  }

  /** What is in flight is the batch `a..b`, less what was evicted from it. */
  ghost predicate Carrying(l: Log, a: nat, b: nat)
    requires Inv(l)
  {
    CursorBounds(l);
    a <= b <= l.peek.at && forall i :: l.cursor.at <= i < l.peek.at && l.hist[i].good ==> a <= i < b
  }

  /** The batch is what is in flight. */
  ghost predicate Bears(l: Log, batch: seq<seq<Byte>>)
    requires Inv(l)
  {
    CursorBounds(l);
    batch == Payloads(l.hist, l.cursor.at, l.peek.at)
  }

  /** The batch is the good records of `a..b`, wherever the cursor is by now. */
  ghost predicate IsBatch(l: Log, a: nat, b: nat, batch: seq<seq<Byte>>)
    requires Inv(l)
  {
    CursorBounds(l);
    a <= b <= l.peek.at && batch == Payloads(l.hist, a, b)
  }

  /** Index ranges that follow each other, from `from` to `end`. */
  predicate Ascending(ranges: seq<(nat, nat)>, from: nat, end: nat) {
    && (forall k :: 0 <= k < |ranges| ==> from <= ranges[k].0 <= ranges[k].1 <= end)
    && (forall j, k :: 0 <= j < k < |ranges| ==> ranges[j].1 <= ranges[k].0)
  }

  /** The good records of the ranges, in order. */
  function WireOf(h: seq<Rec>, ranges: seq<(nat, nat)>): seq<seq<Byte>>
    requires Ascending(ranges, 0, |h|)
  {
    if ranges == [] then []
    else
      var (a, b) := ranges[|ranges| - 1];
      WireOf(h, ranges[..|ranges| - 1]) + Payloads(h, a, b)
  }

  function SentIn(ranges: seq<(nat, nat)>): set<nat> {
    if ranges == [] then {}
    else SentIn(ranges[..|ranges| - 1]) + Indices(ranges[|ranges| - 1].0, ranges[|ranges| - 1].1)
  }

  /** What was sent is the good records of ranges that follow each other, all of
      them behind the cursor: nothing twice and nothing out of order. */
  ghost predicate Covers(from: nat, l: Log, ranges: seq<(nat, nat)>, wire: seq<seq<Byte>>)
    requires Inv(l)
  {
    CursorBounds(l);
    from <= l.cursor.at && Ascending(ranges, from, l.cursor.at) && wire == WireOf(l.hist, ranges)
  }

  /** Every good record behind the cursor was sent, evicted, or already acknowledged in `l0`. */
  ghost predicate PassedOnly(l0: Log, l: Log, sent: set<nat>)
    requires Inv(l)
  {
    CursorBounds(l);
    forall i :: 0 <= i < l.cursor.at && l.hist[i].good ==> i in sent || i in l.evicted || i in l0.acked
  }

  lemma SlidesKeeps(l0: Log, l: Log, m: Log, sent: set<nat>)
    requires Inv(l) && Inv(m) && Slides(l, m)
    ensures OnlySent(l0, l, sent) ==> OnlySent(l0, m, sent)
    ensures Idle(l) ==> Idle(m)
  {
    hide Tracks, Shape, Whole, Span, GoodIn, Good, Off, CountExact;
    AckedKnown(l);
    CursorBounds(l);
    CursorBounds(m);
    assert forall i :: 0 <= i < Durable(l) ==> m.hist[i] == m.hist[..Durable(l)][i] == l.hist[i];
  }

  lemma SlidesCarries(l: Log, m: Log, a: nat, b: nat)
    requires Inv(l) && Inv(m) && Slides(l, m) && Carrying(l, a, b)
    ensures Carrying(m, a, b)
  {
    hide Tracks, Shape, Whole, Span, GoodIn, Good, Off, CountExact;
    CursorBounds(l);
    CursorBounds(m);
    assert forall i :: 0 <= i < Durable(l) ==> m.hist[i] == m.hist[..Durable(l)][i] == l.hist[i];
  }

  /** A push that evicts nothing leaves the sent prefix and the batch as they were. */
  lemma SlidesInOrder(l: Log, m: Log, from: nat, wire: seq<seq<Byte>>)
    requires Inv(l) && Inv(m) && Slides(l, m) && m.cursor.at == l.cursor.at
    requires InOrder(from, l, wire)
    ensures InOrder(from, m, wire)
  {
    hide Tracks, Shape, Whole, Span, GoodIn, Good, Off, CountExact, Payloads, Keeps;
    CursorBounds(l);
    CursorBounds(m);
    SamePrefix(l, m, l.cursor.at);
    SamePayloads(l.hist, m.hist, from, l.cursor.at);
  }

  lemma SlidesBears(l: Log, m: Log, batch: seq<seq<Byte>>)
    requires Inv(l) && Inv(m) && Slides(l, m) && m.cursor.at == l.cursor.at && Bears(l, batch)
    ensures Bears(m, batch)
  {
    hide Tracks, Shape, Whole, Span, GoodIn, Good, Off, CountExact, Payloads, Keeps;
    CursorBounds(l);
    CursorBounds(m);
    SamePrefix(l, m, l.peek.at);
    SamePayloads(l.hist, m.hist, l.cursor.at, l.peek.at);
  }

  lemma SlidesBatch(l: Log, m: Log, a: nat, b: nat, batch: seq<seq<Byte>>)
    requires Inv(l) && Inv(m) && Slides(l, m) && IsBatch(l, a, b, batch)
    ensures IsBatch(m, a, b, batch)
  {
    hide Tracks, Shape, Whole, Span, GoodIn, Good, Off, CountExact, Payloads, Keeps;
    CursorBounds(l);
    CursorBounds(m);
    SamePrefix(l, m, b);
    SamePayloads(l.hist, m.hist, a, b);
  }

  lemma {:induction false} SameWire(h: seq<Rec>, g: seq<Rec>, ranges: seq<(nat, nat)>, end: nat)
    requires end <= |h| && end <= |g| && h[..end] == g[..end] && Ascending(ranges, 0, end)
    ensures WireOf(h, ranges) == WireOf(g, ranges)
    decreases |ranges|
  {
    hide Payloads;
    if ranges != [] {
      var (a, b) := ranges[|ranges| - 1];
      SameWire(h, g, ranges[..|ranges| - 1], end);
      assert h[..b] == h[..end][..b] == g[..end][..b] == g[..b];
      SamePayloads(h, g, a, b);
    }
  }

  /** Whatever was sent stays what it is as the queue moves on. */
  lemma CoversKept(from: nat, l: Log, m: Log, ranges: seq<(nat, nat)>, wire: seq<seq<Byte>>)
    requires Inv(l) && Inv(m) && Keeps(l, m) && l.cursor.at <= m.cursor.at && Covers(from, l, ranges, wire)
    ensures Covers(from, m, ranges, wire)
  {
    hide Tracks, Shape, Whole, Span, GoodIn, Good, Off, Payloads, WireOf, Keeps;
    CursorBounds(l);
    CursorBounds(m);
    SamePrefix(l, m, l.cursor.at);
    SameWire(l.hist, m.hist, ranges, l.cursor.at);
  }

  lemma SlidesCovers(from: nat, l: Log, m: Log, ranges: seq<(nat, nat)>, wire: seq<seq<Byte>>)
    requires Inv(l) && Inv(m) && Slides(l, m) && Covers(from, l, ranges, wire)
    ensures Covers(from, m, ranges, wire)
  {
    hide Tracks, Shape, Covers, Keeps, CountExact;
    CoversKept(from, l, m, ranges, wire);
  }

  lemma PeekCovers(l: Log, fails: Option<nat>, max: nat, from: nat, ranges: seq<(nat, nat)>, wire: seq<seq<Byte>>)
    requires Inv(l) && Covers(from, l, ranges, wire)
    ensures var m := PeekOp(l, fails, max, PEEK_MAX_BYTES); Inv(m) && Covers(from, m, ranges, wire)
    ensures from <= l.peek.at && Ascending(ranges, from, l.peek.at)
  {
    hide Tracks, Shape, Whole, Span, GoodIn, Good, Off, PeekOp, LongestRun, WireOf;
    CursorBounds(l);
    PeekSafe(l, fails, max, PEEK_MAX_BYTES);
    PeekIsLongestRun(l, fails, max, PEEK_MAX_BYTES);
    CursorBounds(PeekOp(l, fails, max, PEEK_MAX_BYTES));
  }

  lemma AckCovers(l: Log, n: nat, from: nat, ranges: seq<(nat, nat)>, wire: seq<seq<Byte>>, a: nat, b: nat,
                  batch: seq<seq<Byte>>)
    requires Inv(l) && Covers(from, l, ranges, wire) && IsBatch(l, a, b, batch)
    requires Ascending(ranges, from, a) && from <= a
    ensures Inv(AckOp(l, n)) && Covers(from, AckOp(l, n), ranges + [(a, b)], wire + batch)
    ensures SentIn(ranges + [(a, b)]) == SentIn(ranges) + Indices(a, b)
  {
    hide Tracks, Shape, Whole, Span, GoodIn, Good, Off, Payloads, UnlinkOp, Keeps, WireOf, SentIn, Ascending;
    AckSafe(l, n);
    CursorPlace(l);
    AckFields(l, n);
    var m := AckOp(l, n);
    CursorBounds(l);
    CursorBounds(m);
    CoversKept(from, l, m, ranges, wire);
    CoversMore(from, m, ranges, wire, a, b, batch);
  }

  lemma SaveResetCovers(l: Log, ok: bool, from: nat, ranges: seq<(nat, nat)>, wire: seq<seq<Byte>>)
    requires Inv(l) && Covers(from, l, ranges, wire)
    ensures Inv(SaveOp(l, ok)) && Covers(from, SaveOp(l, ok), ranges, wire)
    ensures Inv(ResetOp(l)) && Covers(from, ResetOp(l), ranges, wire)
  {
    hide Tracks, Shape, Whole, Span, GoodIn, Good, Off, Payloads, Keeps, WireOf;
    SaveSafe(l, ok);
    ResetSafe(l);
    CursorBounds(l);
    CursorBounds(ResetOp(l));
    CursorBounds(SaveOp(l, ok));
  }

  /** One batch more, once the cursor has passed it. */
  lemma CoversMore(from: nat, l: Log, ranges: seq<(nat, nat)>, wire: seq<seq<Byte>>, a: nat, b: nat,
                   batch: seq<seq<Byte>>)
    requires Inv(l) && Covers(from, l, ranges, wire) && Ascending(ranges, from, a)
    requires from <= a <= b <= l.cursor.at <= |l.hist| && batch == Payloads(l.hist, a, b)
    ensures Covers(from, l, ranges + [(a, b)], wire + batch)
    ensures SentIn(ranges + [(a, b)]) == SentIn(ranges) + Indices(a, b)
  {
    hide Tracks, Shape, Whole, Span, GoodIn, Good, Off, Payloads;
    var more := ranges + [(a, b)];
    assert more[..|more| - 1] == ranges;
  }

  lemma {:induction false} SamePayloads(h: seq<Rec>, g: seq<Rec>, a: nat, b: nat)
    requires a <= b <= |h| && b <= |g| && h[..b] == g[..b]
    ensures Payloads(h, a, b) == Payloads(g, a, b)
  {
    if a < b {
      assert h[b - 1] == h[..b][b - 1] == g[b - 1];
      assert h[..b - 1] == h[..b][..b - 1] == g[..b - 1];
      SamePayloads(h, g, a, b - 1);
    }
  }

  /** The first `n` payloads of a range are those before some index of it, and the
      record there is the first one left. */
  lemma {:induction false} TakenPart(h: seq<Rec>, a: nat, b: nat, n: nat) returns (c: nat)
    requires a <= b <= |h| && n <= |Payloads(h, a, b)|
    ensures a <= c <= b && Payloads(h, a, c) == Payloads(h, a, b)[..n]
    ensures Payloads(h, c, b) == Payloads(h, a, b)[n..]
    ensures n == |Payloads(h, a, b)| <==> c == b
    decreases b
  {
    if n == |Payloads(h, a, b)| {
      c := b;
    } else {
      c := TakenPart(h, a, b - 1, n);
      PayloadsSplit(h, a, c, b);
    }
  }

  /** What an answer of `n` leaves of a batch, told on the queue as it was peeked. */
  lemma PartOfBatch(p: Log, l: Log, a: nat, b: nat, batch: seq<seq<Byte>>, n: nat) returns (c: nat)
    requires Inv(p) && Inv(l) && Slides(p, l) && IsBatch(p, a, b, batch) && n <= |batch|
    ensures a <= c <= b <= |p.hist| && IsBatch(l, a, c, batch[..n]) && Payloads(p.hist, c, b) == batch[n..]
    ensures n == |batch| <==> c == b
  {
    hide Tracks, Shape, Whole, Span, GoodIn, Good, Off, CountExact, CountWithin, Payloads, Keeps, Slides;
    CursorBounds(p);
    c := TakenPart(p.hist, a, b, n);
    SlidesBatch(p, l, a, c, batch[..n]);
  }

  /** Acknowledging a batch `a..b` of which the sink took `a..c`. */
  lemma AckShares(l: Log, n: nat, l0: Log, sent: set<nat>, short: set<nat>, ranges: seq<(nat, nat)>,
                  wire: seq<seq<Byte>>, a: nat, b: nat, c: nat, batch: seq<seq<Byte>>, part: seq<seq<Byte>>)
    requires Inv(l) && Carrying(l, a, b) && IsBatch(l, a, b, batch) && IsBatch(l, a, c, part) && c <= b
    requires Covers(l0.cursor.at, l, ranges, wire) && Ascending(ranges, l0.cursor.at, a) && l0.cursor.at <= a
    requires OnlySent(l0, l, sent + short)
    ensures var m := AckOp(l, n);
      && Inv(m) && Idle(m)
      && Covers(l0.cursor.at, m, ranges + [(a, c)], wire + part)
      && SentIn(ranges + [(a, c)]) == SentIn(ranges) + Indices(a, c)
      && OnlySent(l0, m, (sent + Indices(a, c)) + (short + Indices(c, b)))
      && (c == b && InOrder(l0.cursor.at, l, wire) && Bears(l, batch) ==> InOrder(l0.cursor.at, m, wire + part))
    ensures c == b ==> Indices(c, b) == {}
    ensures c != b ==> short + Indices(c, b) != {}
  {
    hide Inv, Payloads, Covers, OnlySent, InOrder, AckOp, Bears, Carrying, Ascending, SentIn, Idle;
    AckDelivers(l, n, a, b, l0, sent + short, l0.cursor.at, wire, batch);
    AckCovers(l, n, l0.cursor.at, ranges, wire, a, c, part);
    assert (sent + Indices(a, c)) + (short + Indices(c, b)) == sent + short + Indices(a, b);
    if c < b { assert c in Indices(c, b); }
  }

  lemma NothingLeft(h: seq<Rec>, b: nat)
    requires b <= |h|
    ensures Payloads(h, b, b) == [] && Indices(b, b) == {}
  {
  }

  lemma {:induction false} NoGood(h: seq<Rec>, a: nat, b: nat)
    requires a <= b <= |h|
    ensures Payloads(h, a, b) == [] <==> (forall i :: a <= i < b ==> !h[i].good)
  {
    if a < b { NoGood(h, a, b - 1); }
  }

  /** Peeking from an idle queue: the batch is what is now in flight. */
  lemma PeekCarries(l: Log, fails: Option<nat>, max: nat, l0: Log, sent: set<nat>, from: nat, wire: seq<seq<Byte>>)
    requires Inv(l) && Idle(l)
    ensures var m := PeekOp(l, fails, max, PEEK_MAX_BYTES);
      && Inv(m) && m.hist == l.hist && l.cursor.at == m.cursor.at <= l.peek.at <= m.peek.at <= |l.hist|
      && m.acked == l.acked && m.evicted == l.evicted
      && m.handed == |Payloads(l.hist, l.peek.at, m.peek.at)|
      && Carrying(m, l.peek.at, m.peek.at)
      && (Payloads(l.hist, l.peek.at, m.peek.at) == [] ==> Idle(m))
      && Bears(m, Payloads(l.hist, l.peek.at, m.peek.at))
      && IsBatch(m, l.peek.at, m.peek.at, Payloads(l.hist, l.peek.at, m.peek.at))
      && (OnlySent(l0, l, sent) ==> OnlySent(l0, m, sent))
      && (InOrder(from, l, wire) ==> InOrder(from, m, wire))
  {
    hide Tracks, Shape, Whole, Span, GoodIn, Good, Off, Payloads, PeekOp, LongestRun;
    PeekSafe(l, fails, max, PEEK_MAX_BYTES);
    PeekIsLongestRun(l, fails, max, PEEK_MAX_BYTES);
    var m := PeekOp(l, fails, max, PEEK_MAX_BYTES);
    CursorBounds(l);
    CursorBounds(m);
    AckedKnown(l);
    NoGood(l.hist, l.cursor.at, l.peek.at);
    NoGood(l.hist, l.peek.at, m.peek.at);
    PayloadsSplit(l.hist, l.cursor.at, l.peek.at, m.peek.at);
  }

  /** Acknowledging what was sent. */
  lemma AckDelivers(l: Log, n: nat, a: nat, b: nat, l0: Log, sent: set<nat>, from: nat, wire: seq<seq<Byte>>,
                    batch: seq<seq<Byte>>)
    requires Inv(l) && Carrying(l, a, b)
    ensures var m := AckOp(l, n);
      && Inv(m) && Idle(m) && m.evicted == l.evicted
      && (OnlySent(l0, l, sent) ==> OnlySent(l0, m, sent + Indices(a, b)))
      && (InOrder(from, l, wire) && Bears(l, batch) ==> InOrder(from, m, wire + batch))
  {
    hide Tracks, Shape, Whole, Span, GoodIn, Good, Off, Payloads, UnlinkOp, Keeps;
    AckSafe(l, n);
    CursorPlace(l);
    AckFields(l, n);
    var m := AckOp(l, n);
    CursorBounds(l);
    CursorBounds(m);
    AckedKnown(l);
    AckedKnown(m);
    if InOrder(from, l, wire) { PayloadsSplit(l.hist, from, l.cursor.at, l.peek.at); }
  }

  lemma AckFields(l: Log, n: nat)
    requires Inv(l)
    ensures var m := AckOp(l, n);
      && m.hist == l.hist && m.cursor == l.peek && m.peek == l.peek && m.handed == 0
      && m.acked == l.acked + Indices(l.cursor.at, l.peek.at) && m.evicted == l.evicted
  {
  }

  lemma AckCount(l: Log, n: nat)
    requires Inv(l)
    ensures AckOp(l, n).count == Minus(l.count, n)
  {
  }

  lemma SaveResetKeep(l: Log, ok: bool, l0: Log, sent: set<nat>, from: nat, wire: seq<seq<Byte>>)
    requires Inv(l)
    ensures var m := SaveOp(l, ok);
      && Inv(m) && (Idle(l) ==> Idle(m)) && m.evicted == l.evicted
      && (OnlySent(l0, l, sent) ==> OnlySent(l0, m, sent))
      && (InOrder(from, l, wire) ==> InOrder(from, m, wire))
    ensures var m := ResetOp(l);
      && Inv(m) && Idle(m) && m.evicted == l.evicted
      && (OnlySent(l0, l, sent) ==> OnlySent(l0, m, sent))
      && (InOrder(from, l, wire) ==> InOrder(from, m, wire))
  {
    hide Tracks, Shape, Whole, Span, GoodIn, Good, Off, Payloads, Keeps;
    SaveSafe(l, ok);
    ResetSafe(l);
    AckedKnown(l);
    CursorBounds(l);
    CursorBounds(ResetOp(l));
    CursorBounds(SaveOp(l, ok));
  }

  // ------------------------------------------------------------ without eviction

  /** Under `block` and `drop_newest` no push moves the cursor. */
  lemma PushStays(l: Log, cfg: Config, r: Rec, io: PushIo)
    requires Inv(l) && r.good && !cfg.policy.DropOldest?
    ensures PushOp(l, cfg, r, io).0.cursor == l.cursor
  {
    hide Tracks, Shape, Whole, Span, WriteOp;
    if Fits(l, cfg.maxBytes, r) {
      RoomAlready(l, cfg.maxBytes, r, io.evictRoll);
      WriteStays(l, cfg.segBytes, r, 0, io);
    }
  }

  lemma EmptyWire(l: Log)
    requires Inv(l)
    ensures InOrder(l.cursor.at, l, []) && OnlySent(l, l, {}) && Covers(l.cursor.at, l, [], [])
  {
  }

  lemma Passed(l0: Log, l: Log, sent: set<nat>)
    requires Inv(l) && OnlySent(l0, l, sent)
    ensures PassedOnly(l0, l, sent)
  {
    CursorBounds(l);
  }

  // ------------------------------------------------------------- at least once

  /** Where the worker is with its batch. */
  datatype Phase =
    | Resting
    | Carried(a: nat, b: nat)     // peeked
    | Taken(a: nat, b: nat)       // and the sink has taken it

  /** A queue, its worker, every record the sink ever took, and those of a batch of
      which it took only the first and that was acknowledged all the same. */
  datatype World = World(log: Log, phase: Phase, sent: set<nat>, short: set<nat>)

  datatype Move =
    | Queue(op: Op)
    | Send
    | SendShort(end: nat)         // at shutdown: the sink took the records before `end`

  /** The worker peeks with nothing in hand, sends what it peeked, acknowledges what was
      taken, and at shutdown also the rest of a batch of which only the first records
      were, and steps back only from what was not.  Pushes, flushes, rolls and
      evictions come at any time, and so does death, with the next process opening
      the directory. */
  ghost predicate CanMove(w: World, cfg: Config, move: Move)
    requires Inv(w.log)
  {
    match move
    case Send => w.phase.Carried?
    case SendShort(c) => w.phase.Carried? && w.phase.a <= c <= w.phase.b
    case Queue(op) =>
      Enabled(w.log, cfg, op)
      && match op
         case Peek(_, _, budget) => w.phase.Resting? && budget == PEEK_MAX_BYTES
         case Ack(_) => w.phase.Taken?
         case Confirm(_) => w.phase.Taken?
         case Reset => w.phase.Carried?
         case _ => true
  }

  ghost function Moved(w: World, cfg: Config, move: Move): World
    requires Inv(w.log) && CanMove(w, cfg, move)
  {
    match move
    case Send => w.(phase := Taken(w.phase.a, w.phase.b), sent := w.sent + Indices(w.phase.a, w.phase.b))
    case SendShort(c) =>
      w.(phase := Taken(w.phase.a, w.phase.b), sent := w.sent + Indices(w.phase.a, c),
         short := w.short + Indices(c, w.phase.b))
    case Queue(op) =>
      var m := Next(w.log, cfg, op);
      var phase := match op
        case Peek(_, _, _) => if m.handed == 0 then Resting else Carried(w.log.peek.at, m.peek.at)
        case Ack(_) => Resting
        case Confirm(_) => Resting
        case Reset => Resting
        case Crash(_) => Resting
        case _ => w.phase;
      w.(log := m, phase := phase)
  }

  /** What was acknowledged since `l0` was sent or fell short, and what is in hand is known. */
  ghost predicate Delivering(l0: Log, w: World) {
    && Inv(w.log) && OnlySent(l0, w.log, w.sent + w.short)
    && match w.phase
       case Resting => Idle(w.log)
       case Carried(a, b) => Carrying(w.log, a, b)
       case Taken(a, b) => Carrying(w.log, a, b) && Indices(a, b) <= w.sent + w.short
  }

  lemma MoveSafe(w: World, cfg: Config, move: Move)
    requires Inv(w.log) && CanMove(w, cfg, move)
    ensures Inv(Moved(w, cfg, move).log) && Keeps(w.log, Moved(w, cfg, move).log)
  {
    hide Tracks, Shape, Span, Whole, Next, Enabled, Keeps;
    match move
    case Send => SelfSafe(w.log);
    case SendShort(_) => SelfSafe(w.log);
    case Queue(op) => StepSafe(w.log, cfg, op);
  }

  ghost predicate Moves(w: World, cfg: Config, moves: seq<Move>)
    requires Inv(w.log)
    decreases |moves|
  {
    moves == []
    || (CanMove(w, cfg, moves[0])
        && (MoveSafe(w, cfg, moves[0]); Moves(Moved(w, cfg, moves[0]), cfg, moves[1..])))
  }

  ghost function WorldAfter(w: World, cfg: Config, moves: seq<Move>): (v: World)
    requires Inv(w.log) && Moves(w, cfg, moves)
    ensures Inv(v.log)
    decreases |moves|
  {
    if moves == [] then w
    else
      MoveSafe(w, cfg, moves[0]);
      WorldAfter(Moved(w, cfg, moves[0]), cfg, moves[1..])
  }

  /** Sending acknowledges nothing. */
  lemma SentGrows(l0: Log, l: Log, sent: set<nat>, more: set<nat>)
    requires Inv(l) && OnlySent(l0, l, sent)
    ensures OnlySent(l0, l, sent + more)
  {
    hide Inv;
  }

  /** A step that acknowledges nothing. */
  lemma KeepsSent(l0: Log, l: Log, m: Log, sent: set<nat>)
    requires Inv(l) && Inv(m) && Keeps(l, m) && m.acked == l.acked && OnlySent(l0, l, sent)
    ensures OnlySent(l0, m, sent)
  {
    hide Tracks, Shape, Whole, Span, GoodIn, Good, Off;
    AckedKnown(l);
    AckedKnown(m);
    assert forall i :: 0 <= i < Durable(l) ==> m.hist[i] == m.hist[..Durable(l)][i] == l.hist[i];
  }

  /** A step that leaves cursor and peek where they are. */
  lemma KeepsHand(l: Log, m: Log)
    requires Inv(l) && Inv(m) && Keeps(l, m) && m.cursor.at == l.cursor.at && m.peek.at == l.peek.at
    requires m.handed == l.handed
    ensures Idle(l) ==> Idle(m)
    ensures forall a, b :: Carrying(l, a, b) ==> Carrying(m, a, b)
  {
    hide Tracks, Shape, Whole, Span, GoodIn, Good, Off;
    CursorBounds(l);
    CursorBounds(m);
    assert forall i :: 0 <= i < Durable(l) ==> m.hist[i] == m.hist[..Durable(l)][i] == l.hist[i];
  }

  /** A step of the pushing side. */
  lemma SlidesDelivers(l0: Log, w: World, m: Log)
    requires Delivering(l0, w) && Inv(m) && Slides(w.log, m)
    ensures Delivering(l0, w.(log := m))
  {
    hide Tracks, Shape, Slides, OnlySent, Idle, Carrying, Inv;
    SlidesKeeps(l0, w.log, m, w.sent + w.short);
    match w.phase
    case Resting =>
    case Carried(a, b) => SlidesCarries(w.log, m, a, b);
    case Taken(a, b) => SlidesCarries(w.log, m, a, b);
  }

  /** A step that moves neither cursor nor peek. */
  lemma StillDelivers(l0: Log, w: World, m: Log)
    requires Delivering(l0, w) && Inv(m) && Keeps(w.log, m) && m.acked == w.log.acked
    requires m.cursor.at == w.log.cursor.at && m.peek.at == w.log.peek.at && m.handed == w.log.handed
    ensures Delivering(l0, w.(log := m))
  {
    hide Tracks, Shape, OnlySent, Idle, Carrying, Inv, Keeps;
    KeepsSent(l0, w.log, m, w.sent + w.short);
    KeepsHand(w.log, m);
  }

  lemma PeekDelivers(l0: Log, w: World, cfg: Config, fails: Option<nat>, max: nat)
    requires Delivering(l0, w) && CanMove(w, cfg, Queue(Peek(fails, max, PEEK_MAX_BYTES)))
    ensures Delivering(l0, Moved(w, cfg, Queue(Peek(fails, max, PEEK_MAX_BYTES))))
  {
    hide Tracks, Shape, OnlySent, Idle, Carrying, Inv, PeekOp, Payloads;
    PeekCarries(w.log, fails, max, l0, w.sent + w.short, 0, []);
  }

  lemma ConfirmDelivers(l0: Log, w: World, n: nat)
    requires Delivering(l0, w) && w.phase.Taken?
    ensures Inv(ConfirmOp(w.log, n))
    ensures Delivering(l0, w.(log := ConfirmOp(w.log, n), phase := Resting))
  {
    hide Tracks, Shape, Whole, Span, GoodIn, Good, Off;
    var l, m := w.log, ConfirmOp(w.log, n);
    ConfirmSafe(l, n);
    CursorBounds(l);
    CursorBounds(m);
    AckedKnown(l);
    AckedKnown(m);
  }

  lemma AckDeliversAll(l0: Log, w: World, n: nat)
    requires Delivering(l0, w) && w.phase.Taken?
    ensures Inv(AckOp(w.log, n))
    ensures Delivering(l0, w.(log := AckOp(w.log, n), phase := Resting))
  {
    hide Tracks, Shape, OnlySent, Idle, Carrying, Inv, AckOp;
    var a, b := w.phase.a, w.phase.b;
    AckDelivers(w.log, n, a, b, l0, w.sent + w.short, 0, [], []);
    assert w.sent + w.short + Indices(a, b) == w.sent + w.short;
  }

  lemma CrashDelivers(l0: Log, w: World, k: nat)
    requires Delivering(l0, w) && w.log.flushed <= k <= WriteOff(w.log)
    ensures Inv(CrashOp(w.log, k)) && Delivering(l0, w.(log := CrashOp(w.log, k), phase := Resting))
  {
    hide Tracks, Shape, Whole, Span, GoodIn, Good, Off, Keeps, OnlySent;
    CrashSafe(w.log, k);
    CursorBounds(CrashOp(w.log, k));
    KeepsSent(l0, w.log, CrashOp(w.log, k), w.sent + w.short);
  }

  lemma ResetDelivers(l0: Log, w: World)
    requires Delivering(l0, w)
    ensures Inv(ResetOp(w.log)) && Delivering(l0, w.(log := ResetOp(w.log), phase := Resting))
  {
    hide Tracks, Shape, OnlySent, Idle, Carrying, Inv, ResetOp;
    SaveResetKeep(w.log, true, l0, w.sent + w.short, 0, []);
  }

  lemma UnlinkDelivers(l0: Log, w: World, upto: nat)
    requires Delivering(l0, w) && w.log.first <= upto <= w.log.cursor.seg
    ensures Inv(ClampUnlink(w.log, upto)) && Delivering(l0, w.(log := ClampUnlink(w.log, upto)))
  {
    CursorPlace(w.log);
    hide Tracks, Shape, OnlySent, Idle, Carrying, Keeps;
    UnlinkSafe(w.log, upto);
    StillDelivers(l0, w, ClampUnlink(w.log, upto));
  }

  lemma MoveDelivers(l0: Log, w: World, cfg: Config, move: Move)
    requires Delivering(l0, w) && CanMove(w, cfg, move)
    ensures Delivering(l0, Moved(w, cfg, move))
    ensures w.sent <= Moved(w, cfg, move).sent
  {
    hide Tracks, Shape, Span, Whole, PushOp, StoreOp, TryRoll, EvictOp, PeekOp, ConfirmOp, AckOp, CrashOp, ResetOp,
      ClampUnlink, Keeps, Slides, OnlySent, Idle, Carrying;
    var l := w.log;
    match move
    case Send =>
      SentGrows(l0, l, w.sent + w.short, Indices(w.phase.a, w.phase.b));
      assert w.sent + Indices(w.phase.a, w.phase.b) + w.short == w.sent + w.short + Indices(w.phase.a, w.phase.b);
    case SendShort(c) =>
      var a, b := w.phase.a, w.phase.b;
      SentGrows(l0, l, w.sent + w.short, Indices(a, b));
      assert Indices(a, b) == Indices(a, c) + Indices(c, b);
      assert (w.sent + Indices(a, c)) + (w.short + Indices(c, b)) == w.sent + w.short + Indices(a, b);
    case Queue(op) =>
      StepSafe(l, cfg, op);
      var m := Next(l, cfg, op);
      match op
      case Push(r, io) => PushSlides(l, cfg, r, io); SlidesDelivers(l0, w, m);
      case Store(r, spill) => StoreSlides(l, r, spill); SlidesDelivers(l0, w, m);
      case Roll(io) => TryRollSlides(l, io); SlidesDelivers(l0, w, m);
      case Evict => EvictSlides(l); SlidesDelivers(l0, w, m);
      case Flush(k) => FlushSlides(l, k); SlidesDelivers(l0, w, m);
      case Peek(fails, max, budget) => PeekDelivers(l0, w, cfg, fails, max);
      case Ack(n) => AckDeliversAll(l0, w, n);
      case Confirm(n) => ConfirmDelivers(l0, w, n);
      case Unlink(upto) => UnlinkDelivers(l0, w, upto);
      case Save(ok) => StillDelivers(l0, w, m);
      case Reset => ResetDelivers(l0, w);
      case Crash(k) => CrashDelivers(l0, w, k);
  }

  lemma {:induction false} RunDelivers(l0: Log, w: World, cfg: Config, moves: seq<Move>)
    requires Delivering(l0, w) && Moves(w, cfg, moves)
    ensures var v := WorldAfter(w, cfg, moves); Delivering(l0, v) && Keeps(w.log, v.log) && w.sent <= v.sent
    decreases |moves|
  {
    hide Tracks, Shape, Span, Whole, Moved, CanMove, Keeps, OnlySent, Idle, Carrying;
    if moves == [] {
      SelfSafe(w.log);
    } else {
      MoveSafe(w, cfg, moves[0]);
      MoveDelivers(l0, w, cfg, moves[0]);
      var m := Moved(w, cfg, moves[0]);
      RunDelivers(l0, m, cfg, moves[1..]);
      KeepsTrans(w.log, m.log, WorldAfter(m, cfg, moves[1..]).log);
    }
  }

  /** No answer of the sink falls short of the batch. */
  ghost predicate NoneShort(w: World, cfg: Config, moves: seq<Move>)
    requires Inv(w.log) && Moves(w, cfg, moves)
    decreases |moves|
  {
    moves == []
    || (MoveSafe(w, cfg, moves[0]);
        (moves[0].SendShort? ==> moves[0].end == w.phase.b)
        && NoneShort(Moved(w, cfg, moves[0]), cfg, moves[1..]))
  }

  lemma MoveShort(w: World, cfg: Config, move: Move)
    requires Inv(w.log) && CanMove(w, cfg, move)
    ensures w.short <= Moved(w, cfg, move).short
    ensures (Moved(w, cfg, move).short == {}
             <==> w.short == {} && (move.SendShort? ==> move.end == w.phase.b))
  {
    hide Inv, Next, Enabled;
    if move.SendShort? && move.end < w.phase.b {
      assert move.end in Indices(move.end, w.phase.b);
    }
  }

  lemma {:induction false} RunShort(w: World, cfg: Config, moves: seq<Move>)
    requires Inv(w.log) && Moves(w, cfg, moves)
    ensures WorldAfter(w, cfg, moves).short == {} <==> w.short == {} && NoneShort(w, cfg, moves)
    decreases |moves|
  {
    hide Inv, Moved, CanMove;
    if moves != [] {
      MoveSafe(w, cfg, moves[0]);
      MoveShort(w, cfg, moves[0]);
      RunShort(Moved(w, cfg, moves[0]), cfg, moves[1..]);
    }
  }

  ghost function Began(l: Log): World {
    World(l, Resting, {}, {})
  }

  /** At least once: from a queue with nothing in flight, through any number of
      processes dying anywhere and opened again, any pushes, failed writes, sends,
      acks and resets, each good record that is whole on disk at any time stays; and
      at the end it was taken by the sink, was evicted, had been acknowledged before
      the start, or is still ahead of the cursor in a segment the queue has, or else
      it is among those a shutdown acknowledged for a sink that had answered short;
      and of those there are none exactly if no answer was short. */
  lemma AtLeastOnce(l0: Log, cfg: Config, before: seq<Move>, moves: seq<Move>, i: nat)
    requires Inv(l0) && Idle(l0) && Moves(Began(l0), cfg, before)
    requires var w := WorldAfter(Began(l0), cfg, before);
      Moves(w, cfg, moves) && i < Durable(w.log) && i < |w.log.hist| && w.log.hist[i].good
    ensures var w := WorldAfter(Began(l0), cfg, before);
      var v := WorldAfter(w, cfg, moves);
      && i < |v.log.hist| && v.log.hist[i] == w.log.hist[i]
      && (i in v.sent || i in v.short || i in v.log.evicted || i in l0.acked
          || (v.log.cursor.at <= i && Retained(v.log, i)))
      && (v.short == {} <==> NoneShort(Began(l0), cfg, before) && NoneShort(w, cfg, moves))
  {
    hide Tracks, Shape, Span, Whole, Moves, WorldAfter, Idle, Carrying, GoodIn, NoneShort;
    var w0 := Began(l0);
    AckedKnown(l0);
    RunDelivers(l0, w0, cfg, before);
    RunShort(w0, cfg, before);
    var w := WorldAfter(w0, cfg, before);
    RunDelivers(l0, w, cfg, moves);
    RunShort(w, cfg, moves);
    var v := WorldAfter(w, cfg, moves);
    SamePrefix(w.log, v.log, i + 1);
    assert v.log.hist[i] == v.log.hist[..i + 1][i] == w.log.hist[..i + 1][i];
    CursorBounds(v.log);
    CursorInside(v.log);
    FateOf(v.log, i);
  }

  lemma NoMoves(w: World, cfg: Config)
    requires Inv(w.log)
    ensures Moves(w, cfg, []) && WorldAfter(w, cfg, []) == w
  {
    hide Inv;
  }

  lemma OneMove(w: World, cfg: Config, move: Move, rest: seq<Move>)
    requires Inv(w.log) && CanMove(w, cfg, move) && Inv(Moved(w, cfg, move).log)
    requires Moves(Moved(w, cfg, move), cfg, rest)
    ensures Moves(w, cfg, [move] + rest)
    ensures WorldAfter(w, cfg, [move] + rest) == WorldAfter(Moved(w, cfg, move), cfg, rest)
  {
    hide Inv, CanMove, Moved;
    assert ([move] + rest)[1..] == rest;
  }

  /** And one such answer does lose a record: a sink that at shutdown takes nothing of
      a batch of one and says so has it acknowledged, neither sent nor evicted, and
      the count is left above what is unread. */
  lemma ShortAnswerLoses(r: Rec, cfg: Config) returns (l0: Log)
    requires r.good
    ensures Inv(l0) && Idle(l0) && l0.hist == [r] && l0.acked == {} && Durable(l0) == 1
    ensures var moves := [Queue(Peek(None, 1, PEEK_MAX_BYTES)), SendShort(0), Queue(Ack(0))];
      && Moves(Began(l0), cfg, moves)
      && var v := WorldAfter(Began(l0), cfg, moves);
      && v.sent == {} && v.log.evicted == {} && v.log.acked == {0} && v.log.cursor.at == 1
      && v.log.count == 1 && |v.log.hist| == 1 && Unread(v.log) == 0
  {
    hide Moves, WorldAfter, Moved, CanMove, PeekOp, AckOp, Inv, Idle, Durable;
    l0 := OneUnread(r);
    var w0 := Began(l0);
    var p := PeekOp(l0, None, 1, PEEK_MAX_BYTES);
    PeeksOne(l0, r);
    var peek, part, ack := Queue(Peek(None, 1, PEEK_MAX_BYTES)), SendShort(0), Queue(Ack(0));
    var w1 := World(p, Carried(0, 1), {}, {});
    var w2 := World(p, Taken(0, 1), {}, {0});
    var w3 := World(AckOp(p, 0), Resting, {}, {0});
    LosingMoves(w0, w1, w2, w3, cfg);
    NoMoves(w3, cfg);
    assert [ack] + [] == [ack];
    OneMove(w2, cfg, ack, []);
    OneMove(w1, cfg, part, [ack]);
    OneMove(w0, cfg, peek, [part] + [ack]);
    assert [peek] + ([part] + [ack]) == [peek, part, ack];
    AckFields(p, 0);
    AckCount(p, 0);
    assert Indices(0, 1) == {0};
    SpanZero([r], 1, 1);
  }

  lemma OneUnread(r: Rec) returns (l: Log)
    requires r.good
    ensures Inv(l) && Idle(l) && Durable(l) == 1
    ensures l.hist == [r] && l.acked == l.evicted == {} && l.count == 1
    ensures l.cursor.at == l.peek.at == l.handed == 0
  {
    hide Whole;
    l := Log([r], 0, [0], SizeOf(r), false, Pos(0, 0), Pos(0, 0), Pos(0, 0), None, 1, 0, {}, {}, 0, 0, 0);
    assert Off(l.hist, 1) == SizeOf(r) && Good(l.hist, 1) == 1;
    WholeAll(l.hist, 0);
  }

  lemma PeeksOne(l: Log, r: Rec)
    requires Inv(l) && Durable(l) == 1 && l.hist == [r] && r.good && l.cursor.at == l.peek.at == l.handed == 0
    ensures var p := PeekOp(l, None, 1, PEEK_MAX_BYTES);
      && Inv(p) && p.peek.at == p.handed == 1
      && p == l.(flushed := p.flushed, peek := p.peek, handed := p.handed)
  {
    hide Tracks, Shape, Whole, PeekOp, LongestRun;
    PeekSafe(l, None, 1, PEEK_MAX_BYTES);
    PeekIsLongestRun(l, None, 1, PEEK_MAX_BYTES);
    assert Good(l.hist, 1) == 1 && Good(l.hist, 0) == 0;
  }

  lemma LosingMoves(w0: World, w1: World, w2: World, w3: World, cfg: Config)
    requires Inv(w0.log) && Inv(w1.log) && w1.log == PeekOp(w0.log, None, 1, PEEK_MAX_BYTES)
    requires w0.log.peek.at == 0 && w1.log.peek.at == w1.log.handed == 1
    requires w0 == Began(w0.log) && w1 == World(w1.log, Carried(0, 1), {}, {})
    requires w2 == World(w1.log, Taken(0, 1), {}, {0}) && w3 == World(AckOp(w1.log, 0), Resting, {}, {0})
    ensures var peek := Queue(Peek(None, 1, PEEK_MAX_BYTES)); CanMove(w0, cfg, peek) && Moved(w0, cfg, peek) == w1
    ensures CanMove(w1, cfg, SendShort(0)) && Moved(w1, cfg, SendShort(0)) == w2
    ensures CanMove(w2, cfg, Queue(Ack(0))) && Moved(w2, cfg, Queue(Ack(0))) == w3 && Inv(w3.log)
  {
    hide Inv, PeekOp, AckOp;
    assert Indices(0, 0) == {} && Indices(0, 1) == {0};
    AckSafe(w1.log, 0);
  }

  /** The record is in a segment the queue still has. */
  predicate Retained(l: Log, i: nat) {
    |l.starts| > 0 && l.starts[0] <= i
  }

  lemma FateOf(l: Log, i: nat)
    requires Inv(l) && i < |l.hist|
    ensures i in l.acked || i in l.evicted || (l.cursor.at <= i && Retained(l, i))
  {
    hide Span, Whole;
  }
}
