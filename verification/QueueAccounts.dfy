/** The counters of a queue over whole runs: what is counted as acknowledged,
    evicted and still queued, and exactly when `count` is right. */
module QueueAccounts {
  import opened Naturals
  import opened Options
  import opened Records
  import opened QueueLog
  import opened QueuePush
  import opened QueuePeek
  import opened QueueRuns

  ghost predicate CountExact(l: Log)
    requires Inv(l)
  {
    CursorInside(l);
    l.count == Unread(l)
  }

  /** The count is no more than what is unread. */
  ghost predicate CountWithin(l: Log)
    requires Inv(l)
  {
    CursorInside(l);
    l.count <= Unread(l)
  }

  ghost predicate FlightExact(l: Log)
    requires Inv(l)
  {
    HandedCovers(l);
    l.handed == InFlight(l)
  }

  /** What a push can do to the reader: nothing but discard from the front. */
  ghost predicate Slides(l: Log, m: Log)
    requires Inv(l) && Inv(m)
  {
    CursorBounds(l);
    CursorBounds(m);
    && Keeps(l, m)
    && l.cursor.at <= m.cursor.at
    && (if m.cursor.at <= l.peek.at then m.peek.at == l.peek.at else m.peek.at == m.cursor.at)
    && m.handed == l.handed && m.acked == l.acked && m.ackedGood == l.ackedGood
    && m.saved == l.saved && m.saving == l.saving
    && m.evicted == l.evicted + Indices(l.cursor.at, m.cursor.at)
    && m.evictedGood == l.evictedGood + GoodIn(m.hist, l.cursor.at, m.cursor.at)
    && (CountExact(l) ==> CountExact(m))
    && (CountWithin(l) ==> CountWithin(m))
  }

  lemma SlidesTrans(l: Log, m: Log, n: Log)
    requires Inv(l) && Inv(m) && Inv(n) && Slides(l, m) && Slides(m, n)
    ensures Slides(l, n)
  {
    hide Off, Good, Whole, Span, GoodIn, Tracks, Shape, CountExact, CountWithin, Keeps;
    KeepsTrans(l, m, n);
    CursorBounds(l);
    CursorBounds(m);
    CursorBounds(n);
    assert Indices(l.cursor.at, n.cursor.at)
        == Indices(l.cursor.at, m.cursor.at) + Indices(m.cursor.at, n.cursor.at);
    SamePrefix(m, n, m.cursor.at);
    SpanSame(m.hist, n.hist, l.cursor.at, m.cursor.at);
    SpanAdd(n.hist, l.cursor.at, m.cursor.at, n.cursor.at);
  }

  lemma SamePrefix(l: Log, m: Log, i: nat)
    requires Shape(l) && Shape(m) && Keeps(l, m) && i <= Durable(l)
    ensures i <= |l.hist| && i <= |m.hist| && m.hist[..i] == l.hist[..i]
  {
    assert m.hist[..i] == m.hist[..Durable(l)][..i];
    assert l.hist[..i] == l.hist[..Durable(l)][..i];
  }

  lemma TrimsSlides(l: Log, m: Log)
    requires Inv(l) && Inv(m) && Trims(l, m) && Keeps(l, m)
    ensures Slides(l, m)
  {
    hide Off, Good, Whole, Span, GoodIn, Tracks, Shape, Keeps;
    CursorBounds(l);
    CursorBounds(m);
    SpanAdd(l.hist, l.cursor.at, m.cursor.at, |l.hist|);
  }

  lemma StillSlides(l: Log, m: Log)
    requires Inv(l) && Inv(m) && Still(l, m) && Keeps(l, m)
    requires CountExact(l) ==> CountExact(m)
    requires CountWithin(l) ==> CountWithin(m)
    ensures Slides(l, m)
  {
    hide Off, Good, Whole, Span, GoodIn, Tracks, Shape, Keeps, CountExact, CountWithin;
    CursorBounds(l);
    CursorBounds(m);
    assert Indices(l.cursor.at, l.cursor.at) == {};
    SpanZero(m.hist, l.cursor.at, l.cursor.at);
  }

  lemma LoseTailSlides(l: Log, k: nat)
    requires Inv(l) && l.flushed <= k
    ensures Inv(LoseTail(l, k)) && Slides(l, LoseTail(l, k))
  {
    hide Off, Good, Whole, Span, GoodIn, Tracks, Keeps;
    LoseTailSafe(l, k);
    var m := LoseTail(l, k);
    CursorBounds(l);
    CursorBounds(m);
    SpanAdd(l.hist, l.cursor.at, |m.hist|, |l.hist|);
    assert m.hist[..|m.hist|] == l.hist[..|m.hist|];
    SpanSame(l.hist, m.hist, l.cursor.at, |m.hist|);
    StillSlides(l, m);
  }

  lemma TryRollSlides(l: Log, io: RollIo)
    requires Inv(l)
    ensures Inv(TryRoll(l, io).0) && Slides(l, TryRoll(l, io).0)
  {
    hide Off, Good, Whole, Span, GoodIn, Tracks, Keeps, LoseTail, Slides;
    TryRollSafe(l, io);
    if l.writerOpen && l.flushed < WriteOff(l) && io.FlushFails? {
      LoseTailSlides(l, l.flushed + Partial(io.extra, WriteOff(l) - l.flushed));
    } else {
      StillSlides(l, TryRoll(l, io).0);
    }
  }

  lemma StoreSlides(l: Log, r: Rec, spill: nat)
    requires Inv(l) && r.good
    ensures Inv(StoreOp(l, r, spill)) && Slides(l, StoreOp(l, r, spill))
  {
    hide Off, Good, Whole, Span, GoodIn, Tracks, Keeps, Slides;
    StoreSafe(l, r, spill);
    CursorBounds(l);
    StillSlides(l, StoreOp(l, r, spill));
  }

  lemma WriteSlides(l: Log, segBytes: nat, r: Rec, evicted: nat, io: PushIo)
    requires Inv(l) && r.good
    ensures Inv(WriteOp(l, segBytes, r, evicted, io).0)
    ensures Slides(l, WriteOp(l, segBytes, r, evicted, io).0)
  {
    hide Tracks, TryRoll, LoseTail, StoreOp, Slides, Span, Whole, Keeps;
    WriteSafe(l, segBytes, r, evicted, io);
    SelfSlides(l);
    if l.writerOpen || io.canOpen {
      match io.write
      case WriteFails(extra) =>
        var k := l.flushed + Partial(extra, WriteOff(l) - l.flushed + SizeOf(r));
        LoseTailSlides(l, k);
        TryRollSlides(LoseTail(l, k), io.roll);
        SlidesTrans(l, LoseTail(l, k), TryRoll(LoseTail(l, k), io.roll).0);
      case Wrote(spill) =>
        StoreSlides(l, r, spill);
        TryRollSlides(StoreOp(l, r, spill), io.roll);
        SlidesTrans(l, StoreOp(l, r, spill), TryRoll(StoreOp(l, r, spill), io.roll).0);
    }
  }

  lemma SelfSlides(l: Log)
    requires Inv(l)
    ensures Slides(l, l)
  {
    hide Slides;
    SelfSafe(l);
    StillSlides(l, l);
  }

  lemma {:induction false} RoomSlides(l: Log, maxBytes: nat, need: nat, io: RollIo)
    requires Inv(l) && need <= maxBytes
    ensures Slides(l, MakeRoom(l, maxBytes, need, io).0)
    decreases Held(l), |l.starts|
  {
    hide Tracks, Span, DropSegment, Slides, Keeps, Whole;
    SelfSlides(l);
    if Held(l) + need > maxBytes {
      DropSegmentSlides(l, io);
      var (m, n, ok) := DropSegment(l, io);
      if ok {
        DropSegmentProgress(l, io);
        RoomSlides(m, maxBytes, need, io);
        SlidesTrans(l, m, MakeRoom(m, maxBytes, need, io).0);
      }
    }
  }

  lemma DropSegmentSlides(l: Log, io: RollIo)
    requires Inv(l)
    ensures Slides(l, DropSegment(l, io).0)
  {
    hide Tracks, Span, Slides, Keeps, Whole, Trims;
    DropSegmentSafe(l, io);
    if DropSegment(l, io).2 {
      TrimsSlides(l, DropSegment(l, io).0);
    } else {
      TryRollSlides(l, io);
    }
  }

  /** Whatever a push comes to, it moves the reader only past what it evicted. */
  lemma PushSlides(l: Log, cfg: Config, r: Rec, io: PushIo)
    requires Inv(l) && r.good
    requires cfg.policy.DropOldest? ==> SizeOf(r) <= cfg.maxBytes
    ensures Inv(PushOp(l, cfg, r, io).0) && Slides(l, PushOp(l, cfg, r, io).0)
  {
    hide Tracks, WriteOp, MakeRoom, Keeps, Span, Whole, Slides;
    PushSafe(l, cfg, r, io);
    if Fits(l, cfg.maxBytes, r) || cfg.policy.DropOldest? {
      RoomSlides(l, cfg.maxBytes, SizeOf(r), io.evictRoll);
      var (m, n, ok) := MakeRoom(l, cfg.maxBytes, SizeOf(r), io.evictRoll);
      if ok {
        WriteSlides(m, cfg.segBytes, r, n, io);
        SlidesTrans(l, m, WriteOp(m, cfg.segBytes, r, n, io).0);
      }
    } else {
      StillSlides(l, PushOp(l, cfg, r, io).0);
    }
  }

  // ------------------------------------------- every record leaves exactly once

  /** From `l` to `m` the cursor passed the records of `acked`, confirmed, and those
      of `evicted`, discarded; each of them once, and all of them counted. */
  ghost predicate Leaves(l: Log, m: Log, acked: set<nat>, evicted: set<nat>)
    requires Inv(l) && Inv(m)
  {
    CursorBounds(l);
    CursorBounds(m);
    && Keeps(l, m)
    && l.cursor.at <= m.cursor.at
    && m.acked == l.acked + acked && m.evicted == l.evicted + evicted
    && acked !! evicted && acked + evicted == Indices(l.cursor.at, m.cursor.at)
    && m.ackedGood + m.evictedGood == l.ackedGood + l.evictedGood + GoodIn(m.hist, l.cursor.at, m.cursor.at)
  }

  lemma LeavesTrans(l: Log, m: Log, n: Log, acked: set<nat>, evicted: set<nat>, acked': set<nat>, evicted': set<nat>)
    requires Inv(l) && Inv(m) && Inv(n) && Leaves(l, m, acked, evicted) && Leaves(m, n, acked', evicted')
    ensures Leaves(l, n, acked + acked', evicted + evicted')
  {
    hide Off, Good, Whole, Span, GoodIn, Tracks, Shape, Keeps;
    KeepsTrans(l, m, n);
    CursorBounds(l);
    CursorBounds(m);
    CursorBounds(n);
    TwoRanges(acked, evicted, acked', evicted', l.cursor.at, m.cursor.at, n.cursor.at);
    SamePrefix(m, n, m.cursor.at);
    SpanSame(m.hist, n.hist, l.cursor.at, m.cursor.at);
    SpanAdd(n.hist, l.cursor.at, m.cursor.at, n.cursor.at);
  }

  lemma TwoRanges(a: set<nat>, e: set<nat>, a': set<nat>, e': set<nat>, i: nat, j: nat, k: nat)
    requires i <= j <= k && a !! e && a' !! e' && a + e == Indices(i, j) && a' + e' == Indices(j, k)
    ensures a + a' !! e + e' && (a + a') + (e + e') == Indices(i, k)
  {
    assert forall x :: x in a + e <==> i <= x < j;
    assert forall x :: x in a' + e' <==> j <= x < k;
  }

  lemma SlidesLeaves(l: Log, m: Log)
    requires Inv(l) && Inv(m) && Slides(l, m)
    ensures l.cursor.at <= m.cursor.at && Leaves(l, m, {}, Indices(l.cursor.at, m.cursor.at))
  {
    hide Off, Good, Whole, Span, GoodIn, Tracks, Shape, Keeps, CountExact;
    CursorBounds(l);
    CursorBounds(m);
  }

  lemma StillLeaves(l: Log, m: Log)
    requires Inv(l) && Inv(m) && Keeps(l, m)
    requires m.cursor == l.cursor && m.acked == l.acked && m.evicted == l.evicted
    requires m.ackedGood == l.ackedGood && m.evictedGood == l.evictedGood
    ensures Leaves(l, m, {}, {})
  {
    hide Off, Good, Whole, Span, GoodIn, Tracks, Shape, Keeps;
    CursorBounds(l);
    CursorBounds(m);
    assert Indices(l.cursor.at, l.cursor.at) == {};
    SpanZero(m.hist, l.cursor.at, l.cursor.at);
  }

  lemma ConfirmLeaves(l: Log, n: nat)
    requires Inv(l) && Inv(ConfirmOp(l, n)) && Keeps(l, ConfirmOp(l, n)) && l.cursor.at <= l.peek.at
    ensures Leaves(l, ConfirmOp(l, n), Indices(l.cursor.at, l.peek.at), {})
  {
    hide Off, Good, Whole, Span, GoodIn, Tracks, Shape, Keeps;
    CursorBounds(l);
    CursorBounds(ConfirmOp(l, n));
  }

  lemma AckLeaves(l: Log, n: nat)
    requires Inv(l) && Inv(AckOp(l, n)) && l.cursor.at <= l.peek.at
    ensures Leaves(l, AckOp(l, n), Indices(l.cursor.at, l.peek.at), {})
  {
    CursorPlace(l);
    hide Tracks, Span, Whole, GoodIn, Keeps, UnlinkOp, ConfirmOp, Leaves, Shape;
    var c := ConfirmOp(l, n);
    var ids := Indices(l.cursor.at, l.peek.at);
    ConfirmSafe(l, n);
    ConfirmLeaves(l, n);
    UnlinkLeaves(c, l.peek.seg);
    LeavesTrans(l, c, AckOp(l, n), ids, {}, {}, {});
    assert ids + {} == ids;
  }

  lemma UnlinkLeaves(l: Log, upto: nat)
    requires Inv(l) && l.first <= upto <= l.cursor.seg
    ensures Inv(ClampUnlink(l, upto)) && Leaves(l, ClampUnlink(l, upto), {}, {})
  {
    CursorPlace(l);
    hide Tracks, Span, Whole, GoodIn, Keeps, Leaves;
    UnlinkSafe(l, upto);
    StillLeaves(l, UnlinkOp(l, upto));
  }

  lemma StepLeaves(l: Log, cfg: Config, op: Op) returns (acked: set<nat>, evicted: set<nat>)
    requires Inv(l) && Enabled(l, cfg, op) && !op.Crash?
    ensures Inv(Next(l, cfg, op)) && Leaves(l, Next(l, cfg, op), acked, evicted)
  {
    StepSafe(l, cfg, op);
    hide Tracks, Shape, Span, Whole, PushOp, StoreOp, TryRoll, EvictOp, PeekOp, ConfirmOp, UnlinkOp, AckOp, Keeps,
      Leaves, Slides, GoodIn, Indices;
    HandedCovers(l);
    var m := Next(l, cfg, op);
    acked, evicted := {}, {};
    match op
    case Push(r, io) => PushSlides(l, cfg, r, io); SlidesLeaves(l, m); evicted := Indices(l.cursor.at, m.cursor.at);
    case Store(r, spill) => StoreSlides(l, r, spill); SlidesLeaves(l, m); evicted := Indices(l.cursor.at, m.cursor.at);
    case Flush(k) => StillLeaves(l, m);
    case Roll(io) => TryRollSlides(l, io); SlidesLeaves(l, m); evicted := Indices(l.cursor.at, m.cursor.at);
    case Evict => EvictSlides(l); SlidesLeaves(l, m); evicted := Indices(l.cursor.at, m.cursor.at);
    case Peek(fails, max, budget) => PeekIsLongestRun(l, fails, max, budget); StillLeaves(l, m);
    case Ack(n) => AckLeaves(l, n); acked := Indices(l.cursor.at, l.peek.at);
    case Confirm(n) => ConfirmLeaves(l, n); acked := Indices(l.cursor.at, l.peek.at);
    case Unlink(upto) => UnlinkLeaves(l, upto);
    case Save(ok) => StillLeaves(l, m);
    case Reset => StillLeaves(l, m);
  }

  ghost predicate CrashFree(ops: seq<Op>) {
    forall i :: 0 <= i < |ops| ==> !ops[i].Crash?
  }

  lemma {:induction false} RunLeaves(l: Log, cfg: Config, ops: seq<Op>) returns (acked: set<nat>, evicted: set<nat>)
    requires Inv(l) && Runs(l, cfg, ops) && CrashFree(ops)
    ensures Leaves(l, After(l, cfg, ops), acked, evicted)
    decreases |ops|
  {
    hide Tracks, Shape, Span, Whole, Next, Enabled, Keeps, Leaves;
    if ops == [] {
      acked, evicted := {}, {};
      SelfSafe(l);
      StillLeaves(l, l);
    } else {
      StepSafe(l, cfg, ops[0]);
      var m := Next(l, cfg, ops[0]);
      var a, e := StepLeaves(l, cfg, ops[0]);
      var a', e' := RunLeaves(m, cfg, ops[1..]);
      acked, evicted := a + a', e + e';
      LeavesTrans(l, m, After(m, cfg, ops[1..]), a, e, a', e');
    }
  }

  /** Conservation, for as long as one process has the queue open, from whatever it
      found: every record that was unread then, or was stored since, is unread now,
      was acknowledged or was evicted, exactly one of the three, and the counters
      have grown by what left. */
  lemma EveryRecordLeavesOnce(l: Log, cfg: Config, ops: seq<Op>) returns (acked: set<nat>, evicted: set<nat>)
    requires Inv(l) && Runs(l, cfg, ops) && CrashFree(ops)
    ensures var m := After(l, cfg, ops);
      && l.cursor.at <= m.cursor.at <= |m.hist|
      && m.acked == l.acked + acked && m.evicted == l.evicted + evicted && acked !! evicted
      && (forall i :: i in acked || i in evicted <==> l.cursor.at <= i < m.cursor.at)
      && GoodIn(m.hist, l.cursor.at, |m.hist|)
         == (m.ackedGood + m.evictedGood) - (l.ackedGood + l.evictedGood) + Unread(m)
  {
    hide Off, Good, Span, GoodIn, Whole, Tracks, Next, Enabled, Keeps;
    acked, evicted := RunLeaves(l, cfg, ops);
    var m := After(l, cfg, ops);
    CursorBounds(l);
    CursorBounds(m);
    SpanAdd(m.hist, l.cursor.at, m.cursor.at, |m.hist|);
    assert forall i :: i in acked + evicted <==> i in acked || i in evicted;
  }

  /** From a fresh directory that is every record ever stored. */
  lemma EveryRecordOfAFreshQueue(l: Log, cfg: Config, ops: seq<Op>)
    requires IsFresh(l) && l.ackedGood == l.evictedGood == 0
    requires Inv(l) && Runs(l, cfg, ops) && CrashFree(ops)
    ensures var m := After(l, cfg, ops);
      && m.cursor.at <= |m.hist|
      && GoodIn(m.hist, 0, |m.hist|) == m.ackedGood + m.evictedGood + Unread(m)
      && m.acked !! m.evicted
      && (forall i :: i in m.acked || i in m.evicted <==> 0 <= i < m.cursor.at)
  {
    hide Off, Good, Span, GoodIn, Whole, Tracks, Next, Enabled, Keeps, Runs, After;
    var acked, evicted := EveryRecordLeavesOnce(l, cfg, ops);
    var m := After(l, cfg, ops);
    assert m.acked == {} + acked == acked && m.evicted == {} + evicted == evicted;
  }

  // ------------------------------------------------- is count at most the unread

  /** The step does not take off the count less than what it takes off the unread. */
  ghost predicate Covering(l: Log, op: Op)
    requires Inv(l)
  {
    CursorBounds(l);
    match op
    case Ack(n) => Minus(l.count, n) + InFlight(l) <= Unread(l)
    case Confirm(n) => Minus(l.count, n) + InFlight(l) <= Unread(l)
    case _ => true
  }

  /** Every step keeps the count within what is unread, but for an ack of too few events. */
  lemma StepWithinIff(l: Log, cfg: Config, op: Op)
    requires Inv(l) && Enabled(l, cfg, op) && CountWithin(l)
    ensures Inv(Next(l, cfg, op)) && (CountWithin(Next(l, cfg, op)) <==> Covering(l, op))
  {
    StepSafe(l, cfg, op);
    hide Inv, PushOp, StoreOp, TryRoll, EvictOp, PeekOp, ConfirmOp, AckOp, CrashOp, ResetOp, ClampUnlink, Keeps,
      CountWithin, Covering;
    match op
    case Ack(n) => AckWithin(l, n, AckOp(l, n));
    case Confirm(n) => ConfirmWithin(l, n, ConfirmOp(l, n));
    case _ => NotAnAck(l, op); StepWithin(l, cfg, op);
  }

  lemma StepWithin(l: Log, cfg: Config, op: Op)
    requires Inv(l) && Enabled(l, cfg, op) && CountWithin(l) && !op.Ack? && !op.Confirm?
    requires Inv(Next(l, cfg, op)) && Keeps(l, Next(l, cfg, op))
    ensures CountWithin(Next(l, cfg, op))
  {
    hide Tracks, Shape, Span, Whole, PushOp, StoreOp, TryRoll, EvictOp, PeekOp, CrashOp, UnlinkOp, ResetOp, Keeps,
      Slides, GoodIn, CountWithin, LongestRun;
    var m := Next(l, cfg, op);
    match op
    case Push(r, io) => PushSlides(l, cfg, r, io); SlidesWithin(l, m);
    case Store(r, spill) => StoreSlides(l, r, spill); SlidesWithin(l, m);
    case Flush(k) => SameWithin(l, m);
    case Roll(io) => TryRollSlides(l, io); SlidesWithin(l, m);
    case Evict => EvictSlides(l); SlidesWithin(l, m);
    case Peek(fails, max, budget) => PeekIsLongestRun(l, fails, max, budget); SameWithin(l, m);
    case Unlink(upto) => UnlinkedSame(l, upto); SameWithin(l, m);
    case Save(ok) => SameWithin(l, m);
    case Reset => ResetSame(l); SameWithin(l, m);
    case Crash(k) => ReopenResumesAtOrBefore(l, k); CursorBounds(m); ExactWithin(m);
  }

  lemma SlidesWithin(l: Log, m: Log)
    requires Inv(l) && Inv(m) && Slides(l, m) && CountWithin(l)
    ensures CountWithin(m)
  {
  }

  lemma SameWithin(l: Log, m: Log)
    requires Inv(l) && Inv(m) && m.hist == l.hist && m.cursor.at == l.cursor.at && m.count == l.count
    ensures CountWithin(l) <==> CountWithin(m)
  {
    hide Tracks, Span, Whole, GoodIn;
  }

  lemma UnlinkedSame(l: Log, upto: nat)
    requires Inv(l) && l.first <= upto <= l.cursor.seg
    ensures var m := ClampUnlink(l, upto); m.hist == l.hist && m.cursor == l.cursor && m.count == l.count
  {
  }

  lemma ResetSame(l: Log)
    ensures var m := ResetOp(l); m.hist == l.hist && m.cursor == l.cursor && m.count == l.count
  {
  }

  lemma ExactWithin(l: Log)
    requires Inv(l) && l.cursor.at <= |l.hist| && l.count == Unread(l)
    ensures CountWithin(l)
  {
  }

  lemma AckWithin(l: Log, n: nat, m: Log)
    requires Inv(l) && m == AckOp(l, n) && Inv(m)
    ensures CountWithin(m) <==> Covering(l, Ack(n))
  {
    hide Off, Good, Whole, Span, GoodIn, Tracks, Shape;
    CursorBounds(l);
    SpanAdd(l.hist, l.cursor.at, l.peek.at, |l.hist|);
  }

  lemma ConfirmWithin(l: Log, n: nat, m: Log)
    requires Inv(l) && m == ConfirmOp(l, n) && Inv(m)
    ensures CountWithin(m) <==> Covering(l, Confirm(n))
  {
    hide Off, Good, Whole, Span, GoodIn, Tracks, Shape;
    CursorBounds(l);
    SpanAdd(l.hist, l.cursor.at, l.peek.at, |l.hist|);
  }

  /** Acknowledging what was handed out always takes enough off. */
  lemma HandedCovering(l: Log, n: nat)
    requires Inv(l) && CountWithin(l) && n >= l.handed
    ensures Covering(l, Ack(n)) && Covering(l, Confirm(n))
  {
    hide Off, Good, Whole, Span, GoodIn, Tracks, Shape;
    HandedCovers(l);
    SpanAdd(l.hist, l.cursor.at, l.peek.at, |l.hist|);
  }

  /** Every ack of the run is of at least the number handed out. */
  ghost predicate AcksAll(l: Log, cfg: Config, ops: seq<Op>)
    requires Inv(l) && Runs(l, cfg, ops)
    decreases |ops|
  {
    ops == []
    || (StepSafe(l, cfg, ops[0]);
        (ops[0].Ack? ==> ops[0].n >= l.handed) && (ops[0].Confirm? ==> ops[0].confirmed >= l.handed)
        && AcksAll(Next(l, cfg, ops[0]), cfg, ops[1..]))
  }

  /** `count` never exceeds the number of unread events, whatever is evicted, as long
      as nothing is acknowledged with a number short of what was handed out. */
  lemma {:induction false} CountWithinOverRuns(l: Log, cfg: Config, ops: seq<Op>)
    requires Inv(l) && Runs(l, cfg, ops) && CountWithin(l) && AcksAll(l, cfg, ops)
    ensures CountWithin(After(l, cfg, ops))
    decreases |ops|
  {
    hide Tracks, Shape, Span, Whole, Next, Enabled, Keeps, CountWithin, Covering;
    if ops != [] {
      StepSafe(l, cfg, ops[0]);
      if ops[0].Ack? { HandedCovering(l, ops[0].n); }
      if ops[0].Confirm? { HandedCovering(l, ops[0].confirmed); }
      if !ops[0].Ack? && !ops[0].Confirm? { NotAnAck(l, ops[0]); }
      StepWithinIff(l, cfg, ops[0]);
      CountWithinOverRuns(Next(l, cfg, ops[0]), cfg, ops[1..]);
    }
  }

  lemma NotAnAck(l: Log, op: Op)
    requires Inv(l) && !op.Ack? && !op.Confirm?
    ensures Covering(l, op)
  {
    hide Inv;
  }

  // ---------------------------------------------------------- is count exact

  /** Good records handed out and not yet acknowledged that lie before `at`. */
  ghost function InFlightBefore(l: Log, at: nat): nat
    requires Inv(l)
  {
    CursorBounds(l);
    if l.cursor.at <= Min(at, l.peek.at) then GoodIn(l.hist, l.cursor.at, Min(at, l.peek.at)) else 0
  }

  /** Where a push will leave the acknowledged position, from what can be seen
      before it: only drop_oldest moves it, to the first segment boundary from which
      the rest fits the cap together with the record. */
  function PushFront(l: Log, cfg: Config, r: Rec, io: PushIo): nat
    requires Shape(l)
  {
    if Fits(l, cfg.maxBytes, r) || !cfg.policy.DropOldest? then l.cursor.at
    else Max(l.cursor.at, RoomEnd(l, cfg.maxBytes, SizeOf(r), io.evictRoll))
  }

  lemma PushFrontIs(l: Log, cfg: Config, r: Rec, io: PushIo)
    requires Inv(l) && r.good
    requires cfg.policy.DropOldest? ==> SizeOf(r) <= cfg.maxBytes
    ensures PushOp(l, cfg, r, io).0.cursor.at == PushFront(l, cfg, r, io)
  {
    hide Tracks, WriteOp, MakeRoom, Span, Whole, RoomEnd, RoomMade, Shape;
    if Fits(l, cfg.maxBytes, r) || cfg.policy.DropOldest? {
      RoomIff(l, cfg.maxBytes, SizeOf(r), io.evictRoll);
      if Fits(l, cfg.maxBytes, r) { RoomAlready(l, cfg.maxBytes, r, io.evictRoll); }
      var (m, n, ok) := MakeRoom(l, cfg.maxBytes, SizeOf(r), io.evictRoll);
      if ok { WriteStays(m, cfg.segBytes, r, n, io); }
    }
  }

  /** After a step that discards from the front the number handed out still is what
      is in flight exactly when it was before and nothing in flight was discarded. */
  lemma FlightExactIff(l: Log, m: Log)
    requires Inv(l) && Inv(m) && Slides(l, m)
    ensures FlightExact(m) <==> FlightExact(l) && InFlightBefore(l, m.cursor.at) == 0
  {
    hide Off, Good, Whole, Span, GoodIn, Tracks, Shape, Keeps, CountExact;
    CursorBounds(l);
    CursorBounds(m);
    HandedCovers(l);
    SamePrefix(l, m, l.peek.at);
    if m.cursor.at <= l.peek.at {
      SpanAdd(l.hist, l.cursor.at, m.cursor.at, l.peek.at);
      SpanSame(l.hist, m.hist, m.cursor.at, l.peek.at);
    } else {
      SpanZero(m.hist, m.cursor.at, m.cursor.at);
    }
  }

  lemma NothingBeforeCursor(l: Log, at: nat)
    requires Inv(l)
    ensures InFlightBefore(l, l.cursor.at) == 0
    ensures InFlightBefore(l, Max(l.cursor.at, at)) == InFlightBefore(l, at)
  {
    hide Off, Good, Span, Whole, Tracks;
    CursorBounds(l);
    SpanZero(l.hist, l.cursor.at, l.cursor.at);
  }

  /** `ack` leaves the count exact if and only if the number it subtracts is the
      number still in flight, or nothing but those was unread. */
  lemma AckExactIff(l: Log)
    requires Inv(l) && CountExact(l) && Inv(AckOp(l, l.handed))
    ensures CountExact(AckOp(l, l.handed))
            <==> (CursorBounds(l); FlightExact(l) || Unread(l) == InFlight(l))
  {
    hide Off, Good, Whole, Span, GoodIn, Tracks, Shape;
    CursorBounds(l);
    HandedCovers(l);
    SpanAdd(l.hist, l.cursor.at, l.peek.at, |l.hist|);
  }

  /** The count is exact and the hand-out count fits. */
  ghost predicate Exact(l: Log)
    requires Inv(l)
  {
    CountExact(l) && FlightExact(l)
  }

  /** `ack` always confirms the whole peeked batch, so the number passed to it has
      to cover that batch: with fewer, and only then, the count is left above what
      is unread. */
  lemma AckCoversIff(l: Log, n: nat)
    requires Inv(l) && Exact(l)
    ensures var m := AckOp(l, n);
      && m.cursor.at <= |m.hist|
      && (m.count <= Unread(m) <==> n >= l.handed)
  {
    hide Off, Good, Whole, Span, GoodIn, Tracks, Shape;
    CursorBounds(l);
    CursorPlace(l);
    SpanAdd(l.hist, l.cursor.at, l.peek.at, |l.hist|);
  }

  /** The step will evict nothing that is in flight, as can be told before it, and
      acknowledges the number that was handed out. */
  ghost predicate Gentle(l: Log, cfg: Config, op: Op)
    requires Inv(l) && Enabled(l, cfg, op)
  {
    match op
    case Push(r, io) => InFlightBefore(l, PushFront(l, cfg, r, io)) == 0
    case Evict => InFlightBefore(l, l.starts[1]) == 0
    case Ack(n) => n == l.handed
    case Confirm(n) => n == l.handed
    case _ => true
  }

  lemma EvictSlides(l: Log)
    requires Inv(l) && |l.starts| >= 2
    ensures Inv(EvictOp(l)) && Slides(l, EvictOp(l))
  {
    hide Tracks, Slides, Trims, EvictOp, Keeps;
    EvictSafe(l);
    TrimsSlides(l, EvictOp(l));
  }

  lemma StillExact(l: Log, m: Log)
    requires Inv(l) && Inv(m) && Slides(l, m) && Still(l, m) && Exact(l)
    ensures Exact(m)
  {
    hide Off, Good, Whole, Span, GoodIn, Tracks, Shape, Keeps, CountExact;
    CursorBounds(l);
    CursorBounds(m);
    SamePrefix(l, m, l.peek.at);
    SpanSame(l.hist, m.hist, l.cursor.at, l.peek.at);
  }

  lemma PeekExact(l: Log, fails: Option<nat>, max: nat, budget: nat)
    requires Inv(l) && Exact(l)
    ensures Inv(PeekOp(l, fails, max, budget)) && Exact(PeekOp(l, fails, max, budget))
  {
    hide Off, Good, Whole, Span, GoodIn, Tracks, Shape, Keeps, PeekOp, LongestRun;
    PeekSafe(l, fails, max, budget);
    PeekIsLongestRun(l, fails, max, budget);
    var m := PeekOp(l, fails, max, budget);
    CursorBounds(l);
    CursorBounds(m);
    SpanAdd(l.hist, l.cursor.at, l.peek.at, m.peek.at);
  }

  lemma ConfirmExact(l: Log)
    requires Inv(l) && Inv(ConfirmOp(l, l.handed)) && Exact(l)
    ensures Exact(ConfirmOp(l, l.handed))
  {
    hide Off, Good, Whole, Span, GoodIn, Tracks, Shape;
    CursorBounds(l);
    CursorBounds(ConfirmOp(l, l.handed));
    SpanAdd(l.hist, l.cursor.at, l.peek.at, |l.hist|);
    SpanZero(l.hist, l.peek.at, l.peek.at);
  }

  lemma UnlinkExact(l: Log, upto: nat)
    requires Inv(l) && l.first <= upto <= l.cursor.seg && Exact(l)
    ensures Inv(UnlinkOp(l, upto)) && Exact(UnlinkOp(l, upto))
  {
    CursorPlace(l);
    hide Tracks, Span, Whole, GoodIn, Keeps;
    UnlinkSafe(l, upto);
    CursorBounds(UnlinkOp(l, upto));
  }

  lemma AckExact(l: Log)
    requires Inv(l) && Exact(l)
    ensures Inv(AckOp(l, l.handed)) && Exact(AckOp(l, l.handed))
  {
    HandedCovers(l);
    CursorPlace(l);
    hide Tracks, Span, Whole, GoodIn, Keeps, UnlinkOp, Exact, Shape;
    ConfirmSafe(l, l.handed);
    ConfirmExact(l);
    UnlinkExact(ConfirmOp(l, l.handed), l.peek.seg);
  }

  lemma FreshExact(l: Log)
    requires Inv(l) && l.count == (CursorBounds(l); Unread(l)) && l.handed == 0 && l.peek == l.cursor
    ensures Exact(l)
  {
    hide Good;
    CursorBounds(l);
    SpanZero(l.hist, l.cursor.at, l.cursor.at);
  }

  lemma ResetExact(l: Log)
    requires Inv(l) && Exact(l)
    ensures Inv(ResetOp(l)) && Exact(ResetOp(l))
  {
    hide Off, Good, Whole, Span, GoodIn, Tracks, Shape;
    ResetSafe(l);
    CursorBounds(ResetOp(l));
    FreshExact(ResetOp(l));
  }

  lemma StepExact(l: Log, cfg: Config, op: Op)
    requires Inv(l) && Enabled(l, cfg, op) && Exact(l) && Gentle(l, cfg, op)
    ensures Inv(Next(l, cfg, op)) && Exact(Next(l, cfg, op))
  {
    StepSafe(l, cfg, op);
    hide Tracks, Shape, Span, Whole, PushOp, StoreOp, TryRoll, EvictOp, PeekOp, ConfirmOp, UnlinkOp, AckOp, CrashOp,
      ResetOp, Keeps, Slides, GoodIn, CountExact, FlightExact, InFlightBefore, PushFront;
    match op
    case Push(r, io) => PushFlightIff(l, cfg, r, io);
    case Store(r, spill) => StoreSlides(l, r, spill); StoreStill(l, r, spill);
    case Flush(k) => FlushSafe(l, k); FlushExact(l, k);
    case Roll(io) => TryRollSlides(l, io); RollStill(l, io);
    case Evict => EvictFlightIff(l);
    case Peek(fails, max, budget) => PeekExact(l, fails, max, budget);
    case Ack(n) => AckExact(l);
    case Confirm(n) => ConfirmExact(l);
    case Unlink(upto) => UnlinkExact(l, upto);
    case Save(ok) => SaveExact(l, ok);
    case Reset => ResetExact(l);
    case Crash(k) => CrashExact(l, k);
  }

  /** A push keeps the hand-out count right if and only if it evicts nothing in
      flight, which is settled beforehand. */
  lemma PushFlightIff(l: Log, cfg: Config, r: Rec, io: PushIo)
    requires Inv(l) && r.good
    requires cfg.policy.DropOldest? ==> SizeOf(r) <= cfg.maxBytes
    ensures var m := PushOp(l, cfg, r, io).0;
      && Inv(m)
      && (FlightExact(m) <==> FlightExact(l) && InFlightBefore(l, PushFront(l, cfg, r, io)) == 0)
      && (CountExact(l) ==> CountExact(m))
  {
    hide Tracks, Shape, PushOp, Slides, CountExact, FlightExact, InFlightBefore, PushFront;
    PushSlides(l, cfg, r, io);
    PushFrontIs(l, cfg, r, io);
    FlightExactIff(l, PushOp(l, cfg, r, io).0);
    if CountExact(l) { SlidesCount(l, PushOp(l, cfg, r, io).0); }
  }

  /** The same for an eviction: the oldest segment ends where the second begins. */
  lemma EvictFlightIff(l: Log)
    requires Inv(l) && |l.starts| >= 2
    ensures var m := EvictOp(l);
      && Inv(m)
      && (FlightExact(m) <==> FlightExact(l) && InFlightBefore(l, l.starts[1]) == 0)
      && (CountExact(l) ==> CountExact(m))
  {
    hide Tracks, EvictOp, Slides, CountExact, FlightExact, InFlightBefore;
    EvictSlides(l);
    EvictMoves(l);
    NothingBeforeCursor(l, l.starts[1]);
    FlightExactIff(l, EvictOp(l));
    if CountExact(l) { SlidesCount(l, EvictOp(l)); }
  }

  lemma SlidesCount(l: Log, m: Log)
    requires Inv(l) && Inv(m) && Slides(l, m) && CountExact(l)
    ensures CountExact(m)
  {
  }

  lemma StoreStill(l: Log, r: Rec, spill: nat)
    requires Inv(l) && r.good && Inv(StoreOp(l, r, spill)) && Slides(l, StoreOp(l, r, spill)) && Exact(l)
    ensures Exact(StoreOp(l, r, spill))
  {
    hide Exact, Slides, Tracks;
    StillExact(l, StoreOp(l, r, spill));
  }

  lemma RollStill(l: Log, io: RollIo)
    requires Inv(l) && Inv(TryRoll(l, io).0) && Slides(l, TryRoll(l, io).0) && Exact(l)
    ensures Exact(TryRoll(l, io).0)
  {
    hide Exact, Slides, Tracks;
    StillExact(l, TryRoll(l, io).0);
  }

  lemma FlushExact(l: Log, k: nat)
    requires Inv(l) && Inv(FlushOp(l, k)) && Keeps(l, FlushOp(l, k)) && Exact(l)
    ensures Exact(FlushOp(l, k))
  {
    hide Tracks, Span, Whole, Keeps, GoodIn;
  }

  lemma SaveExact(l: Log, ok: bool)
    requires Inv(l) && Inv(SaveOp(l, ok)) && Exact(l)
    ensures Exact(SaveOp(l, ok))
  {
    hide Tracks, Span, Whole, GoodIn;
  }

  lemma CrashExact(l: Log, k: nat)
    requires Inv(l) && l.flushed <= k <= WriteOff(l)
    ensures Inv(CrashOp(l, k)) && Exact(CrashOp(l, k))
  {
    hide Off, Good, Whole, Span, GoodIn, Tracks;
    ReopenResumesAtOrBefore(l, k);
    FreshExact(CrashOp(l, k));
  }

  /** Every step of the run is gentle. */
  ghost predicate AllGentle(l: Log, cfg: Config, ops: seq<Op>)
    requires Inv(l) && Runs(l, cfg, ops)
    decreases |ops|
  {
    ops == []
    || (StepSafe(l, cfg, ops[0]);
        Gentle(l, cfg, ops[0]) && AllGentle(Next(l, cfg, ops[0]), cfg, ops[1..]))
  }

  /** `count` is exactly the number of unread events throughout any run, crashes
      and failed writes included, in which no eviction lands on events in flight. */
  lemma {:induction false} CountExactOverRuns(l: Log, cfg: Config, ops: seq<Op>)
    requires Inv(l) && Runs(l, cfg, ops) && Exact(l) && AllGentle(l, cfg, ops)
    ensures Exact(After(l, cfg, ops))
    decreases |ops|
  {
    hide Tracks, Shape, Span, Whole, Next, Enabled, Keeps, Exact, Gentle;
    if ops != [] {
      StepSafe(l, cfg, ops[0]);
      StepExact(l, cfg, ops[0]);
      CountExactOverRuns(Next(l, cfg, ops[0]), cfg, ops[1..]);
    }
  }

  // --------------------------------------------------- between a peek and its ack

  /** What can happen while a batch is being sent. */
  ghost predicate Meanwhile(ops: seq<Op>) {
    forall i :: 0 <= i < |ops| ==>
      ops[i].Push? || ops[i].Store? || ops[i].Flush? || ops[i].Roll? || ops[i].Evict?
  }

  lemma StepFlightIff(l: Log, cfg: Config, op: Op)
    requires Inv(l) && Enabled(l, cfg, op) && Meanwhile([op])
    ensures var m := Next(l, cfg, op);
      && Inv(m)
      && (FlightExact(m) <==> FlightExact(l) && Gentle(l, cfg, op))
      && (CountExact(l) ==> CountExact(m))
  {
    StepSafe(l, cfg, op);
    hide Tracks, Shape, Span, Whole, PushOp, StoreOp, TryRoll, EvictOp, Keeps, Slides, GoodIn, CountExact, FlightExact,
      InFlightBefore, PushFront;
    assert [op][0] == op;
    match op
    case Push(r, io) => PushFlightIff(l, cfg, r, io);
    case Evict => EvictFlightIff(l);
    case Store(r, spill) => StoreSlides(l, r, spill); StaysFlightIff(l, StoreOp(l, r, spill));
    case Roll(io) =>
      TryRollSlides(l, io);
      RollsStill(l, io);
      StaysFlightIff(l, TryRoll(l, io).0);
    case Flush(k) =>
      FlushSafe(l, k);
      FlushSlides(l, k);
      StaysFlightIff(l, FlushOp(l, k));
  }

  lemma StaysFlightIff(l: Log, m: Log)
    requires Inv(l) && Inv(m) && Slides(l, m) && m.cursor == l.cursor
    ensures FlightExact(m) <==> FlightExact(l)
    ensures CountExact(l) ==> CountExact(m)
  {
    hide Tracks, Shape, Slides, CountExact, FlightExact, InFlightBefore;
    NothingBeforeCursor(l, 0);
    FlightExactIff(l, m);
    if CountExact(l) { SlidesCount(l, m); }
  }

  lemma RollsStill(l: Log, io: RollIo)
    requires Shape(l) && l.flushed <= WriteOff(l)
    ensures TryRoll(l, io).0.cursor == l.cursor
  {
    hide Span, Whole;
    RollsIff(l, io);
  }

  lemma FlushSlides(l: Log, k: nat)
    requires Inv(l) && Inv(FlushOp(l, k)) && Keeps(l, FlushOp(l, k))
    ensures Slides(l, FlushOp(l, k))
  {
    hide Tracks, Span, Whole, Keeps, GoodIn, Slides;
    StillSlides(l, FlushOp(l, k));
  }

  lemma {:induction false} MeanwhileFlight(l: Log, cfg: Config, ops: seq<Op>)
    requires Inv(l) && Runs(l, cfg, ops) && Meanwhile(ops)
    ensures FlightExact(After(l, cfg, ops)) <==> FlightExact(l) && AllGentle(l, cfg, ops)
    ensures CountExact(l) ==> CountExact(After(l, cfg, ops))
    decreases |ops|
  {
    hide Tracks, Shape, Span, Whole, Next, Enabled, Keeps, CountExact, FlightExact, Gentle;
    if ops != [] {
      assert Meanwhile([ops[0]]);
      StepSafe(l, cfg, ops[0]);
      StepFlightIff(l, cfg, ops[0]);
      MeanwhileFlight(Next(l, cfg, ops[0]), cfg, ops[1..]);
    }
  }

  /** The window of a batch: from a queue whose count is exact, with a batch handed
      out, through any pushes, failed writes, rolls and evictions, to its ack.  The
      count is exact afterwards if and only if none of these was bound to evict part
      of the batch, or nothing but the rest of the batch was unread. */
  lemma WindowExactIff(l: Log, cfg: Config, ops: seq<Op>)
    requires Inv(l) && Exact(l) && Runs(l, cfg, ops) && Meanwhile(ops)
    ensures var m := After(l, cfg, ops);
      && Inv(AckOp(m, m.handed))
      && (CountExact(AckOp(m, m.handed))
          <==> AllGentle(l, cfg, ops) || (CursorBounds(m); Unread(m) == InFlight(m)))
  {
    hide Tracks, Shape, Span, Whole, GoodIn, Runs, After, AllGentle, Meanwhile, AckOp, CountExact, FlightExact, Keeps;
    MeanwhileFlight(l, cfg, ops);
    var m := After(l, cfg, ops);
    AckSafe(m, m.handed);
    AckExactIff(m);
  }

  /** Without that hypothesis the count drifts: two records in two segments, the
      first peeked, evicted, and then acknowledged, leave one unread and a count
      of zero. */
  lemma DriftAfterEviction(r: Rec) returns (l: Log)
    requires r.good
    ensures Inv(l) && Exact(l) && |l.starts| == 2
    ensures Inv(EvictOp(l)) && EvictOp(l).handed == 1
    ensures var m := AckOp(EvictOp(l), 1); m.count == 0 && m.cursor.at <= |m.hist| && Unread(m) == 1
  {
    hide Whole;
    l := Log([r, r], 0, [0, 1], SizeOf(r), false, Pos(0, 0), Pos(0, 1), Pos(0, 0), None, 2, 1, {}, {}, 0, 0, 0);
    assert Good(l.hist, 0) == 0 && Good(l.hist, 1) == 1 && Good(l.hist, 2) == 2;
    assert Off(l.hist, 1) + SizeOf(r) == Off(l.hist, 2);
    WholeAll(l.hist, 1);
    EvictSafe(l);
    CursorBounds(EvictOp(l));
  }
}
