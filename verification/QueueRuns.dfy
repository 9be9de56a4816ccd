/** Whole runs of a disk queue: any interleaving of its operations, of the two
    halves of ack, of partial flushes and of crashes. */
module QueueRuns {
  import opened Options
  import opened Records
  import opened QueueLog
  import opened QueuePush
  import opened QueuePeek

  /** The steps of a run.  `Push` and `Ack` are the locked sections as a whole;
      the smaller steps are the points inside them where a crash can fall. */
  datatype Op =
    | Push(r: Rec, io: PushIo)
    | Store(rec: Rec, spill: nat)
    | Flush(k: nat)
    | Roll(rollIo: RollIo)
    | Evict
    | Peek(fails: Option<nat>, max: nat, budget: nat)
    | Ack(n: nat)
    | Confirm(confirmed: nat)
    | Unlink(upto: nat)
    | Save(ok: bool)
    | Reset
    | Crash(onDisk: nat)

  /** When a step can be taken.  `ack` can be called with any number of events. */
  ghost predicate Enabled(l: Log, cfg: Config, op: Op)
    requires Inv(l)
  {
    match op
    case Push(r, _) => r.good && (cfg.policy.DropOldest? ==> SizeOf(r) <= cfg.maxBytes)
    case Store(r, _) => r.good
    case Flush(k) => l.writerOpen && l.flushed <= k <= WriteOff(l)
    case Roll(_) => true
    case Evict => |l.starts| >= 2
    case Peek(_, _, _) => true
    case Ack(_) => true
    case Confirm(_) => true
    case Unlink(upto) => l.first <= upto <= l.cursor.seg
    case Save(_) => true
    case Reset => true
    case Crash(k) => l.flushed <= k <= WriteOff(l)
  }

  ghost function Next(l: Log, cfg: Config, op: Op): Log
    requires Inv(l) && Enabled(l, cfg, op)
  {
    match op
    case Push(r, io) => PushOp(l, cfg, r, io).0
    case Store(r, spill) => StoreOp(l, r, spill)
    case Flush(k) => FlushOp(l, k)
    case Roll(io) => TryRoll(l, io).0
    case Evict => EvictOp(l)
    case Peek(fails, max, budget) => PeekOp(l, fails, max, budget)
    case Ack(n) => AckOp(l, n)
    case Confirm(n) => ConfirmOp(l, n)
    case Unlink(upto) => ClampUnlink(l, upto)
    case Save(ok) => SaveOp(l, ok)
    case Reset => ResetOp(l)
    case Crash(k) => CrashOp(l, k)
  }

  ghost function ClampUnlink(l: Log, upto: nat): Log
    requires Inv(l) && l.first <= upto <= l.cursor.seg
  {
    CursorPlace(l);
    UnlinkOp(l, upto)
  }

  lemma CursorPlace(l: Log)
    requires Inv(l)
    ensures l.first <= l.cursor.seg <= l.peek.seg <= Last(l)
  {
  }

  lemma StepSafe(l: Log, cfg: Config, op: Op)
    requires Inv(l) && Enabled(l, cfg, op)
    ensures Inv(Next(l, cfg, op)) && Keeps(l, Next(l, cfg, op))
  {
    hide Tracks, Shape, Span, Whole, PushOp, StoreOp, TryRoll, EvictOp, PeekOp, ConfirmOp, UnlinkOp, CrashOp, Keeps;
    match op
    case Push(r, io) => PushSafe(l, cfg, r, io);
    case Store(r, spill) => StoreSafe(l, r, spill);
    case Flush(k) => FlushSafe(l, k);
    case Roll(io) => TryRollSafe(l, io);
    case Evict => EvictSafe(l);
    case Peek(fails, max, budget) => PeekSafe(l, fails, max, budget);
    case Ack(n) => AckSafe(l, n);
    case Confirm(n) => ConfirmSafe(l, n);
    case Unlink(upto) => UnlinkSafe(l, upto);
    case Save(ok) => SaveSafe(l, ok);
    case Reset => ResetSafe(l);
    case Crash(k) => CrashSafe(l, k);
  }

  lemma HandedCovers(l: Log)
    requires Inv(l)
    ensures l.cursor.at <= l.peek.at <= |l.hist| && InFlight(l) <= l.handed
  {
  }

  lemma AckSafe(l: Log, n: nat)
    requires Inv(l)
    ensures Inv(AckOp(l, n)) && Keeps(l, AckOp(l, n))
  {
    CursorPlace(l);
    hide Tracks, Span, Whole, GoodIn, Keeps, UnlinkOp;
    ConfirmSafe(l, n);
    UnlinkSafe(ConfirmOp(l, n), l.peek.seg);
    KeepsTrans(l, ConfirmOp(l, n), UnlinkOp(ConfirmOp(l, n), l.peek.seg));
  }

  // -------------------------------------------------------------------- runs

  ghost predicate Runs(l: Log, cfg: Config, ops: seq<Op>)
    requires Inv(l)
    decreases |ops|
  {
    ops == []
    || (Enabled(l, cfg, ops[0])
        && (StepSafe(l, cfg, ops[0]); Runs(Next(l, cfg, ops[0]), cfg, ops[1..])))
  }

  ghost function After(l: Log, cfg: Config, ops: seq<Op>): (m: Log)
    requires Inv(l) && Runs(l, cfg, ops)
    ensures Inv(m)
    decreases |ops|
  {
    if ops == [] then l
    else
      StepSafe(l, cfg, ops[0]);
      After(Next(l, cfg, ops[0]), cfg, ops[1..])
  }

  lemma {:induction false} RunKeeps(l: Log, cfg: Config, ops: seq<Op>)
    requires Inv(l) && Runs(l, cfg, ops)
    ensures Keeps(l, After(l, cfg, ops))
    decreases |ops|
  {
    hide Tracks, Shape, Span, Whole, Next, Enabled, Keeps;
    if ops == [] {
      SelfSafe(l);
    } else {
      StepSafe(l, cfg, ops[0]);
      var m := Next(l, cfg, ops[0]);
      RunKeeps(m, cfg, ops[1..]);
      KeepsTrans(l, m, After(m, cfg, ops[1..]));
    }
  }

  /** Crash safety: whatever run follows, a record that is whole on disk stays in
      the history, and at the end it is either still ahead of the cursor, in a
      segment the queue still has, or was confirmed delivered or evicted. */
  lemma DurableNeverLost(l: Log, cfg: Config, ops: seq<Op>, i: nat)
    requires Inv(l) && Runs(l, cfg, ops) && i < Durable(l)
    ensures var m := After(l, cfg, ops);
      && i < Durable(m) && m.hist[i] == l.hist[i]
      && (i in m.acked || i in m.evicted || (m.cursor.at <= i && m.starts[0] <= i))
  {
    RunKeeps(l, cfg, ops);
    var m := After(l, cfg, ops);
    assert m.hist[..Durable(l)][i] == l.hist[..Durable(l)][i];
    CursorInside(m);
  }

  lemma CursorInside(l: Log)
    requires Inv(l)
    ensures l.starts[0] <= l.cursor.at <= |l.hist|
  {
  }

  /** Opening after a crash never resumes past what was confirmed, and forgets
      nothing that had reached the disk. */
  lemma ReopenResumesAtOrBefore(l: Log, k: nat)
    requires Inv(l) && l.flushed <= k <= WriteOff(l)
    ensures var m := CrashOp(l, k);
      && Inv(m)
      && m.cursor.at <= l.cursor.at
      && Behind(l.saved, m.cursor)
      && Durable(l) <= |m.hist| <= |l.hist|
      && m.hist == l.hist[..|m.hist|]
      && m.count == Unread(m)
  {
    hide Off, Good, Span, GoodIn;
    CrashSafe(l, k);
    WholeMono(l.hist, WriteStart(l), |l.hist|, l.flushed, k);
    var m := CrashOp(l, k);
    assert m.hist[..|m.hist|] == l.hist[..|m.hist|];
    SpanSame(l.hist, m.hist, m.cursor.at, |m.hist|);
  }
}
