/** A disk queue as a value: which records were stored, where the segments
    start, how much of the write segment has reached its file, and where the
    reader stands.  Records are named by their index in `hist`, the history of
    everything stored and not lost; a deleted segment stays in the history and
    leaves the range of `starts`.

    The class `DiskQueue` is proved to do exactly what the operations below say,
    on bytes; the theorems about whole runs are proved here. */
module QueueLog {
  import opened Naturals
  import opened Options
  import opened Records

  datatype Policy = Block | DropNewest | DropOldest

  datatype Config = Config(maxBytes: nat, segBytes: nat, policy: Policy)

  /** A reader position: a segment and the index of the next record in it. */
  datatype Pos = Pos(seg: nat, at: nat)

  datatype Log = Log(
    hist: seq<Rec>,
    first: nat,              // smallest segment on disk
    starts: seq<nat>,        // where segments first, first+1, ... begin in hist
    flushed: nat,            // bytes of the write segment that are in its file
    writerOpen: bool,
    cursor: Pos,             // acknowledged
    peek: Pos,               // handed out
    saved: Pos,              // what cursor.json says
    saving: Option<Pos>,     // a cursor serialised by ack and not yet written
    count: nat,
    handed: nat,             // events handed out since the last ack or reset
    acked: set<nat>,         // every index ever confirmed delivered
    evicted: set<nat>,       // every index ever discarded to make room
    ackedGood: nat,
    evictedGood: nat,
    rejected: nat)

  function Empty(): Log {
    Log([], 0, [0], 0, false, Pos(0, 0), Pos(0, 0), Pos(0, 0), None, 0, 0, {}, {}, 0, 0, 0)
  }

  // -------------------------------------------------------------- the layout

  predicate Shape(l: Log) {
    && 1 <= |l.starts|
    && (forall i, j :: 0 <= i <= j < |l.starts| ==> l.starts[i] <= l.starts[j])
    && l.starts[|l.starts| - 1] <= |l.hist|
  }

  function Last(l: Log): nat
    requires Shape(l)
  {
    l.first + |l.starts| - 1
  }

  function Start(l: Log, s: nat): nat
    requires Shape(l) && l.first <= s <= Last(l)
  {
    l.starts[s - l.first]
  }

  function End(l: Log, s: nat): nat
    requires Shape(l) && l.first <= s <= Last(l)
  {
    if s == Last(l) then |l.hist| else l.starts[s - l.first + 1]
  }

  function WriteStart(l: Log): nat
    requires Shape(l)
  {
    l.starts[|l.starts| - 1]
  }

  /** Length of the write segment, buffered bytes included. */
  function WriteOff(l: Log): nat
    requires Shape(l)
  {
    Span(l.hist, WriteStart(l), |l.hist|)
  }

  /** Bytes held by all segments. */
  function Held(l: Log): nat
    requires Shape(l)
  {
    Span(l.hist, l.starts[0], |l.hist|)
  }

  /** One past the last record that is whole on disk. */
  function Durable(l: Log): nat
    requires Shape(l)
  {
    Whole(l.hist, WriteStart(l), |l.hist|, l.flushed)
  }

  predicate InSegment(l: Log, p: Pos)
    requires Shape(l)
  {
    l.first <= p.seg <= Last(l) && Start(l, p.seg) <= p.at <= End(l, p.seg)
  }

  predicate Behind(p: Pos, q: Pos) {
    p.seg <= q.seg && p.at <= q.at
  }

  /** A cursor that has been written out: its segment holds it, or is gone. */
  predicate Written(l: Log, p: Pos)
    requires Shape(l)
  {
    && Behind(p, l.cursor)
    && (if p.seg < l.first then p.at <= l.starts[0] else InSegment(l, p))
  }

  function Unread(l: Log): nat
    requires Shape(l) && l.cursor.at <= |l.hist|
  {
    GoodIn(l.hist, l.cursor.at, |l.hist|)
  }

  function InFlight(l: Log): nat
    requires l.cursor.at <= l.peek.at <= |l.hist|
  {
    GoodIn(l.hist, l.cursor.at, l.peek.at)
  }

  /** What every operation keeps. */
  ghost predicate Inv(l: Log) {
    && Shape(l)
    && l.flushed <= WriteOff(l)
    && (l.writerOpen || l.flushed == WriteOff(l))
    && Tracks(l)
  }

  /** The reader's side of the invariant. */
  ghost predicate Tracks(l: Log)
    requires Shape(l)
  {
    Places(l) && Counts(l) && Fates(l)
  }

  ghost predicate Places(l: Log)
    requires Shape(l)
  {
    && InSegment(l, l.cursor) && InSegment(l, l.peek)
    && Behind(l.cursor, l.peek)
    && l.peek.at <= Durable(l)
    && Written(l, l.saved)
    && (l.saving.Some? ==> Written(l, l.saving.value) && Behind(l.saved, l.saving.value))
  }

  /** What is in flight was handed out. */
  ghost predicate Counts(l: Log)
    requires Shape(l) && Places(l)
  {
    InFlight(l) <= l.handed
  }

  /** Whatever the cursor has passed was confirmed or discarded, and was durable. */
  ghost predicate Fates(l: Log)
    requires Shape(l)
  {
    && (forall i :: 0 <= i < l.cursor.at ==> i in l.acked || i in l.evicted)
    && (forall i :: i in l.acked || i in l.evicted ==> i < Durable(l))
  }

  // ------------------------------------------------------------- small parts

  /** How many of `n` bytes a failed write lets through: any number short of all. */
  function Partial(extra: nat, n: nat): nat
    requires n > 0
  {
    Min(extra, n - 1)
  }

  function Indices(a: nat, b: nat): (s: set<nat>)
    ensures forall i :: i in s <==> a <= i < b
  {
    if a >= b then {} else Indices(a, b - 1) + {b - 1}
  }

  // -------------------------------------------------------------- operations

  datatype RollIo = RollOk | FlushFails(extra: nat) | CreateFails
  datatype WriteIo = Wrote(spill: nat) | WriteFails(extra: nat)

  /** How the files behave during one push. */
  datatype PushIo = PushIo(evictRoll: RollIo, canOpen: bool, write: WriteIo, roll: RollIo)

  datatype PushResult = Stored(evicted: nat) | Dropped | Full | Failed

  function FlushOp(l: Log, k: nat): Log {
    l.(flushed := k)
  }

  /** The buffer is discarded with `k` bytes in the file: what is not whole on
      disk is forgotten and the file is cut back to a record boundary. */
  function LoseTail(l: Log, k: nat): Log
    requires Shape(l)
  {
    var m := Whole(l.hist, WriteStart(l), |l.hist|, k);
    l.(hist := l.hist[..m],
       flushed := Span(l.hist, WriteStart(l), m),
       writerOpen := false,
       count := Minus(l.count, GoodIn(l.hist, m, |l.hist|)))
  }

  function Rolled(l: Log): Log {
    l.(starts := l.starts + [|l.hist|], flushed := 0, writerOpen := false)
  }

  function TryRoll(l: Log, io: RollIo): (Log, bool)
    requires Shape(l) && l.flushed <= WriteOff(l)
  {
    if l.writerOpen && l.flushed < WriteOff(l) && io.FlushFails? then
      (LoseTail(l, l.flushed + Partial(io.extra, WriteOff(l) - l.flushed)), false)
    else if io.CreateFails? then
      (l.(flushed := WriteOff(l), writerOpen := false), false)
    else
      (Rolled(l), true)
  }

  /** Delete the segments before `upto`. */
  function UnlinkOp(l: Log, upto: nat): Log
    requires Shape(l) && l.first <= upto <= Last(l)
  {
    l.(first := upto, starts := l.starts[upto - l.first..])
  }

  /** Unread good records in the oldest segment. */
  function Discarded(l: Log): nat
    requires Inv(l) && |l.starts| >= 2
  {
    if l.cursor.seg == l.first then GoodIn(l.hist, l.cursor.at, l.starts[1]) else 0
  }

  function EvictOp(l: Log): Log
    requires Inv(l) && |l.starts| >= 2
  {
    var behind := l.cursor.seg <= l.first;
    var cursor := if behind then Pos(l.first + 1, l.starts[1]) else l.cursor;
    var peek := if l.peek.seg <= l.first then cursor else l.peek;
    UnlinkOp(l, l.first + 1).(
       cursor := cursor,
       peek := peek,
       count := Minus(l.count, Discarded(l)),
       evicted := l.evicted + (if behind then Indices(l.cursor.at, l.starts[1]) else {}),
       evictedGood := l.evictedGood + Discarded(l))
  }

  function StoreOp(l: Log, r: Rec, spill: nat): Log
    requires Shape(l)
  {
    l.(hist := l.hist + [r],
       writerOpen := true,
       flushed := Min(l.flushed + spill, WriteOff(l) + SizeOf(r)),
       count := l.count + 1)
  }

  function ConfirmOp(l: Log, n: nat): Log
    requires Inv(l)
  {
    l.(cursor := l.peek,
       count := Minus(l.count, n),
       handed := 0,
       saving := Some(l.peek),
       acked := l.acked + Indices(l.cursor.at, l.peek.at),
       ackedGood := l.ackedGood + InFlight(l))
  }

  /** The locked section of ack. */
  function AckOp(l: Log, n: nat): Log
    requires Inv(l)
  {
    UnlinkOp(ConfirmOp(l, n), l.peek.seg)
  }

  /** Writing cursor.json, outside the lock. */
  function SaveOp(l: Log, ok: bool): Log {
    l.(saved := if ok && l.saving.Some? then l.saving.value else l.saved, saving := None)
  }

  function ResetOp(l: Log): Log {
    l.(peek := l.cursor, handed := 0)
  }

  /** A cursor whose segment is gone restarts at the oldest segment left. */
  function Clamped(l: Log): Pos
    requires Shape(l)
  {
    if l.saved.seg < l.first then Pos(l.first, l.starts[0]) else l.saved
  }

  /** The process dies with `k` bytes of the write segment in its file, and the
      directory is opened again. */
  function CrashOp(l: Log, k: nat): Log
    requires Inv(l) && l.flushed <= k
  {
    var m := Whole(l.hist, WriteStart(l), |l.hist|, k);
    var c := Clamped(l);
    WholeMono(l.hist, WriteStart(l), |l.hist|, l.flushed, k);
    l.(hist := l.hist[..m],
       flushed := Span(l.hist, WriteStart(l), m),
       writerOpen := false,
       cursor := c, peek := c,
       saving := None,
       count := GoodIn(l.hist, c.at, m),
       handed := 0)
  }

  // ------------------------------------------------------ every step is safe

  /** Nothing durable is lost or forgotten from `l` to `m`. */
  ghost predicate Keeps(l: Log, m: Log)
    requires Shape(l) && Shape(m)
  {
    && Durable(l) <= Durable(m)
    && m.hist[..Durable(l)] == l.hist[..Durable(l)]
    && l.acked <= m.acked && l.evicted <= m.evicted
  }

  /** Steps that leave the reader alone. */
  ghost predicate Still(l: Log, m: Log) {
    && m.cursor == l.cursor && m.peek == l.peek && m.handed == l.handed
    && m.acked == l.acked && m.ackedGood == l.ackedGood
    && m.evicted == l.evicted && m.evictedGood == l.evictedGood
    && m.saved == l.saved && m.saving == l.saving
  }

  /** From `l` to `m` only the oldest records were discarded, and they were counted. */
  ghost predicate Trims(l: Log, m: Log)
    requires Inv(l) && Inv(m)
  {
    && m.hist == l.hist
    && l.cursor.at <= m.cursor.at
    && (if m.cursor.at <= l.peek.at then m.peek.at == l.peek.at else m.peek.at == m.cursor.at)
    && l.evictedGood <= m.evictedGood
    && m.evictedGood - l.evictedGood == Unread(l) - Unread(m)
    && m.evicted == l.evicted + Indices(l.cursor.at, m.cursor.at)
    && m.count == Minus(l.count, m.evictedGood - l.evictedGood)
    && m == l.(first := m.first, starts := m.starts, flushed := m.flushed, writerOpen := m.writerOpen,
               cursor := m.cursor, peek := m.peek, count := m.count,
               evicted := m.evicted, evictedGood := m.evictedGood)
  }

  lemma KeepsTrans(l: Log, m: Log, n: Log)
    requires Shape(l) && Shape(m) && Shape(n) && Keeps(l, m) && Keeps(m, n)
    ensures Keeps(l, n)
  {
    hide Off, Good, Whole, Span, GoodIn;
    assert m.hist[..Durable(l)] == m.hist[..Durable(m)][..Durable(l)];
    assert n.hist[..Durable(l)] == n.hist[..Durable(m)][..Durable(l)];
  }

  /** Deleting the oldest segments moves no other. */
  lemma UnlinkKeeps(l: Log, upto: nat)
    requires Shape(l) && l.first <= upto <= Last(l)
    ensures var m := UnlinkOp(l, upto);
      Shape(m) && Last(m) == Last(l) && WriteStart(m) == WriteStart(l) && m.starts[0] == Start(l, upto)
  {
  }

  lemma UnlinkPlace(l: Log, upto: nat, p: Pos)
    requires Shape(l) && l.first <= upto <= Last(l)
    requires if p.seg < l.first then p.at <= l.starts[0] else InSegment(l, p)
    ensures var m := UnlinkOp(l, upto);
      Shape(m) && (if p.seg < upto then p.at <= m.starts[0] else InSegment(m, p))
  {
    UnlinkKeeps(l, upto);
  }

  lemma FlushSafe(l: Log, k: nat)
    requires Inv(l) && l.flushed <= k <= WriteOff(l) && (l.writerOpen || k == l.flushed)
    ensures Inv(FlushOp(l, k)) && Keeps(l, FlushOp(l, k))
  {
    hide Off, Good, Whole, Span, GoodIn, Places, Fates, Shape;
    PeekDurable(l);
    FlushShape(l, k);
    WholeMono(l.hist, WriteStart(l), |l.hist|, l.flushed, k);
    PlacesKept(l, FlushOp(l, k));
    FatesKept(l, FlushOp(l, k));
  }

  lemma FlushShape(l: Log, k: nat)
    requires Shape(l)
    ensures Shape(FlushOp(l, k)) && WriteStart(FlushOp(l, k)) == WriteStart(l)
  {
  }

  lemma SegmentKept(l: Log, m: Log, p: Pos)
    requires Shape(l) && m.first == l.first && m.starts == l.starts && WriteStart(l) <= |m.hist|
    requires InSegment(l, p) && p.at <= |m.hist|
    ensures Shape(m) && InSegment(m, p)
  {
    hide Span, Whole;
  }

  /** The reader stays where it is while records are added or lost at the end. */
  lemma PlacesKept(l: Log, m: Log)
    requires Shape(l) && Places(l) && m.first == l.first && m.starts == l.starts && WriteStart(l) <= |m.hist|
    requires m.cursor == l.cursor && m.peek == l.peek && m.saved == l.saved && m.saving == l.saving
    requires Shape(m) && l.peek.at <= Durable(m) <= |m.hist|
    ensures Places(m)
  {
    hide Span, Whole, InSegment, Shape;
    SegmentKept(l, m, l.cursor);
    SegmentKept(l, m, l.peek);
    if l.saved.seg >= l.first { SegmentKept(l, m, l.saved); }
    if l.saving.Some? && l.saving.value.seg >= l.first { SegmentKept(l, m, l.saving.value); }
  }

  lemma FatesKept(l: Log, m: Log)
    requires Shape(l) && Shape(m) && Fates(l) && Durable(l) <= Durable(m)
    requires m.cursor == l.cursor && m.acked == l.acked && m.evicted == l.evicted
    ensures Fates(m)
  {
    hide Span, Whole, Shape;
  }

  lemma PeekDurable(l: Log)
    requires Inv(l)
    ensures WriteStart(l) <= Durable(l) <= |l.hist| && l.cursor.at <= l.peek.at <= Durable(l)
    ensures Places(l) && Counts(l) && Fates(l)
  {
    hide Span;
  }

  lemma LoseTailSafe(l: Log, k: nat)
    requires Inv(l) && l.flushed <= k
    ensures Inv(LoseTail(l, k)) && Keeps(l, LoseTail(l, k))
    ensures var m := LoseTail(l, k); m.flushed == WriteOff(m) && Durable(m) == |m.hist|
  {
    hide Off, Good, Whole, Span, GoodIn, Places, Shape, Fates;
    PeekDurable(l);
    var a := WriteStart(l);
    var m := Whole(l.hist, a, |l.hist|, k);
    var l' := LoseTail(l, k);
    WholeMono(l.hist, a, |l.hist|, l.flushed, k);
    assert l'.hist[..m] == l.hist[..m];
    SpanSame(l.hist, l'.hist, a, m);
    WholeAll(l'.hist, a);
    LoseTailShape(l, k);
    PlacesKept(l, l');
    FatesKept(l, l');
    LoseTailCounts(l, k);
  }

  lemma LoseTailShape(l: Log, k: nat)
    requires Shape(l)
    ensures Shape(LoseTail(l, k)) && WriteStart(LoseTail(l, k)) == WriteStart(l)
  {
    hide Span;
  }

  lemma LoseTailCounts(l: Log, k: nat)
    requires Inv(l) && l.flushed <= k
    ensures var m := LoseTail(l, k);
      && l.peek.at <= |m.hist|
      && GoodIn(m.hist, l.cursor.at, l.peek.at) <= l.handed
  {
    hide Off, Good, Whole, Span, GoodIn, Places, Shape, Fates;
    PeekDurable(l);
    var a := WriteStart(l);
    var m := Whole(l.hist, a, |l.hist|, k);
    var l' := LoseTail(l, k);
    WholeMono(l.hist, a, |l.hist|, l.flushed, k);
    assert l'.hist[..m] == l.hist[..m];
    SpanSame(l.hist, l'.hist, l.cursor.at, m);
    SpanAdd(l.hist, l.cursor.at, m, |l.hist|);
    SpanAdd(l.hist, a, m, |l.hist|);
    assert l'.hist[..l.peek.at] == l.hist[..l.peek.at];
    SpanSame(l.hist, l'.hist, l.cursor.at, l.peek.at);
  }

  lemma WholeAll(h: seq<Rec>, a: nat)
    requires a <= |h|
    ensures Whole(h, a, |h|, Span(h, a, |h|)) == |h|
  {
  }

  lemma RolledSafe(l: Log)
    requires Inv(l) && l.flushed == WriteOff(l)
    ensures Inv(Rolled(l)) && Keeps(l, Rolled(l))
    ensures Durable(Rolled(l)) == |l.hist|
  {
    hide Off, Good, Whole, Span, GoodIn;
    WholeAll(l.hist, WriteStart(l));
    var l' := Rolled(l);
    SpanZero(l'.hist, |l.hist|, |l.hist|);
    assert l'.hist[..Durable(l)] == l.hist[..Durable(l)];
  }

  lemma TryRollSafe(l: Log, io: RollIo)
    requires Inv(l)
    ensures Inv(TryRoll(l, io).0) && Keeps(l, TryRoll(l, io).0)
    ensures io.RollOk? ==> TryRoll(l, io).1
  {
    hide Off, Good, Whole, Span, GoodIn;
    if l.writerOpen && l.flushed < WriteOff(l) && io.FlushFails? {
      LoseTailSafe(l, l.flushed + Partial(io.extra, WriteOff(l) - l.flushed));
    } else {
      CloseSafe(l);
      RolledSafe(l.(flushed := WriteOff(l), writerOpen := false));
    }
  }

  lemma CloseSafe(l: Log)
    requires Inv(l)
    ensures var m := l.(flushed := WriteOff(l), writerOpen := false);
      Inv(m) && Keeps(l, m) && WriteOff(m) == WriteOff(l)
  {
    hide Off, Good, Whole, Span, GoodIn;
    WholeMono(l.hist, WriteStart(l), |l.hist|, l.flushed, WriteOff(l));
  }

  lemma EvictPlaces(l: Log)
    requires Inv(l) && |l.starts| >= 2
    ensures var m := EvictOp(l);
      && Shape(m) && Places(m) && WriteStart(m) == WriteStart(l)
      && l.cursor.at <= m.cursor.at
      && (if m.cursor.at <= l.peek.at then m.peek.at == l.peek.at else m.peek.at == m.cursor.at)
  {
    hide Off, Good, Whole, Span, GoodIn, Shape, InSegment;
    var u, m, s := UnlinkOp(l, l.first + 1), EvictOp(l), l.first + 1;
    SecondSegment(l, l.cursor);
    SecondSegment(l, l.peek);
    UnlinkKeeps(l, s);
    UnlinkPlace(l, s, l.cursor);
    UnlinkPlace(l, s, l.peek);
    FirstPlace(u);
    SamePlace(u, m, m.cursor);
    SamePlace(u, m, m.peek);
    EvictWritten(l, m, l.saved);
    if l.saving.Some? { EvictWritten(l, m, l.saving.value); }
    assert Written(m, m.saved) && (m.saving.Some? ==> Written(m, m.saving.value));
  }

  /** A cursor written out before an eviction is still behind, or in a segment that
      is there. */
  lemma EvictWritten(l: Log, m: Log, p: Pos)
    requires Shape(l) && l.first < Last(l) && Written(l, p) && Behind(l.cursor, m.cursor)
    requires var u := UnlinkOp(l, l.first + 1); m.hist == u.hist && m.first == u.first && m.starts == u.starts
    ensures Shape(m) && Written(m, p)
  {
    hide InSegment;
    var u := UnlinkOp(l, l.first + 1);
    UnlinkKeeps(l, l.first + 1);
    UnlinkPlace(l, l.first + 1, p);
    if p.seg > l.first { SamePlace(u, m, p); }
  }

  lemma SecondSegment(l: Log, p: Pos)
    requires Shape(l) && InSegment(l, p) && |l.starts| >= 2
    ensures l.first + 1 <= Last(l) && Start(l, l.first + 1) == l.starts[1] <= Durable(l)
    ensures if p.seg == l.first then p.at <= l.starts[1] else l.first < p.seg && l.starts[1] <= p.at
  {
  }

  lemma FirstPlace(l: Log)
    requires Shape(l)
    ensures InSegment(l, Pos(l.first, l.starts[0]))
  {
  }

  lemma SamePlace(l: Log, m: Log, p: Pos)
    requires Shape(l) && m.hist == l.hist && m.first == l.first && m.starts == l.starts
    requires InSegment(l, p)
    ensures Shape(m) && Last(m) == Last(l) && WriteStart(m) == WriteStart(l) && InSegment(m, p)
  {
  }

  /** Where a segment begins is already durable. */
  lemma SegmentDurable(l: Log, s: nat)
    requires Shape(l) && l.first <= s <= Last(l)
    ensures Start(l, s) <= WriteStart(l) <= Durable(l)
  {
  }

  lemma EvictSafe(l: Log)
    requires Inv(l) && |l.starts| >= 2
    ensures Inv(EvictOp(l)) && Keeps(l, EvictOp(l)) && Trims(l, EvictOp(l))
  {
    hide Off, Good, Whole, Span, GoodIn, Written;
    EvictPlaces(l);
    var m := EvictOp(l);
    SpanAdd(l.hist, l.cursor.at, m.cursor.at, |l.hist|);
    if m.cursor.at <= l.peek.at {
      SpanAdd(l.hist, l.cursor.at, m.cursor.at, l.peek.at);
    }
    SpanZero(l.hist, m.cursor.at, m.cursor.at);
    SegmentDurable(l, l.first + 1);
  }

  lemma EvictFrees(l: Log)
    requires Inv(l) && |l.starts| >= 2
    ensures Shape(EvictOp(l))
    ensures Held(EvictOp(l)) + Span(l.hist, l.starts[0], l.starts[1]) == Held(l)
  {
    hide Off, Good, Whole, Span, GoodIn;
    SpanAdd(l.hist, l.starts[0], l.starts[1], |l.hist|);
  }

  lemma StoreSafe(l: Log, r: Rec, spill: nat)
    requires Inv(l) && r.good
    ensures Inv(StoreOp(l, r, spill)) && Keeps(l, StoreOp(l, r, spill))
    ensures Held(StoreOp(l, r, spill)) == Held(l) + SizeOf(r)
    ensures WriteOff(StoreOp(l, r, spill)) == WriteOff(l) + SizeOf(r)
    ensures Unread(StoreOp(l, r, spill)) == Unread(l) + 1
  {
    hide Off, Good, Span, GoodIn, Whole, Tracks;
    CursorBound(l);
    StoreSizes(l, r, spill);
    StoreTracks(l, r, spill);
    var l' := StoreOp(l, r, spill);
    assert l'.hist[..Durable(l)] == l.hist[..Durable(l)];
  }

  lemma CursorBound(l: Log)
    requires Inv(l)
    ensures l.cursor.at <= l.peek.at <= |l.hist|
  {
  }

  lemma StoreSizes(l: Log, r: Rec, spill: nat)
    requires Shape(l) && l.flushed <= WriteOff(l) && l.cursor.at <= |l.hist| && r.good
    ensures var m := StoreOp(l, r, spill);
      && Shape(m) && Held(m) == Held(l) + SizeOf(r) && WriteOff(m) == WriteOff(l) + SizeOf(r)
      && Unread(m) == Unread(l) + 1 && m.flushed <= WriteOff(m) && Durable(l) <= Durable(m)
  {
    hide Off, Good, Span, GoodIn, Whole;
    SpanGrows(l.hist, r, l.starts[0]);
    SpanGrows(l.hist, r, WriteStart(l));
    SpanGrows(l.hist, r, l.cursor.at);
    WholeStored(l, r, StoreOp(l, r, spill).flushed);
  }

  lemma StoreTracks(l: Log, r: Rec, spill: nat)
    requires Inv(l) && r.good
    ensures Shape(StoreOp(l, r, spill)) && Tracks(StoreOp(l, r, spill))
  {
    hide Off, Good, Span, GoodIn, Whole, Places, Shape, Fates;
    CursorBound(l);
    StoreSizes(l, r, spill);
    var l' := StoreOp(l, r, spill);
    PeekDurable(l);
    PlacesKept(l, l');
    FatesKept(l, l');
    assert l'.hist[..l.peek.at] == l.hist[..l.peek.at];
    SpanSame(l.hist, l'.hist, l.cursor.at, l.peek.at);
  }

  lemma WholeStored(l: Log, r: Rec, k: nat)
    requires Shape(l) && l.flushed <= k
    ensures Whole(l.hist + [r], WriteStart(l), |l.hist| + 1, k) >= Durable(l)
  {
    var g := l.hist + [r];
    assert g[..|l.hist|] == l.hist[..|l.hist|];
    var m := Durable(l);
    assert g[..m] == l.hist[..m];
    SpanSame(l.hist, g, WriteStart(l), m);
    WholeCovers(g, WriteStart(l), m, |g|, k);
  }

  lemma ConfirmSafe(l: Log, n: nat)
    requires Inv(l)
    ensures Inv(ConfirmOp(l, n)) && Keeps(l, ConfirmOp(l, n))
  {
    hide Off, Good, Whole, Span, GoodIn;
    SpanAdd(l.hist, l.cursor.at, l.peek.at, |l.hist|);
    SpanZero(l.hist, l.peek.at, l.peek.at);
  }

  lemma UnlinkSafe(l: Log, upto: nat)
    requires Inv(l) && l.first <= upto <= l.cursor.seg
    ensures Inv(UnlinkOp(l, upto)) && Keeps(l, UnlinkOp(l, upto))
    ensures Durable(UnlinkOp(l, upto)) == Durable(l)
  {
    hide Off, Good, Whole, Span, GoodIn;
    assert upto <= Last(l);
    hide Shape, InSegment;
    UnlinkKeeps(l, upto);
    UnlinkPlace(l, upto, l.cursor);
    UnlinkPlace(l, upto, l.peek);
    UnlinkPlace(l, upto, l.saved);
    if l.saving.Some? { UnlinkPlace(l, upto, l.saving.value); }
  }

  lemma SaveSafe(l: Log, ok: bool)
    requires Inv(l)
    ensures Inv(SaveOp(l, ok)) && Keeps(l, SaveOp(l, ok))
  {
    hide Off, Good, Whole, Span, GoodIn;
  }

  lemma ResetSafe(l: Log)
    requires Inv(l)
    ensures Inv(ResetOp(l)) && Keeps(l, ResetOp(l))
  {
    hide Off, Good, Whole, Span, GoodIn;
    SpanZero(l.hist, l.cursor.at, l.cursor.at);
  }

  lemma CrashSafe(l: Log, k: nat)
    requires Inv(l) && l.flushed <= k <= WriteOff(l)
    ensures Inv(CrashOp(l, k)) && Keeps(l, CrashOp(l, k))
    ensures CrashOp(l, k).cursor.at <= l.cursor.at
  {
    hide Off, Good, Whole, Span, GoodIn;
    var a := WriteStart(l);
    var m := Whole(l.hist, a, |l.hist|, k);
    var l' := CrashOp(l, k);
    WholeMono(l.hist, a, |l.hist|, l.flushed, k);
    assert l'.hist[..m] == l.hist[..m];
    SpanSame(l.hist, l'.hist, a, m);
    SpanSame(l.hist, l'.hist, l'.cursor.at, m);
    WholeAll(l'.hist, a);
    SpanZero(l'.hist, l'.cursor.at, l'.cursor.at);
  }

  // --------------------------------------------------------------- a fresh one

  ghost predicate IsFresh(l: Log) {
    && l.hist == [] && l.first == 0 && l.starts == [0] && l.flushed == 0 && !l.writerOpen
    && l.cursor == Pos(0, 0) && l.peek == l.cursor && l.saved == l.cursor && l.saving.None?
    && l.count == 0 && l.handed == 0 && l.acked == {} && l.evicted == {}
  }

  lemma FreshInv(l: Log)
    requires IsFresh(l)
    ensures Inv(l) && Held(l) == 0 && WriteOff(l) == 0
  {
    hide Off, Good, Whole, Span, GoodIn, Tracks;
    SpanZero(l.hist, 0, 0);
    FreshTracks(l);
  }

  lemma FreshTracks(l: Log)
    requires IsFresh(l)
    ensures Shape(l) && Tracks(l)
  {
    hide Off, Good, Whole, Span, GoodIn;
    SpanZero(l.hist, 0, 0);
  }
}
