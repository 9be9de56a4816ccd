/** The persistent queue of one destination, on bytes: a directory of segment
    files, a buffered writer, a persisted cursor and an in-memory reader.

    How the file system behaves is a parameter of each method.  The ghost field
    `log` names the records; `Valid` says the fields and the files represent it. */
module DiskQueues {
  import opened Naturals
  import opened Options
  import opened Records
  import opened QueueLog
  import opened QueuePush
  import opened QueuePeek
  import opened QueueBytes

  /** The queue's directory.  It outlives the process. */
  class Disk {
    var files: map<nat, seq<Byte>>
    var cursorFile: Option<Cursor>

    constructor ()
      ensures files == map[] && cursorFile == None
    {
      files, cursorFile := map[], None;
    }
  }

  class DiskQueue {
    const disk: Disk
    const cfg: Config
    const sum: Checksum

    var segments: set<nat>
    var writeSeg: nat
    var writeOff: nat
    var writeSegCount: nat
    var writer: Option<seq<Byte>>
    var cursor: Cursor
    var peek: Cursor
    var unsaved: Option<Cursor>   // the cursor held by an ack that has left the lock
    var count: nat
    var bytes: nat
    var dropped: nat
    var corrupt: nat

    ghost var log: Log

    ghost function State(): QState
      reads this, disk
    {
      QState(disk.files, disk.cursorFile, segments, writeSeg, writeOff, writeSegCount, writer, cursor, peek,
             unsaved, count, bytes)
    }

    ghost predicate Valid()
      reads this, disk
    {
      Rep(sum, State(), log)
    }

    /** Open a directory that is new, or that a process of this queue left behind
        whenever and however it died: repair the torn tail, load and clamp the
        cursor, count what is unread. */
    constructor Open(disk: Disk, cfg: Config, sum: Checksum, ghost l: Log, ghost k: nat)
      requires Image(sum, disk.files, disk.cursorFile, l, k)
            || (disk.files == map[] && disk.cursorFile == None && IsFresh(l) && k == 0)
      modifies disk
      ensures Valid() && this.disk == disk && this.cfg == cfg && this.sum == sum
      ensures Inv(l) && l.flushed <= k && log == CrashOp(l, k)
    {
      hide Image, Rep, Inv, Shape, CrashOp, IsFresh, Bytes, Scan, Span, GoodIn, SegBytes, AllGenuine, Tracks, At;
      if disk.files == map[] {
        if Image(sum, disk.files, disk.cursorFile, l, k) { ImageParts(sum, disk.files, disk.cursorFile, l, k); }
        disk.files := map[0 := []];
        FreshImage(sum, l);
      }
      ghost var files, cf := disk.files, disk.cursorFile;
      ImageParts(sum, files, cf, l, k);
      OpenedFiles(sum, files, cf, l, k);
      var segs := disk.files.Keys;
      var last, validCount := RepairTail(disk, sum, l, k);
      var c := LoadCursor(segs, last, Loaded(disk.cursorFile), l.first);
      ghost var m := CrashOp(l, k);
      var n, total := CountUnread(disk.files, segs, c, sum, m);
      this.disk, this.cfg, this.sum := disk, cfg, sum;
      segments, writeSeg, writeOff, writeSegCount := segs, last, |disk.files[last]|, validCount;
      writer, unsaved := None, None;
      cursor, peek := c, c;
      count, bytes := n, total;
      dropped, corrupt := 0, 0;
      log := m;
      new;
      SpanBytes(l.hist, WriteStart(l), Repaired(l, k));
      RepOpen(sum, files, cf, l, k, State());
    }

    /** Only the last segment can have a torn tail; cut it off. */
    static method RepairTail(disk: Disk, sum: Checksum, ghost l: Log, ghost k: nat) returns (last: nat, validCount: nat)
      requires Image(sum, disk.files, disk.cursorFile, l, k)
      modifies disk`files
      ensures Inv(l) && last == Last(l)
      ensures validCount == GoodIn(l.hist, WriteStart(l), Repaired(l, k))
      ensures disk.files == old(disk.files)[last := Bytes(l.hist, WriteStart(l), Repaired(l, k))]
    {
      hide Image, Inv, Shape, CrashOp, Bytes, Scan, Span, GoodIn;
      ImageParts(sum, disk.files, disk.cursorFile, l, k);
      assert Last(l) in disk.files.Keys && forall s :: s in disk.files.Keys ==> s <= Last(l);
      last :| last in disk.files.Keys && forall s :: s in disk.files.Keys ==> s <= last;
      var validLen, n := ScanSegment(sum, disk.files[last], 0);
      disk.files := disk.files[last := disk.files[last][..validLen]];
      validCount := n;
    }

    /** Clamp the loaded cursor to a segment that exists. */
    static method LoadCursor(segs: set<nat>, last: nat, loaded: Cursor, ghost first: nat) returns (c: Cursor)
      requires segs == Indices(first, last + 1) && first <= last
      ensures c == if loaded.seg < first then Cursor(first, 0)
                   else if loaded.seg > last then Cursor(last, 0)
                   else loaded
    {
      c := loaded;
      if loaded.seg !in segs {
        if exists s :: s in segs && s >= loaded.seg {
          assert first in segs && first >= loaded.seg && forall s :: s in segs && s >= loaded.seg ==> first <= s;
          var next: nat :| next in segs && next >= loaded.seg && forall s :: s in segs && s >= loaded.seg ==> next <= s;
          c := Cursor(next, 0);
        } else {
          assert last in segs;
          c := Cursor(last, 0);
        }
      }
    }

    /** Count the unread events and the bytes of all segment files, oldest first. */
    static method CountUnread(files: map<nat, seq<Byte>>, segs: set<nat>, c: Cursor, sum: Checksum, ghost m: Log)
      returns (count: nat, total: nat)
      requires Inv(m) && AllGenuine(sum, m.hist) && At(m, m.cursor, c)
      requires segs == files.Keys == Indices(m.first, Last(m) + 1)
      requires forall n :: m.first <= n <= Last(m) ==> files[n] == SegBytes(m, n)
      ensures m.cursor.at <= |m.hist| && count == Unread(m) && total == Held(m)
    {
      hide Tracks, Shape, At, Counted, SegBytes, Scan, Span, GoodIn, AllGenuine;
      count, total := 0, 0;
      var todo := segs;
      ghost var next := m.first;
      CountedStart(m);
      while todo != {}
        invariant m.first <= next <= Last(m) + 1 && todo == Indices(next, Last(m) + 1)
        invariant Counted(m, next, total, count)
        decreases todo
      {
        assert next in todo && forall t :: t in todo ==> next <= t;
        var seg: nat :| seg in todo && forall t :: t in todo ==> seg <= t;
        CountedStep(sum, m, seg, total, count, c);
        total := total + |files[seg]|;
        if seg >= c.seg {
          var start := if seg == c.seg then c.off else 0;
          var _, n := ScanSegment(sum, files[seg], start);
          count := count + n;
        }
        todo := todo - {seg};
        next := next + 1;
      }
      CountedAll(m, total, count);
    }

    /** The first `n` buffered bytes reach the file. */
    method FlushBytes(n: nat)
      requires Valid() && writer.Some? && n <= |writer.value|
      modifies this`writer, this`log, disk`files
      ensures Valid() && log == FlushOp(old(log), old(log.flushed) + n)
      ensures old(log.flushed) + n <= WriteOff(old(log))
      ensures writer == Some(old(writer.value)[n..])
    {
      hide Rep, FlushOp;
      RepFlush(sum, State(), log, n);
      WriterFits(sum, State(), log);
      log := FlushOp(log, log.flushed + n);
      var w := writer.value;
      disk.files := disk.files[writeSeg := disk.files[writeSeg] + w[..n]];
      writer := Some(w[n..]);
    }

    /** Flushing before a read; an error is ignored and the rest stays buffered. */
    method FlushForRead(fails: Option<nat>)
      requires Valid()
      modifies this`writer, this`log, disk`files
      ensures Valid() && Inv(old(log)) && log == FlushTry(old(log), fails)
    {
      hide Rep;
      WriterFits(sum, State(), log);
      if writer.Some? {
        var n := |writer.value|;
        if fails.Some? && n > 0 { n := Partial(fails.value, n); }
        FlushBytes(n);
      }
    }

    /** Re-derive the write segment's length and counts from what can be read back. */
    method ReconcileWriteSegment(ghost k: nat)
      requires Broken(sum, State(), log, k)
      modifies this`count, this`writeSegCount, this`bytes, this`writeOff, this`log, disk`files
      ensures Valid() && Shape(old(log)) && log == LoseTail(old(log), k)
    {
      hide Rep, Tracks, Shape, Closed, Counters, Cursors, LoseTail, Scan, Bytes, Span, GoodIn, AllGenuine, Whole;
      ghost var s := State();
      var file := disk.files[writeSeg];
      RepLoseTail(sum, s, log, k, Bytes(log.hist, WriteStart(log), Repaired(log, k)));
      var validLen, validCount := ScanSegment(sum, file, 0);
      count := Minus(count, Minus(writeSegCount, validCount));
      writeSegCount := validCount;
      disk.files := disk.files[writeSeg := file[..validLen]];
      bytes := Minus(bytes, writeOff) + validLen;
      writeOff := validLen;
      log := LoseTail(log, k);
      assert State() == s.(files := s.files[s.writeSeg := file[..validLen]], writer := None,
                           count := Minus(s.count, Minus(s.writeSegCount, validCount)),
                           writeSegCount := validCount,
                           bytes := s.bytes - s.writeOff + validLen,
                           writeOff := validLen);
    }

    /** Leave the write segment for a fresh one. */
    method RollSegment(io: RollIo) returns (ok: bool)
      requires Valid()
      modifies this`writer, this`count, this`writeSegCount, this`bytes, this`writeOff, this`writeSeg,
               this`segments, this`log, disk`files
      ensures Valid() && Inv(old(log)) && (log, ok) == TryRoll(old(log), io)
    {
      hide Rep, LoseTail, Rolled, TryRoll, Tracks, Shape, Span;
      WriterFits(sum, State(), log);
      RollOutcome(log, io);
      if writer.Some? {
        var w := writer.value;
        if io.FlushFails? && |w| > 0 {
          DiscardBuffer(Partial(io.extra, |w|));
          return false;
        }
        CloseWriter();
      }
      if io.CreateFails? {
        return false;
      }
      ghost var s := State();
      RepRoll(sum, s, log);
      var next := writeSeg + 1;
      disk.files := disk.files[next := []];
      writeSeg := next;
      writeOff := 0;
      writeSegCount := 0;
      segments := segments + {next};
      log := Rolled(log);
      ok := true;
      assert State() == s.(files := s.files[next := []], segments := s.segments + {next}, writeSeg := next,
                           writeOff := 0, writeSegCount := 0);
    }

    /** Flush and drop the writer. */
    method CloseWriter()
      requires Valid() && writer.Some?
      modifies this`writer, this`log, disk`files
      ensures Valid() && writer == None && Shape(old(log))
      ensures log == old(log).(flushed := WriteOff(old(log)), writerOpen := false)
    {
      hide Rep, Tracks, Shape, Span;
      WriterFits(sum, State(), log);
      FlushBytes(|writer.value|);
      WriterFits(sum, State(), log);
      RepClose(sum, State(), log);
      log := log.(flushed := WriteOff(log), writerOpen := false);
      writer := None;
    }

    /** A flush failed after `n` bytes: drop the rest of the buffer without
        flushing it again, and reconcile. */
    method DiscardBuffer(n: nat)
      requires Valid() && writer.Some? && n <= |writer.value|
      modifies this`writer, this`count, this`writeSegCount, this`bytes, this`writeOff, this`log, disk`files
      ensures Valid() && Shape(old(log)) && log == LoseTail(old(log), old(log.flushed) + n)
    {
      hide Rep, Tracks, Shape, Span, LoseTail, Broken;
      ghost var s := State();
      BrokenFlush(sum, s, log, n);
      disk.files := disk.files[writeSeg := disk.files[writeSeg] + writer.value[..n]];
      writer := None;
      ReconcileWriteSegment(log.flushed + n);
    }

    /** The first element of an ordered set of consecutive segment numbers. */
    static method Smallest(segs: set<nat>, ghost first: nat, ghost last: nat) returns (s: nat)
      requires segs == Indices(first, last + 1) && first <= last
      ensures s == first
    {
      assert first in segs && forall t :: t in segs ==> first <= t;
      s :| s in segs && forall t :: t in segs ==> s <= t;
    }

    /** Delete the oldest segment to reclaim space; the unread events in it are lost. */
    method DropOldestSegment(io: RollIo) returns (lost: nat, ok: bool)
      requires Valid()
      modifies this, disk`files
      ensures Valid() && Inv(old(log)) && (log, lost, ok) == DropSegment(old(log), io)
      ensures dropped == old(dropped) && corrupt == old(corrupt)
    {
      hide Rep, Inv, Tracks, Shape, TryRoll, EvictOp, Span, GoodIn, Scan, Discarded;
      DropCases(sum, State(), log, io);
      var oldest := Smallest(segments, log.first, writeSeg);
      if oldest == writeSeg {
        var rolled := RollSegment(io);
        if !rolled { return 0, false; }
      }
      lost := RemoveOldest();
      ok := true;
    }

    /** Unread events in the oldest segment; a cursor beyond it has acknowledged all of them. */
    method UnreadIn(oldest: nat) returns (n: nat)
      requires Valid() && |log.starts| >= 2 && oldest == log.first
      ensures Inv(log) && n == Discarded(log)
    {
      hide Rep, Inv, Tracks, Shape, Scan, Discarded;
      OldestFirst(sum, State(), log);
      OldestCount(sum, State(), log);
      n := 0;
      if cursor.seg <= oldest {
        var start := if cursor.seg == oldest then cursor.off else 0;
        var _, k := ScanSegment(sum, disk.files[oldest], start);
        n := k;
      }
    }

    /** The segment's file goes, with whatever unread events it holds. */
    method RemoveOldest() returns (lost: nat)
      requires Valid() && |log.starts| >= 2
      modifies this`bytes, this`segments, this`count, this`cursor, this`peek, this`log, disk`files
      ensures Valid() && Inv(old(log)) && log == EvictOp(old(log)) && lost == Discarded(old(log))
    {
      hide Rep, Inv, Tracks, Shape, EvictOp, Span, GoodIn, Scan, Discarded, Indices, Off, Good;
      ghost var s := State();
      OldestFirst(sum, s, log);
      OldestCount(sum, s, log);
      RepEvict(sum, s, log);
      var oldest := Smallest(segments, log.first, writeSeg);
      lost := UnreadIn(oldest);
      bytes := Minus(bytes, |disk.files[oldest]|);
      disk.files := disk.files - {oldest};
      segments := segments - {oldest};
      count := Minus(count, lost);
      assert segments == Indices(oldest + 1, writeSeg + 1);
      var next := Smallest(segments, oldest + 1, writeSeg);
      LeaveSegment(oldest, next);
      log := EvictOp(log);
      assert State() == s.(files := s.files - {oldest}, segments := s.segments - {oldest},
                           bytes := s.bytes - |s.files[oldest]|,
                           count := Minus(s.count, lost),
                           cursor := EvictCursor(s.cursor, oldest),
                           peek := if s.peek.seg <= oldest then EvictCursor(s.cursor, oldest) else s.peek);
    }

    /** Whatever still points into a deleted segment moves to the next one. */
    method LeaveSegment(oldest: nat, next: nat)
      requires next == oldest + 1
      modifies this`cursor, this`peek
      ensures cursor == EvictCursor(old(cursor), oldest)
      ensures peek == if old(peek).seg <= oldest then EvictCursor(old(cursor), oldest) else old(peek)
    {
      if cursor.seg <= oldest {
        cursor := Cursor(next, 0);
      }
      if peek.seg <= oldest {
        peek := cursor;
      }
    }

    /** Store a payload, honouring the full policy. */
    method Push(payload: seq<Byte>, io: PushIo) returns (res: PushResult)
      requires Valid() && 1 <= |payload| < WORD
      requires cfg.policy.DropOldest? ==> HEADER + |payload| <= cfg.maxBytes
      modifies this, disk`files
      ensures Valid() && Inv(old(log))
      ensures (log, res) == PushOp(old(log), cfg, Fresh(sum, payload), io)
      ensures dropped - old(dropped) == log.evictedGood - old(log.evictedGood) + log.rejected - old(log.rejected)
      ensures corrupt == old(corrupt)
    {
      hide Rep, Inv, Tracks, Shape, MakeRoom, WriteOp, Span;
      ghost var r := Fresh(sum, payload);
      var recLen := HEADER + |payload|;
      ghost var l := log;
      BytesHeld(sum, State(), log);
      RoomFits(l, cfg.maxBytes, r, io.evictRoll);
      var evicted := 0;
      if bytes + recLen > cfg.maxBytes {
        if cfg.policy.Block? { return Full; }
        if cfg.policy.DropNewest? {
          dropped := dropped + 1;
          RepReject(sum, State(), log);
          log := log.(rejected := log.rejected + 1);
          return Dropped;
        }
        var ok;
        evicted, ok := EvictUntilFits(recLen, io.evictRoll);
        if !ok { return Failed; }
      }
      res := WriteRecord(payload, evicted, io);
    }

    /** The drop_oldest loop. */
    method EvictUntilFits(recLen: nat, io: RollIo) returns (evicted: nat, ok: bool)
      requires Valid() && recLen <= cfg.maxBytes
      modifies this, disk`files
      ensures Valid() && Inv(old(log))
      ensures (log, evicted, ok) == MakeRoom(old(log), cfg.maxBytes, recLen, io)
      ensures dropped - old(dropped) == log.evictedGood - old(log.evictedGood) && log.rejected == old(log.rejected)
      ensures corrupt == old(corrupt)
    {
      hide Rep, Inv, Tracks, Shape, DropSegment, Span;
      ghost var l := log;
      evicted, ok := 0, true;
      BytesHeld(sum, State(), log);
      while bytes + recLen > cfg.maxBytes
        invariant Valid() && Inv(log) && Shape(log) && bytes == Held(log)
        invariant Inv(l)
        invariant var (m, n, done) := MakeRoom(log, cfg.maxBytes, recLen, io);
          MakeRoom(l, cfg.maxBytes, recLen, io) == (m, evicted + n, done)
        invariant dropped - old(dropped) == log.evictedGood - l.evictedGood && log.rejected == l.rejected
        invariant corrupt == old(corrupt)
        decreases Held(log), |log.starts|
      {
        ghost var before := log;
        DropCounts(log, io);
        var n, done := DropOldestSegment(io);
        BytesHeld(sum, State(), log);
        if !done { return evicted + n, false; }
        DropSegmentProgress(before, io);
        dropped := dropped + n;
        evicted := evicted + n;
      }
    }

    /** Append the record through the buffered writer, and roll when the segment is long enough. */
    method WriteRecord(payload: seq<Byte>, evicted: nat, io: PushIo) returns (res: PushResult)
      requires Valid() && 1 <= |payload| < WORD
      modifies this`segments, this`writeSeg, this`writeOff, this`writeSegCount, this`writer, this`count, this`bytes,
               this`log, disk`files
      ensures Valid() && Inv(old(log))
      ensures (log, res) == WriteOp(old(log), cfg.segBytes, Fresh(sum, payload), evicted, io)
      ensures log.evictedGood == old(log.evictedGood) && log.rejected == old(log.rejected)
    {
      hide Rep, Inv, Tracks, Shape, TryRoll, LoseTail, StoreOp, Span, Encode;
      ghost var l, r := log, Fresh(sum, payload);
      WriterFits(sum, State(), log);
      WriteCases(sum, State(), log, cfg.segBytes, r, evicted, io);
      if writer.None? {
        if !io.canOpen { return Failed; }
      }
      var rec := Le32(|payload| % WORD) + Le32(sum(payload)) + payload;
      FreshBytes(sum, payload);
      var all := Pending(writer) + rec;
      EncodedFields(r);
      match io.write {
        case WriteFails(extra) =>
          DiscardWrite(all, Partial(extra, |all|), r);
          var _ := RollSegment(io.roll);
          return Failed;
        case Wrote(spill) =>
          Append(all, Min(spill, |all|), |rec|, r);
          var rolled := true;
          if writeOff >= cfg.segBytes { rolled := RollSegment(io.roll); }
          res := if rolled then Stored(evicted) else Failed;
      }
    }

    /** The write failed with `n` bytes of buffer and record in the file. */
    method DiscardWrite(all: seq<Byte>, n: nat, ghost r: Rec)
      requires Valid() && Genuine(sum, r) && all == Pending(writer) + Encode(r) && n < |all|
      modifies this`writer, this`count, this`writeSegCount, this`bytes, this`writeOff, this`log, disk`files
      ensures Valid() && Shape(old(log)) && log == LoseTail(old(log), old(log.flushed) + n)
    {
      hide Rep, Tracks, Shape, Span, LoseTail, Broken, Encode;
      EncodedFields(r);
      WriterFits(sum, State(), log);
      BrokenWrite(sum, State(), log, r, n);
      disk.files := disk.files[writeSeg := disk.files[writeSeg] + all[..n]];
      writer := None;
      ReconcileWriteSegment(log.flushed + n);
    }

    /** The write succeeded, with `n` bytes of buffer and record already in the file. */
    method Append(all: seq<Byte>, n: nat, recLen: nat, ghost r: Rec)
      requires Valid() && r.good && Genuine(sum, r)
      requires all == Pending(writer) + Encode(r) && n <= |all| && recLen == SizeOf(r)
      modifies this`writeOff, this`writeSegCount, this`writer, this`count, this`bytes, this`log, disk`files
      ensures Valid() && Inv(old(log)) && log == StoreOp(old(log), r, n) && Shape(log) && writeOff == WriteOff(log)
    {
      hide Rep, Inv, Tracks, Shape, Span, Encode, StoreOp, Off, Good;
      ghost var s := State();
      WriterFits(sum, s, log);
      BytesHeld(sum, s, log);
      RepStore(sum, s, log, r, all, n);
      disk.files := disk.files[writeSeg := disk.files[writeSeg] + all[..n]];
      writer := Some(all[n..]);
      writeOff := writeOff + recLen;
      bytes := bytes + recLen;
      count := count + 1;
      writeSegCount := writeSegCount + 1;
      log := StoreOp(log, r, n);
      assert State() == s.(files := s.files[s.writeSeg := s.files[s.writeSeg] + all[..n]], writer := Some(all[n..]),
                           writeOff := s.writeOff + SizeOf(r), bytes := s.bytes + SizeOf(r),
                           count := s.count + 1, writeSegCount := s.writeSegCount + 1);
      BytesHeld(sum, State(), log);
    }

    /** Hand out the next events, at most `max` of them and `maxBytes` of record
        bytes, but always one when one is readable. */
    method PeekBatch(fails: Option<nat>, max: nat, maxBytes: nat) returns (out: seq<seq<Byte>>)
      requires Valid()
      modifies this`writer, this`peek, this`corrupt, this`log, disk`files
      ensures Valid() && Inv(old(log)) && log == PeekOp(old(log), fails, max, maxBytes)
      ensures old(log.peek.at) <= log.peek.at <= |log.hist|
      ensures out == Payloads(log.hist, old(log.peek.at), log.peek.at)
      ensures corrupt - old(corrupt) == log.peek.at - old(log.peek.at) - |out|
    {
      hide Rep, Tracks, Shape, Walk, FlushTry, Whole, Span, GoodIn, At, Payloads, MovePeek, InSegment, Readable;
      WriterFits(sum, State(), log);
      FlushKeepsPeek(log, fails);
      FlushForRead(fails);
      ghost var l := log;
      PeekBegins(sum, State(), l);
      ghost var p;
      var pos, bad;
      out, pos, bad, p := ReadAhead(max, maxBytes);
      RepMovePeek(sum, State(), l, p, pos);
      peek := pos;
      corrupt := corrupt + bad;
      log := MovePeek(l, p);
      MovedPeek(l, p);
    }

    /** The segments from the peek position on, in order, until a limit is reached. */
    method ReadAhead(max: nat, maxBytes: nat)
      returns (out: seq<seq<Byte>>, pos: Cursor, bad: nat, ghost p: Pos)
      requires Valid() && Inv(log)
      requires log.first <= log.peek.seg <= Last(log) && log.peek.at <= Readable(log, log.peek.seg)
      ensures p == Walk(log, max, maxBytes, log.peek.seg, log.peek, Batch(log.peek.at, 0, 0, false)).0
      ensures log.peek.at <= p.at <= |log.hist| && InSegment(log, p) && Behind(log.peek, p) && p.at <= Durable(log)
      ensures At(log, p, pos)
      ensures out == Payloads(log.hist, log.peek.at, p.at) && bad == p.at - log.peek.at - |out|
    {
      hide Rep, Tracks, Shape, Walk, Take, Whole, Span, GoodIn, At, Payloads, InSegment, Readable;
      ghost var l := log;
      PeekBegins(sum, State(), l);
      p := l.peek;
      ghost var goal := Walk(l, max, maxBytes, p.seg, p, Batch(p.at, 0, 0, false)).0;
      out := [];
      var peekedBytes, budgetHit := 0, false;
      pos, bad := peek, 0;
      var seg := pos.seg;
      while seg <= writeSeg && |out| < max && !budgetHit
        invariant Reading(l, max, seg, p, pos, |out|, budgetHit)
        invariant Walk(l, max, maxBytes, seg, p, Batch(p.at, |out|, peekedBytes, budgetHit)).0 == goal
        invariant out == Payloads(l.hist, l.peek.at, p.at) && bad == p.at - l.peek.at - |out|
        decreases writeSeg + 1 - seg
      {
        WalkOn(l, max, maxBytes, seg, p, pos, Batch(p.at, |out|, peekedBytes, budgetHit));
        TakeEnds(l.hist, Readable(l, seg), max, maxBytes, Batch(p.at, |out|, peekedBytes, false));
        var start := if seg == pos.seg then pos.off else 0;
        ghost var at;
        var got, off, n;
        got, off, peekedBytes, budgetHit, n, at := ReadSegment(seg, start, p.at, max, maxBytes, |out|, peekedBytes);
        ReadingOn(l, max, seg, p, pos, |out|, |got|, at, off, budgetHit);
        PayloadsSplit(l.hist, l.peek.at, p.at, at);
        out, bad := out + got, bad + n;
        p, pos := Pos(seg, at), Cursor(seg, off);
        seg := seg + 1;
      }
      WalkDone(l, max, maxBytes, seg, p, pos, Batch(p.at, |out|, peekedBytes, budgetHit));
    }

    /** The records of one segment, until a limit is reached. */
    method ReadSegment(seg: nat, start: nat, ghost from: nat, max: nat, maxBytes: nat, have: nat, used: nat)
      returns (out: seq<seq<Byte>>, off: nat, bytesNow: nat, hit: bool, bad: nat, ghost at: nat)
      requires Valid() && Shape(log) && log.first <= seg <= Last(log)
      requires Start(log, seg) <= from <= Readable(log, seg) && start == Span(log.hist, Start(log, seg), from)
      ensures from <= at <= Readable(log, seg) && off == Span(log.hist, Start(log, seg), at)
      ensures Take(log.hist, Readable(log, seg), max, maxBytes, Batch(from, have, used, false))
              == Batch(at, have + |out|, bytesNow, hit)
      ensures out == Payloads(log.hist, from, at) && bad == at - from - |out|
    {
      hide Rep, Tracks, Shape, Whole, Span, GoodIn, Readable, ReadRecord, Payloads;
      ghost var lim := Readable(log, seg);
      ghost var goal := Take(log.hist, lim, max, maxBytes, Batch(from, have, used, false));
      SegmentReadable(log, seg);
      EmptyPayloads(log.hist, from);
      ReadAt(sum, State(), log, seg, from);
      var file := disk.files[seg];
      out, off, bytesNow, hit, bad, at := [], start, used, false, 0, from;
      while have + |out| < max
        invariant from <= at <= lim && !hit && off == Span(log.hist, Start(log, seg), at)
        invariant Take(log.hist, lim, max, maxBytes, Batch(at, have + |out|, bytesNow, false)) == goal
        invariant out == Payloads(log.hist, from, at) && bad == at - from - |out|
        decreases lim - at
      {
        ReadAt(sum, State(), log, seg, at);
        if at < lim { NextRecord(log.hist, Start(log, seg), from, at); }
        match ReadRecord(sum, file, off, |file|) {
          case Found(payload, recLen) =>
            if have + |out| > 0 && bytesNow + recLen > maxBytes {
              hit := true;
              return;
            }
            off, bytesNow, at := off + recLen, bytesNow + recLen, at + 1;
            out := out + [payload];
          case Corrupt(skip) =>
            off, bad, at := off + skip, bad + 1, at + 1;
          case Eof =>
            return;
        }
      }
    }

    /** The locked section of ack: everything handed out is confirmed, and the
        segments wholly behind the cursor are deleted.  The cursor to be persisted
        is kept in `unsaved` while the lock is released. */
    method AckLocked(acked: nat)
      requires Valid()
      modifies this`cursor, this`count, this`unsaved, this`bytes, this`segments, this`log, disk`files
      ensures Valid() && Inv(old(log)) && log == AckOp(old(log), acked)
      ensures cursor == old(peek) && unsaved == Some(cursor) && count == Minus(old(count), acked)
    {
      hide Rep, Inv, Tracks, Shape, ConfirmOp, UnlinkOp, Span, GoodIn, Indices, Off, Good, AckOp;
      ghost var l := log;
      WriterFits(sum, State(), log);
      AckBegins(sum, State(), l, acked);
      ghost var c := ConfirmOp(l, acked);
      Confirm(acked);
      var done := set s | s in segments && s < cursor.seg && s != writeSeg;
      ghost var upto := l.first;
      UnlinkNone(c);
      assert done == Indices(upto, cursor.seg);
      while done != {}
        invariant Valid() && l.first <= upto <= c.cursor.seg <= Last(c) && log == UnlinkOp(c, upto) && Shape(c)
        invariant done == Indices(upto, cursor.seg) && cursor.seg == c.cursor.seg
        invariant cursor == old(peek) && unsaved == Some(cursor) && count == Minus(old(count), acked)
        decreases done
      {
        var seg := Smallest(done, upto, cursor.seg - 1);
        UnlinkAgain(c, upto);
        UnlinkOldest(seg);
        upto := upto + 1;
        done := done - {seg};
      }
      assert upto !in Indices(upto, cursor.seg);
    }

    /** Everything handed out counts as delivered. */
    method Confirm(acked: nat)
      requires Valid()
      modifies this`cursor, this`count, this`unsaved, this`log
      ensures Valid() && Inv(old(log)) && log == ConfirmOp(old(log), acked)
      ensures cursor == peek && unsaved == Some(peek) && count == Minus(old(count), acked)
    {
      hide Rep, Inv, Tracks, Shape, ConfirmOp, Span, GoodIn;
      WriterFits(sum, State(), log);
      RepConfirm(sum, State(), log, acked);
      cursor := peek;
      count := Minus(count, acked);
      unsaved := Some(peek);
      log := ConfirmOp(log, acked);
    }

    /** Delete the oldest segment, all of it behind the cursor. */
    method UnlinkOldest(seg: nat)
      requires Valid() && seg == log.first < log.cursor.seg
      modifies this`bytes, this`segments, this`log, disk`files
      ensures Valid() && Shape(old(log)) && seg + 1 <= Last(old(log)) && log == UnlinkOp(old(log), seg + 1)
    {
      hide Rep, Tracks, Shape, Span, GoodIn, UnlinkOp;
      ghost var s := State();
      BytesHeld(sum, s, log);
      RepUnlink(sum, s, log);
      bytes := Minus(bytes, |disk.files[seg]|);
      disk.files := disk.files - {seg};
      segments := segments - {seg};
      log := UnlinkOp(log, seg + 1);
      assert State() == s.(files := s.files - {seg}, segments := s.segments - {seg},
                           bytes := s.bytes - |s.files[seg]|);
    }

    /** The rest of ack, outside the lock: write cursor.json.  A failed write leaves the old one. */
    method PersistCursor(ok: bool)
      requires Valid()
      modifies this`unsaved, this`log, disk`cursorFile
      ensures Valid() && log == SaveOp(old(log), ok)
      ensures disk.cursorFile == if ok && old(unsaved).Some? then old(unsaved) else old(disk.cursorFile)
      ensures unsaved.None?
    {
      hide Rep, SaveOp;
      RepSave(sum, State(), log, ok);
      if ok && unsaved.Some? {
        disk.cursorFile := unsaved;
      }
      unsaved := None;
      log := SaveOp(log, ok);
    }

    /** Forget what was handed out, so the next peek reads it again. */
    method ResetPeek()
      requires Valid()
      modifies this`peek, this`log
      ensures Valid() && log == ResetOp(old(log)) && peek == cursor
    {
      hide Rep, ResetOp;
      RepReset(sum, State(), log);
      peek := cursor;
      log := ResetOp(log);
    }

    /** The test `wait_data` sleeps on.  When it says no, either the count has
        drifted or no good record is left to hand out. */
    method DataReady() returns (has: bool)
      requires Valid()
      ensures Inv(log) && log.peek.at <= |log.hist|
      ensures Shape(log) && has == (log.peek != Pos(Last(log), |log.hist|) && log.count > 0)
      ensures !has && log.count == Unread(log) ==> GoodIn(log.hist, log.peek.at, |log.hist|) == 0
    {
      hide Rep, Tracks, Shape, Span, GoodIn;
      EndOfData(sum, State(), log);
      has := peek != Cursor(writeSeg, writeOff) && count > 0;
    }

    /** The process dies in the middle of a write, with the first `n` bytes of buffer
        and record in the file, before anything was repaired, and another one opens
        the directory: as if the record had been stored and not all of it flushed. */
    static method DieWritingAndReopen(q: DiskQueue, payload: seq<Byte>, n: nat) returns (r: DiskQueue)
      requires q.Valid() && 1 <= |payload| < WORD
      requires n <= |Pending(q.writer)| + HEADER + |payload|
      modifies q.disk
      ensures r.Valid() && r.disk == q.disk && Inv(old(q.log))
      ensures var m := StoreOp(old(q.log), Fresh(q.sum, payload), n);
        Inv(m) && m.flushed == old(q.log.flushed) + n && r.log == CrashOp(m, m.flushed)
    {
      hide Rep, Image, CrashOp, Tracks, Shape, Span, StoreOp, Encode;
      ghost var l, rec := q.log, Fresh(q.sum, payload);
      FreshBytes(q.sum, payload);
      EncodedFields(rec);
      var all := Pending(q.writer) + (Le32(|payload| % WORD) + Le32(q.sum(payload)) + payload);
      WriterFits(q.sum, q.State(), l);
      TornWriteLeavesImage(q.sum, q.State(), l, rec, all, n);
      StoreSafe(l, rec, n);
      StoreFlushes(l, rec, n);
      ghost var m := StoreOp(l, rec, n);
      q.disk.files := q.disk.files[q.writeSeg := q.disk.files[q.writeSeg] + all[..n]];
      r := new DiskQueue.Open(q.disk, q.cfg, q.sum, m, m.flushed);
    }

    /** The process dies with `n` more buffered bytes in the file, and another one
        opens the directory. */
    static method DieAndReopen(q: DiskQueue, n: nat) returns (r: DiskQueue)
      requires q.Valid() && n <= |Pending(q.writer)|
      modifies q.disk
      ensures r.Valid() && r.disk == q.disk && Inv(old(q.log)) && old(q.log.flushed) + n <= WriteOff(old(q.log))
      ensures r.log == CrashOp(old(q.log), old(q.log.flushed) + n)
    {
      hide Rep, Image, CrashOp, Tracks, Shape, Span;
      ghost var l := q.log;
      WriterFits(q.sum, q.State(), l);
      CrashLeavesImage(q.sum, q.State(), l, n);
      q.disk.files := q.disk.files[q.writeSeg := q.disk.files[q.writeSeg] + Pending(q.writer)[..n]];
      r := new DiskQueue.Open(q.disk, q.cfg, q.sum, l, l.flushed + n);
    }
  }
}
