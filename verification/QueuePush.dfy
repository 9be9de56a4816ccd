/** Pushing a record: making room by the full policy, the buffered write and its
    failures, and rolling to a new segment. */
module QueuePush {
  import opened Naturals
  import opened Options
  import opened Records
  import opened QueueLog

  lemma TrimsTrans(l: Log, m: Log, n: Log)
    requires Inv(l) && Inv(m) && Inv(n) && Trims(l, m) && Trims(m, n)
    ensures Trims(l, n)
  {
    hide Off, Good, Whole, Span, GoodIn;
    assert Indices(l.cursor.at, n.cursor.at)
        == Indices(l.cursor.at, m.cursor.at) + Indices(m.cursor.at, n.cursor.at);
  }

  lemma RollTrims(l: Log, io: RollIo)
    requires Inv(l) && TryRoll(l, io).1
    ensures Inv(TryRoll(l, io).0) && Trims(l, TryRoll(l, io).0)
    ensures Held(TryRoll(l, io).0) == Held(l)
    ensures TryRoll(l, io).0.hist == l.hist && TryRoll(l, io).0.first == l.first
    ensures TryRoll(l, io).0.starts == l.starts + [|l.hist|]
    ensures TryRoll(l, io).0.evictedGood == l.evictedGood
  {
    hide Off, Good, Whole, Span, GoodIn;
    TryRollSafe(l, io);
    assert Indices(l.cursor.at, l.cursor.at) == {};
  }

  /** Discard one segment; a lone write segment is first rolled away from. */
  ghost function DropSegment(l: Log, io: RollIo): (r: (Log, nat, bool))
    requires Inv(l)
    ensures Inv(r.0)
  {
    TryRollSafe(l, io);
    var (m, ok) := if |l.starts| == 1 then TryRoll(l, io) else (l, true);
    if !ok then (m, 0, false) else EvictSafe(m); (EvictOp(m), Discarded(m), true)
  }

  lemma SelfSafe(l: Log)
    requires Inv(l)
    ensures Keeps(l, l) && Trims(l, l)
  {
    hide Off, Good, Whole, Span, GoodIn;
    assert Indices(l.cursor.at, l.cursor.at) == {};
  }

  lemma DropSegmentSafe(l: Log, io: RollIo)
    requires Inv(l)
    ensures var (m, n, ok) := DropSegment(l, io);
      && Keeps(l, m)
      && (ok ==> Trims(l, m) && n == m.evictedGood - l.evictedGood)
      && (io.RollOk? ==> ok)
  {
    hide Tracks, TryRoll, EvictOp, Trims, Keeps, Discarded, Span, Whole;
    TryRollSafe(l, io);
    var (m, ok) := if |l.starts| == 1 then TryRoll(l, io) else (l, true);
    if ok {
      SelfSafe(l);
      if |l.starts| == 1 { RollTrims(l, io); }
      EvictSafe(m);
      EvictCounts(m);
      KeepsTrans(l, m, EvictOp(m));
      TrimsTrans(l, m, EvictOp(m));
    }
  }

  lemma EvictCounts(l: Log)
    requires Inv(l) && |l.starts| >= 2
    ensures EvictOp(l).evictedGood == l.evictedGood + Discarded(l)
  {
  }

  /** The loop makes progress: bytes, then segments. */
  lemma DropSegmentProgress(l: Log, io: RollIo)
    requires Inv(l) && DropSegment(l, io).2
    ensures var m := DropSegment(l, io).0;
      Held(m) < Held(l) || (Held(m) == Held(l) && (Held(l) > 0 ==> |m.starts| < |l.starts|))
  {
    hide Tracks, TryRoll, Trims, Keeps, Discarded, Whole, Off;
    TryRollSafe(l, io);
    var (m, ok) := if |l.starts| == 1 then TryRoll(l, io) else (l, true);
    if |l.starts| == 1 { RollTrims(l, io); }
    EvictFrees(m);
    SpanZero(l.hist, m.starts[0], m.starts[1]);
  }

  /** Discard until `need` more bytes fit. */
  ghost function MakeRoom(l: Log, maxBytes: nat, need: nat, io: RollIo): (r: (Log, nat, bool))
    requires Inv(l) && need <= maxBytes
    ensures Inv(r.0)
    decreases Held(l), |l.starts|
  {
    hide Tracks, Span, DropSegment;
    if Held(l) + need <= maxBytes then (l, 0, true)
    else
      var (m, n, ok) := DropSegment(l, io);
      if !ok then (m, n, false)
      else
        DropSegmentProgress(l, io);
        var (rest, k, done) := MakeRoom(m, maxBytes, need, io);
        (rest, n + k, done)
  }

  lemma {:induction false} MakeRoomSafe(l: Log, maxBytes: nat, need: nat, io: RollIo)
    requires Inv(l) && need <= maxBytes
    ensures var (m, n, ok) := MakeRoom(l, maxBytes, need, io);
      && Keeps(l, m)
      && (ok ==> Trims(l, m) && n == m.evictedGood - l.evictedGood && Held(m) + need <= maxBytes)
      && (io.RollOk? ==> ok)
    decreases Held(l), |l.starts|
  {
    hide Tracks, Span, DropSegment, Trims, Keeps, Whole;
    if Held(l) + need <= maxBytes {
      SelfSafe(l);
    } else {
      DropSegmentSafe(l, io);
      var (m, n, ok) := DropSegment(l, io);
      if ok {
        DropSegmentProgress(l, io);
        MakeRoomSafe(m, maxBytes, need, io);
        var (rest, k, done) := MakeRoom(m, maxBytes, need, io);
        KeepsTrans(l, m, rest);
        if done { TrimsTrans(l, m, rest); }
      }
    }
  }

  predicate Fits(l: Log, maxBytes: nat, r: Rec)
    requires Shape(l)
  {
    Held(l) + SizeOf(r) <= maxBytes
  }

  predicate FaultFree(io: PushIo) {
    io.evictRoll.RollOk? && io.canOpen && io.write.Wrote? && io.roll.RollOk?
  }

  /** The write itself, once there is room: store, or lose the unflushed tail. */
  ghost function WriteOp(l: Log, segBytes: nat, r: Rec, evicted: nat, io: PushIo): (Log, PushResult)
    requires Inv(l) && r.good
  {
    if !l.writerOpen && !io.canOpen then (l, Failed)
    else
      match io.write
      case WriteFails(extra) =>
        var m := LoseTail(l, l.flushed + Partial(extra, WriteOff(l) - l.flushed + SizeOf(r)));
        LoseTailSafe(l, l.flushed + Partial(extra, WriteOff(l) - l.flushed + SizeOf(r)));
        (TryRoll(m, io.roll).0, Failed)
      case Wrote(spill) =>
        var m := StoreOp(l, r, spill);
        StoreSafe(l, r, spill);
        if WriteOff(m) < segBytes then (m, Stored(evicted))
        else
          var (n, ok) := TryRoll(m, io.roll);
          (n, if ok then Stored(evicted) else Failed)
  }

  ghost function PushOp(l: Log, cfg: Config, r: Rec, io: PushIo): (Log, PushResult)
    requires Inv(l) && r.good
    requires cfg.policy.DropOldest? ==> SizeOf(r) <= cfg.maxBytes
  {
    if !Fits(l, cfg.maxBytes, r) && cfg.policy.Block? then (l, Full)
    else if !Fits(l, cfg.maxBytes, r) && cfg.policy.DropNewest? then
      (l.(rejected := l.rejected + 1), Dropped)
    else
      var (m, n, ok) := MakeRoom(l, cfg.maxBytes, SizeOf(r), io.evictRoll);
      if ok then WriteOp(m, cfg.segBytes, r, n, io) else (m, Failed)
  }

  lemma WriteSafe(l: Log, segBytes: nat, r: Rec, evicted: nat, io: PushIo)
    requires Inv(l) && r.good
    ensures var (m, res) := WriteOp(l, segBytes, r, evicted, io);
      && Inv(m) && Keeps(l, m)
      && (res == Stored(evicted) || res == Failed)
  {
    hide Tracks, TryRoll, LoseTail, StoreOp, Keeps, Span, Whole;
    SelfSafe(l);
    if l.writerOpen || io.canOpen {
      match io.write
      case WriteFails(extra) =>
        var k := l.flushed + Partial(extra, WriteOff(l) - l.flushed + SizeOf(r));
        LoseTailSafe(l, k);
        TryRollSafe(LoseTail(l, k), io.roll);
        KeepsTrans(l, LoseTail(l, k), TryRoll(LoseTail(l, k), io.roll).0);
      case Wrote(spill) =>
        StoreSafe(l, r, spill);
        TryRollSafe(StoreOp(l, r, spill), io.roll);
        KeepsTrans(l, StoreOp(l, r, spill), TryRoll(StoreOp(l, r, spill), io.roll).0);
    }
  }

  /** A successful write appends exactly the record. */
  lemma WriteStores(l: Log, segBytes: nat, r: Rec, evicted: nat, io: PushIo)
    requires Inv(l) && r.good
    ensures var (m, res) := WriteOp(l, segBytes, r, evicted, io);
      && (io.canOpen && io.write.Wrote? && io.roll.RollOk? ==> res.Stored?)
      && (res.Stored? ==> Appends(l, m, r) && (segBytes > 0 ==> WriteOff(m) < segBytes))
  {
    hide Tracks, LoseTail, Whole, Off;
    if l.writerOpen || io.canOpen {
      match io.write
      case WriteFails(extra) =>
      case Wrote(spill) =>
        StoreSafe(l, r, spill);
        var m := StoreOp(l, r, spill);
        if WriteOff(m) >= segBytes && TryRoll(m, io.roll).1 {
          RollTrims(m, io.roll);
          SpanZero(m.hist, |m.hist|, |m.hist|);
        }
    }
  }

  /** One record was added at the end, and the reader did not move. */
  ghost predicate Appends(l: Log, m: Log, r: Rec)
    requires Inv(l)
  {
    && Shape(m)
    && m.hist == l.hist + [r]
    && Held(m) == Held(l) + SizeOf(r)
    && m.count == l.count + 1
    && m == l.(hist := m.hist, starts := m.starts, flushed := m.flushed, writerOpen := m.writerOpen,
               count := m.count)
  }

  lemma PushSafe(l: Log, cfg: Config, r: Rec, io: PushIo)
    requires Inv(l) && r.good
    requires cfg.policy.DropOldest? ==> SizeOf(r) <= cfg.maxBytes
    ensures var m := PushOp(l, cfg, r, io).0; Inv(m) && Keeps(l, m)
  {
    hide Tracks, WriteOp, MakeRoom, Keeps, Span, Whole;
    SelfSafe(l);
    if Fits(l, cfg.maxBytes, r) || cfg.policy.DropOldest? {
      MakeRoomSafe(l, cfg.maxBytes, SizeOf(r), io.evictRoll);
      var (m, n, ok) := MakeRoom(l, cfg.maxBytes, SizeOf(r), io.evictRoll);
      if ok {
        WriteSafe(m, cfg.segBytes, r, n, io);
        KeepsTrans(l, m, WriteOp(m, cfg.segBytes, r, n, io).0);
      }
    } else {
      RejectSafe(l);
    }
  }

  lemma RejectSafe(l: Log)
    requires Inv(l)
    ensures Inv(l.(rejected := l.rejected + 1)) && Keeps(l, l.(rejected := l.rejected + 1))
  {
    hide Off, Good, Whole, Span, GoodIn, SizeOf, Tracks;
    RejectTracks(l);
  }

  lemma RejectTracks(l: Log)
    requires Inv(l)
    ensures var m := l.(rejected := l.rejected + 1); Shape(m) && Tracks(m)
  {
    hide Whole, Span, GoodIn, InSegment, Written, Shape;
    var m := l.(rejected := l.rejected + 1);
    SamePlaces(l, m);
    assert Unread(m) == Unread(l) && InFlight(m) == InFlight(l) && Durable(m) == Durable(l);
  }

  lemma SamePlaces(l: Log, m: Log)
    requires Shape(l) && Places(l)
    requires m.hist == l.hist && m.first == l.first && m.starts == l.starts && m.flushed == l.flushed
    requires m.cursor == l.cursor && m.peek == l.peek && m.saved == l.saved && m.saving == l.saving
    ensures Shape(m) && Places(m)
  {
    hide Whole, Span, InSegment, Shape;
    SamePlaceOf(l, m, l.cursor);
    SamePlaceOf(l, m, l.peek);
    SamePlaceOf(l, m, l.saved);
    if l.saving.Some? { SamePlaceOf(l, m, l.saving.value); }
  }

  lemma SamePlaceOf(l: Log, m: Log, p: Pos)
    requires Shape(l) && m.hist == l.hist && m.first == l.first && m.starts == l.starts && m.flushed == l.flushed
    ensures Shape(m) && Durable(m) == Durable(l)
    ensures InSegment(m, p) <==> InSegment(l, p)
  {
    hide Whole, Span;
  }

  // -------------------------------------------------- what a push comes to

  /** The queue as a FIFO: a push appends, and whatever it discarded to make room
      is the oldest part of what was unread, counted exactly. */
  lemma PushStores(l: Log, cfg: Config, r: Rec, io: PushIo)
    requires Inv(l) && r.good
    requires cfg.policy.DropOldest? ==> SizeOf(r) <= cfg.maxBytes
    ensures var (m, res) := PushOp(l, cfg, r, io);
      && (res.Stored? ==>
            && Inv(m)
            && m.hist == l.hist + [r]
            && l.cursor.at <= m.cursor.at <= |l.hist|
            && res.evicted == GoodIn(l.hist, l.cursor.at, m.cursor.at)
            && m.evictedGood == l.evictedGood + res.evicted
            && Held(m) <= cfg.maxBytes
            && (cfg.segBytes > 0 ==> WriteOff(m) < cfg.segBytes)
            && (l.cursor == m.cursor || cfg.policy.DropOldest?))
      && (FaultFree(io) ==> res != Failed)
  {
    hide Tracks, WriteOp, MakeRoom, Keeps, Span, Whole, GoodIn;
    PushSafe(l, cfg, r, io);
    if Fits(l, cfg.maxBytes, r) || cfg.policy.DropOldest? {
      MakeRoomSafe(l, cfg.maxBytes, SizeOf(r), io.evictRoll);
      var (m, n, ok) := MakeRoom(l, cfg.maxBytes, SizeOf(r), io.evictRoll);
      if ok {
        WriteSafe(m, cfg.segBytes, r, n, io);
        WriteStores(m, cfg.segBytes, r, n, io);
        CursorBounds(m);
        SpanAdd(l.hist, l.cursor.at, m.cursor.at, |l.hist|);
        assert n == GoodIn(l.hist, l.cursor.at, m.cursor.at);
        if Fits(l, cfg.maxBytes, r) { RoomAlready(l, cfg.maxBytes, r, io.evictRoll); }
      }
    }
  }

  lemma RoomAlready(l: Log, maxBytes: nat, r: Rec, io: RollIo)
    requires Inv(l) && Fits(l, maxBytes, r)
    ensures MakeRoom(l, maxBytes, SizeOf(r), io) == (l, 0, true)
  {
  }

  lemma CursorBounds(l: Log)
    requires Inv(l)
    ensures l.cursor.at <= l.peek.at <= Durable(l) <= |l.hist|
  {
  }

  /** When the queue refuses, it refuses for want of room and changes nothing. */
  lemma PushRefuses(l: Log, cfg: Config, r: Rec, io: PushIo)
    requires Inv(l) && r.good
    requires cfg.policy.DropOldest? ==> SizeOf(r) <= cfg.maxBytes
    ensures var (m, res) := PushOp(l, cfg, r, io);
      && (res.Full? <==> cfg.policy.Block? && !Fits(l, cfg.maxBytes, r))
      && (res.Dropped? <==> cfg.policy.DropNewest? && !Fits(l, cfg.maxBytes, r))
      && (res.Full? ==> m == l)
      && (res.Dropped? ==> m == l.(rejected := l.rejected + 1))
  {
    hide Tracks, WriteOp, MakeRoom, Keeps, Span, Whole, GoodIn;
    if Fits(l, cfg.maxBytes, r) || cfg.policy.DropOldest? {
      MakeRoomSafe(l, cfg.maxBytes, SizeOf(r), io.evictRoll);
      var (m, n, ok) := MakeRoom(l, cfg.maxBytes, SizeOf(r), io.evictRoll);
      if ok { WriteSafe(m, cfg.segBytes, r, n, io); }
    }
  }

  // ------------------------------------------ how room is made, seen beforehand

  /** Where the queue starts once whole segments are discarded from the front until
      `need` more bytes fit; past everything if not even the last one may stay. */
  function RoomAt(h: seq<Rec>, starts: seq<nat>, maxBytes: nat, need: nat): (at: nat)
    requires forall i :: 0 <= i < |starts| ==> starts[i] <= |h|
    ensures at <= |h|
  {
    if starts == [] then |h|
    else if Span(h, starts[0], |h|) + need <= maxBytes then starts[0]
    else RoomAt(h, starts[1..], maxBytes, need)
  }

  /** The write segment can be left for a fresh one. */
  predicate Rolls(l: Log, io: RollIo)
    requires Shape(l)
  {
    !io.CreateFails? && (io.FlushFails? ==> !l.writerOpen || l.flushed >= WriteOff(l))
  }

  /** The write segment may stay when `need` bytes are to be added. */
  predicate TailFits(l: Log, maxBytes: nat, need: nat)
    requires Shape(l)
  {
    WriteOff(l) + need <= maxBytes
  }

  predicate RoomMade(l: Log, maxBytes: nat, need: nat, io: RollIo)
    requires Shape(l)
  {
    TailFits(l, maxBytes, need) || Rolls(l, io)
  }

  /** Where the loop leaves off discarding. */
  function RoomEnd(l: Log, maxBytes: nat, need: nat, io: RollIo): nat
    requires Shape(l)
  {
    StartsWithin(l);
    if RoomMade(l, maxBytes, need, io) then RoomAt(l.hist, l.starts, maxBytes, need) else WriteStart(l)
  }

  lemma StartsWithin(l: Log)
    requires Shape(l)
    ensures forall i :: 0 <= i < |l.starts| ==> l.starts[i] <= |l.hist|
  {
  }

  lemma RollsIff(l: Log, io: RollIo)
    requires Shape(l) && l.flushed <= WriteOff(l)
    ensures TryRoll(l, io).1 <==> Rolls(l, io)
    ensures TryRoll(l, io).0.cursor == l.cursor
    ensures Rolls(l, io) ==> TryRoll(l, io).0 == Rolled(l)
  {
    hide Span, Whole;
  }

  /** Discarding one of several segments. */
  lemma EvictMoves(l: Log)
    requires Inv(l) && |l.starts| >= 2
    ensures var m := EvictOp(l);
      && Shape(m) && m.hist == l.hist && m.starts == l.starts[1..]
      && m.cursor.at == Max(l.cursor.at, l.starts[1])
      && m.writerOpen == l.writerOpen && m.flushed == l.flushed
      && WriteStart(m) == WriteStart(l) && WriteOff(m) == WriteOff(l)
  {
    hide Span, GoodIn, Whole;
    EvictSafe(l);
  }

  /** The write leaves the reader alone, whatever fails. */
  lemma WriteStays(l: Log, segBytes: nat, r: Rec, evicted: nat, io: PushIo)
    requires Inv(l) && r.good
    ensures WriteOp(l, segBytes, r, evicted, io).0.cursor == l.cursor
  {
    hide Tracks, Span, Whole, TryRoll;
    if l.writerOpen || io.canOpen {
      match io.write
      case WriteFails(extra) =>
        var k := l.flushed + Partial(extra, WriteOff(l) - l.flushed + SizeOf(r));
        LoseTailSafe(l, k);
        RollsIff(LoseTail(l, k), io.roll);
      case Wrote(spill) =>
        StoreSafe(l, r, spill);
        RollsIff(StoreOp(l, r, spill), io.roll);
    }
  }

  /** The oldest segment is not the write segment, or is left for a fresh one first. */
  lemma DropMoves(l: Log, io: RollIo)
    requires Inv(l) && (|l.starts| == 1 ==> Rolls(l, io))
    ensures DropSegment(l, io).2
    ensures var m := DropSegment(l, io).0;
      && Shape(m) && m.hist == l.hist
      && m.starts == (if |l.starts| == 1 then [|l.hist|] else l.starts[1..])
      && m.cursor.at == Max(l.cursor.at, if |l.starts| == 1 then |l.hist| else l.starts[1])
      && m.writerOpen == (l.writerOpen && |l.starts| >= 2)
      && (|l.starts| >= 2 ==>
            m.flushed == l.flushed && WriteStart(m) == WriteStart(l) && WriteOff(m) == WriteOff(l))
  {
    hide Tracks, Span, Whole, EvictOp, TryRoll, Keeps, Discarded;
    TryRollSafe(l, io);
    if |l.starts| == 1 { RollsIff(l, io); }
    EvictMoves(if |l.starts| == 1 then TryRoll(l, io).0 else l);
  }

  /** What the drop_oldest loop comes to, from the queue as it finds it. */
  lemma {:induction false} RoomIff(l: Log, maxBytes: nat, need: nat, io: RollIo)
    requires Inv(l) && need <= maxBytes
    ensures var (m, n, ok) := MakeRoom(l, maxBytes, need, io);
      && (ok <==> RoomMade(l, maxBytes, need, io))
      && m.cursor.at == Max(l.cursor.at, RoomEnd(l, maxBytes, need, io))
      && (ok ==> m.writerOpen == (l.writerOpen && TailFits(l, maxBytes, need)))
    decreases Held(l), |l.starts|
  {
    hide Tracks, Span, DropSegment, Whole;
    CursorFollows(l);
    StartsWithin(l);
    if Held(l) + need > maxBytes {
      if |l.starts| == 1 && !Rolls(l, io) {
        DropStuck(l, io);
      } else {
        DropMoves(l, io);
        DropSegmentProgress(l, io);
        var m := DropSegment(l, io).0;
        RoomIff(m, maxBytes, need, io);
        StartsWithin(m);
        RoomAtLeast(m.hist, m.starts, maxBytes, need);
        if |l.starts| == 1 { LoneRoom(l, m, maxBytes, need); }
      }
    } else {
      WriteWithin(l);
    }
  }

  lemma LoneRoom(l: Log, m: Log, maxBytes: nat, need: nat)
    requires Shape(l) && |l.starts| == 1 && Held(l) + need > maxBytes >= need
    requires Shape(m) && m.hist == l.hist && m.starts == [|l.hist|]
    ensures !TailFits(l, maxBytes, need) && TailFits(m, maxBytes, need)
    ensures RoomAt(l.hist, l.starts, maxBytes, need) == |l.hist| == RoomAt(m.hist, m.starts, maxBytes, need)
  {
    hide Off, Good, GoodIn;
    SpanZero(l.hist, |l.hist|, |l.hist|);
    assert l.starts[1..] == [];
  }

  lemma {:induction false} RoomAtLeast(h: seq<Rec>, starts: seq<nat>, maxBytes: nat, need: nat)
    requires forall i :: 0 <= i < |starts| ==> starts[i] <= |h|
    requires forall i, j :: 0 <= i <= j < |starts| ==> starts[i] <= starts[j]
    ensures starts != [] ==> RoomAt(h, starts, maxBytes, need) >= starts[0]
    decreases |starts|
  {
    hide Span;
    if starts != [] { RoomAtLeast(h, starts[1..], maxBytes, need); }
  }

  lemma CursorFollows(l: Log)
    requires Inv(l)
    ensures l.starts[0] <= l.cursor.at
  {
  }

  lemma WriteWithin(l: Log)
    requires Shape(l)
    ensures WriteOff(l) <= Held(l)
  {
    hide Off, Good, GoodIn;
    SpanAdd(l.hist, l.starts[0], WriteStart(l), |l.hist|);
  }

  lemma DropStuck(l: Log, io: RollIo)
    requires Inv(l) && |l.starts| == 1 && !Rolls(l, io)
    ensures !DropSegment(l, io).2 && DropSegment(l, io).0.cursor == l.cursor
  {
    hide Tracks, Span, Whole, TryRoll, Keeps;
    RollsIff(l, io);
  }

  // ---------------------------------------------------------- a push that fails

  /** A push that answers an error has stored its record all the same. */
  predicate StoredAllTheSame(l: Log, cfg: Config, r: Rec, io: PushIo)
    requires Shape(l)
  {
    && RoomMade(l, cfg.maxBytes, SizeOf(r), io.evictRoll)
    && ((l.writerOpen && TailFits(l, cfg.maxBytes, SizeOf(r))) || io.canOpen)
    && io.write.Wrote? && io.roll.CreateFails?
  }

  /** A failed push lost at most records that had not reached the disk.  Its own
      record is in the queue if and only if room was made, the segment could be
      opened, the write went through, and only creating the next segment failed. */
  lemma PushFails(l: Log, cfg: Config, r: Rec, io: PushIo)
    requires Inv(l) && r.good
    requires cfg.policy.DropOldest? ==> SizeOf(r) <= cfg.maxBytes
    requires PushOp(l, cfg, r, io).1.Failed?
    ensures var m := PushOp(l, cfg, r, io).0;
      && (m.hist == l.hist + [r] <==> StoredAllTheSame(l, cfg, r, io))
      && (m.hist == l.hist + [r]
          || (Durable(l) <= |m.hist| <= |l.hist| && m.hist == l.hist[..|m.hist|]))
  {
    hide Tracks, WriteOp, MakeRoom, Span, Whole, GoodIn, RoomMade, TailFits, RoomEnd;
    PushSafe(l, cfg, r, io);
    RoomFails(l, cfg.maxBytes, SizeOf(r), io.evictRoll);
    RoomIff(l, cfg.maxBytes, SizeOf(r), io.evictRoll);
    MakeRoomSafe(l, cfg.maxBytes, SizeOf(r), io.evictRoll);
    var (m, n, ok) := MakeRoom(l, cfg.maxBytes, SizeOf(r), io.evictRoll);
    if ok {
      WriteFailsHow(m, cfg.segBytes, r, n, io);
    }
  }

  /** After a failed write the queue goes on in a fresh segment, unless none can be
      created; nothing that was whole on disk is lost. */
  lemma FailedWriteRolls(l: Log, cfg: Config, r: Rec, io: PushIo)
    requires Inv(l) && r.good && Fits(l, cfg.maxBytes, r)
    requires (l.writerOpen || io.canOpen) && io.write.WriteFails?
    ensures var (m, res) := PushOp(l, cfg, r, io);
      && res == Failed && Inv(m) && Keeps(l, m) && !m.writerOpen
      && (if io.roll.CreateFails? then m.starts == l.starts
          else m.starts == l.starts + [|m.hist|] && WriteOff(m) == 0)
  {
    hide Tracks, Span, Whole, GoodIn, Keeps;
    RoomAlready(l, cfg.maxBytes, r, io.evictRoll);
    WriteSafe(l, cfg.segBytes, r, 0, io);
    var k := l.flushed + Partial(io.write.extra, WriteOff(l) - l.flushed + SizeOf(r));
    LoseTailSafe(l, k);
    var m := LoseTail(l, k);
    SpanZero(m.hist, |m.hist|, |m.hist|);
  }

  lemma {:induction false} RoomFails(l: Log, maxBytes: nat, need: nat, io: RollIo)
    requires Inv(l) && need <= maxBytes
    ensures var m := MakeRoom(l, maxBytes, need, io).0;
      |m.hist| <= |l.hist| && m.hist == l.hist[..|m.hist|]
    decreases Held(l), |l.starts|
  {
    hide Tracks, Span, Whole, GoodIn;
    if Held(l) + need > maxBytes {
      var (m, n, ok) := DropSegment(l, io);
      RollPrefix(l, io);
      if ok {
        DropSegmentProgress(l, io);
        RoomFails(m, maxBytes, need, io);
      }
    }
  }

  lemma RollPrefix(l: Log, io: RollIo)
    requires Shape(l) && l.flushed <= WriteOff(l)
    ensures var m := TryRoll(l, io).0;
      |m.hist| <= |l.hist| && m.hist == l.hist[..|m.hist|]
  {
    hide Span;
  }

  lemma WriteFailsHow(l: Log, segBytes: nat, r: Rec, evicted: nat, io: PushIo)
    requires Inv(l) && r.good
    ensures var (m, res) := WriteOp(l, segBytes, r, evicted, io);
      res.Failed? ==>
        && (m.hist == l.hist + [r] <==> (l.writerOpen || io.canOpen) && io.write.Wrote? && io.roll.CreateFails?)
        && (m.hist == l.hist + [r] || (|m.hist| <= |l.hist| && m.hist == l.hist[..|m.hist|]))
  {
    hide Tracks, Span, Whole, GoodIn, TryRoll, StoreOp;
    if l.writerOpen || io.canOpen {
      match io.write
      case WriteFails(extra) =>
        var k := l.flushed + Partial(extra, WriteOff(l) - l.flushed + SizeOf(r));
        LoseTailSafe(l, k);
        RollPrefix(LoseTail(l, k), io.roll);
      case Wrote(spill) =>
        StoreFailsHow(l, r, spill, io.roll);
    }
  }

  lemma StoreFailsHow(l: Log, r: Rec, spill: nat, io: RollIo)
    requires Inv(l) && r.good
    ensures Inv(StoreOp(l, r, spill))
    ensures var (m, ok) := TryRoll(StoreOp(l, r, spill), io);
      !ok ==>
        && (m.hist == l.hist + [r] <==> io.CreateFails?)
        && (m.hist == l.hist + [r] || (|m.hist| <= |l.hist| && m.hist == l.hist[..|m.hist|]))
  {
    hide Tracks, Span, Whole, GoodIn, TryRoll;
    StoreSafe(l, r, spill);
    var m := StoreOp(l, r, spill);
    if !TryRoll(m, io).1 { RollFails(m, io); }
  }

  /** A failed flush loses at least the last record. */
  lemma RollFails(l: Log, io: RollIo)
    requires Inv(l) && |l.hist| > 0
    requires !TryRoll(l, io).1
    ensures var m := TryRoll(l, io).0;
      if io.CreateFails? then m.hist == l.hist
      else |m.hist| < |l.hist| && m.hist == l.hist[..|m.hist|]
  {
  }

  /** That does happen: the record fills the segment, and the next one cannot be
      created. */
  lemma FailedButStored(r: Rec) returns (l: Log, cfg: Config, io: PushIo)
    requires r.good
    ensures Inv(l) && Fits(l, cfg.maxBytes, r)
    ensures var (m, res) := PushOp(l, cfg, r, io); res == Failed && m.hist == l.hist + [r]
  {
    hide Whole, Span, StoreOp, Tracks;
    l := Empty();
    FreshInv(l);
    cfg := Config(SizeOf(r), SizeOf(r), Block);
    io := PushIo(RollOk, true, Wrote(0), CreateFails);
    StoreSafe(l, r, 0);
    RoomAlready(l, cfg.maxBytes, r, io.evictRoll);
    StoreFails(l, cfg.segBytes, r, io);
  }

  lemma StoreFails(l: Log, segBytes: nat, r: Rec, io: PushIo)
    requires Inv(l) && r.good && io.canOpen && io.write == Wrote(0) && io.roll.CreateFails?
    requires WriteOff(l) + SizeOf(r) >= segBytes
    ensures var (m, res) := WriteOp(l, segBytes, r, 0, io); res == Failed && m.hist == l.hist + [r]
  {
    hide Whole, Span, Tracks;
    StoreSafe(l, r, 0);
  }
}
