/** The fields of a disk queue and its directory as one value, and what it means
    for them to represent a log. */
module QueueBytes {
  import opened Naturals
  import opened Options
  import opened Records
  import opened QueueLog
  import opened QueuePush
  import opened QueuePeek

  /** A position as the code keeps it: a segment and a byte offset in it. */
  datatype Cursor = Cursor(seg: nat, off: nat)

  datatype QState = QState(
    files: map<nat, seq<Byte>>,      // NNN.seg
    cursorFile: Option<Cursor>,      // cursor.json
    segments: set<nat>,
    writeSeg: nat,
    writeOff: nat,
    writeSegCount: nat,
    writer: Option<seq<Byte>>,       // the BufWriter's bytes not yet in the file
    cursor: Cursor,
    peek: Cursor,
    unsaved: Option<Cursor>,         // serialised by ack, not yet written
    count: nat,
    bytes: nat)

  function Pending(w: Option<seq<Byte>>): seq<Byte> {
    if w.Some? then w.value else []
  }

  function SegBytes(l: Log, s: nat): seq<Byte>
    requires Shape(l) && l.first <= s <= Last(l)
  {
    Bytes(l.hist, Start(l, s), End(l, s))
  }

  function WriteBytes(l: Log): seq<Byte>
    requires Shape(l)
  {
    Bytes(l.hist, WriteStart(l), |l.hist|)
  }

  /** `c` is position `p`; once the segment is deleted only its number matters. */
  ghost predicate At(l: Log, p: Pos, c: Cursor)
    requires Shape(l)
  {
    c.seg == p.seg
    && (p.seg >= l.first ==> InSegment(l, p) && c.off == Span(l.hist, Start(l, p.seg), p.at))
  }

  /** A missing cursor.json reads as the very beginning. */
  function Loaded(c: Option<Cursor>): Cursor {
    if c.Some? then c.value else Cursor(0, 0)
  }

  /** The segment files other than the write segment's. */
  ghost predicate Closed(files: map<nat, seq<Byte>>, l: Log)
    requires Shape(l)
  {
    && files.Keys == Indices(l.first, Last(l) + 1)
    && forall s :: l.first <= s < Last(l) ==> files[s] == SegBytes(l, s)
  }

  ghost predicate Counters(s: QState, l: Log)
    requires Shape(l)
  {
    && s.segments == Indices(l.first, Last(l) + 1)
    && s.writeSeg == Last(l)
    && s.writeOff == WriteOff(l)
    && s.writeSegCount == GoodIn(l.hist, WriteStart(l), |l.hist|)
    && s.bytes == Held(l)
    && s.count == l.count
  }

  ghost predicate Cursors(s: QState, l: Log)
    requires Shape(l)
  {
    && At(l, l.cursor, s.cursor)
    && At(l, l.peek, s.peek)
    && At(l, l.saved, Loaded(s.cursorFile))
    && s.unsaved.Some? == l.saving.Some?
    && (l.saving.Some? ==> At(l, l.saving.value, s.unsaved.value))
  }

  /** The write segment: what is in the file and what is buffered, in that order. */
  ghost predicate Writing(s: QState, l: Log)
    requires Shape(l) && Last(l) in s.files
  {
    && s.writer.Some? == l.writerOpen
    && |s.files[Last(l)]| == l.flushed
    && s.files[Last(l)] + Pending(s.writer) == WriteBytes(l)
  }

  ghost predicate Rep(sum: Checksum, s: QState, l: Log) {
    && Inv(l)
    && AllGenuine(sum, l.hist)
    && Closed(s.files, l)
    && Counters(s, l)
    && Cursors(s, l)
    && Writing(s, l)
  }

  // ------------------------------------------------------------ small lemmas

  lemma WriteLength(l: Log)
    requires Shape(l)
    ensures |WriteBytes(l)| == WriteOff(l)
    ensures SegBytes(l, Last(l)) == WriteBytes(l)
    ensures l.first <= Last(l)
  {
    BytesLength(l.hist, WriteStart(l), |l.hist|);
  }

  lemma SegLength(l: Log, s: nat)
    requires Shape(l) && l.first <= s <= Last(l)
    ensures |SegBytes(l, s)| == Span(l.hist, Start(l, s), End(l, s))
  {
    BytesLength(l.hist, Start(l, s), End(l, s));
  }

  /** A position's offset does not depend on what follows the position. */
  lemma AtKept(l: Log, m: Log, p: Pos, c: Cursor)
    requires Shape(l) && Shape(m) && At(l, p, c)
    requires l.first <= m.first
    requires p.seg >= m.first ==> InSegment(m, p) && InSegment(l, p) && Start(m, p.seg) == Start(l, p.seg)
    requires p.seg >= m.first ==> p.at <= |m.hist| && m.hist[..p.at] == l.hist[..p.at]
    ensures At(m, p, c)
  {
    if p.seg >= m.first {
      SpanSame(l.hist, m.hist, Start(l, p.seg), p.at);
    }
  }

  /** Writing, losing a tail and rolling leave every kept cursor where it was. */
  lemma CursorsKeep(s: QState, l: Log, m: Log)
    requires Inv(l) && Inv(m) && Keeps(l, m) && Still(l, m)
    requires m.first == l.first && |l.starts| <= |m.starts| && m.starts[..|l.starts|] == l.starts
    requires Cursors(s, l)
    ensures Cursors(s, m)
  {
    hide Span, Whole, GoodIn, Counts, Fates, At;
    PlaceKept(l, m, l.cursor, s.cursor);
    PlaceKept(l, m, l.peek, s.peek);
    PlaceKept(l, m, l.saved, Loaded(s.cursorFile));
    if l.saving.Some? { PlaceKept(l, m, l.saving.value, s.unsaved.value); }
  }

  lemma PlaceKept(l: Log, m: Log, p: Pos, c: Cursor)
    requires Shape(l) && Shape(m) && Keeps(l, m) && At(l, p, c)
    requires m.first == l.first && |l.starts| <= |m.starts| && m.starts[..|l.starts|] == l.starts
    requires p.at <= Durable(l)
    requires p.seg >= m.first ==> InSegment(m, p)
    ensures At(m, p, c)
  {
    hide Span, Whole;
    if p.seg >= m.first {
      assert m.starts[..|l.starts|][p.seg - l.first] == l.starts[p.seg - l.first];
      assert m.hist[..p.at] == m.hist[..Durable(l)][..p.at];
      assert l.hist[..p.at] == l.hist[..Durable(l)][..p.at];
      AtKept(l, m, p, c);
    }
  }

  /** The same layout and the same positions. */
  lemma CursorsSame(s: QState, t: QState, l: Log, m: Log)
    requires Shape(l) && m.hist == l.hist && m.first == l.first && m.starts == l.starts
    requires m.cursor == l.cursor && m.peek == l.peek && m.saved == l.saved && m.saving == l.saving
    requires t.cursor == s.cursor && t.peek == s.peek && t.cursorFile == s.cursorFile && t.unsaved == s.unsaved
    requires Cursors(s, l)
    ensures Shape(m) && Cursors(t, m)
  {
    hide Span, At, Shape;
    SameAt(l, m, l.cursor, s.cursor);
    SameAt(l, m, l.peek, s.peek);
    SameAt(l, m, l.saved, Loaded(s.cursorFile));
    if l.saving.Some? { SameAt(l, m, l.saving.value, s.unsaved.value); }
  }

  lemma SameAt(l: Log, m: Log, p: Pos, c: Cursor)
    requires Shape(l) && m.hist == l.hist && m.first == l.first && m.starts == l.starts
    ensures Shape(m)
    ensures At(m, p, c) <==> At(l, p, c)
  {
    hide Span;
  }

  // ------------------------------------------------ one lemma per code path

  lemma RepFlush(sum: Checksum, s: QState, l: Log, n: nat)
    requires Rep(sum, s, l) && s.writer.Some? && n <= |s.writer.value|
    ensures var w := s.writer.value;
      var t := s.(files := s.files[s.writeSeg := s.files[s.writeSeg] + w[..n]], writer := Some(w[n..]));
      l.flushed + n <= WriteOff(l) && Rep(sum, t, FlushOp(l, l.flushed + n))
  {
    hide Span, Whole, GoodIn, Bytes, Tracks, Cursors, Shape;
    WriteLength(l);
    FlushSafe(l, l.flushed + n);
    var w, m := s.writer.value, FlushOp(l, l.flushed + n);
    var f := s.files[s.writeSeg];
    assert (f + w[..n]) + w[n..] == f + w;
    CursorsSame(s, s.(files := s.files[s.writeSeg := f + w[..n]], writer := Some(w[n..])), l, m);
  }

  /** The writer is dropped with nothing left in it. */
  lemma RepClose(sum: Checksum, s: QState, l: Log)
    requires Rep(sum, s, l) && Pending(s.writer) == []
    ensures l.flushed == WriteOff(l)
    ensures Rep(sum, s.(writer := None), l.(flushed := WriteOff(l), writerOpen := false))
  {
    hide Span, Whole, GoodIn, Bytes, Tracks, Cursors, Shape;
    WriteLength(l);
    CloseSafe(l);
    CursorsSame(s, s.(writer := None), l, l.(flushed := WriteOff(l), writerOpen := false));
  }

  lemma RepRoll(sum: Checksum, s: QState, l: Log)
    requires Rep(sum, s, l) && s.writer.None?
    ensures l.flushed == WriteOff(l)
    ensures var next := s.writeSeg + 1;
      Rep(sum, s.(files := s.files[next := []], segments := s.segments + {next}, writeSeg := next,
                  writeOff := 0, writeSegCount := 0), Rolled(l))
  {
    hide Span, Whole, GoodIn, Bytes, Tracks, Cursors, Closed, Keeps, Counters, Writing;
    WriteSegment(s, l);
    WriterState(s, l);
    RolledSafe(l);
    var m, next := Rolled(l), s.writeSeg + 1;
    var t := s.(files := s.files[next := []], segments := s.segments + {next}, writeSeg := next,
                writeOff := 0, writeSegCount := 0);
    RolledSegments(l);
    CursorsKeep(s, l, m);
    CursorsSame(s, t, m, m);
    RolledFiles(s, t, l);
    RolledCounters(s, t, l);
    RolledWriting(t, l);
  }

  lemma EmptyBytes(h: seq<Rec>, a: nat)
    requires a <= |h|
    ensures Bytes(h, a, a) == []
  {
  }

  lemma WriterState(s: QState, l: Log)
    requires Inv(l) && Last(l) in s.files && Writing(s, l)
    ensures s.writer.Some? == l.writerOpen
    ensures s.writer.None? ==> l.flushed == WriteOff(l) && s.files[Last(l)] == WriteBytes(l)
  {
    hide Bytes, Span, Tracks;
    assert Pending(None) == [];
    if s.writer.None? { assert s.files[Last(l)] + [] == s.files[Last(l)]; }
  }

  lemma RolledCounters(s: QState, t: QState, l: Log)
    requires Shape(l) && Counters(s, l)
    requires t == s.(files := t.files, segments := s.segments + {s.writeSeg + 1}, writeSeg := s.writeSeg + 1,
                     writeOff := 0, writeSegCount := 0)
    ensures Shape(Rolled(l)) && Counters(t, Rolled(l))
  {
    hide Span, GoodIn;
    RolledSegments(l);
    SpanZero(l.hist, |l.hist|, |l.hist|);
  }

  lemma RolledWriting(t: QState, l: Log)
    requires Shape(l) && Last(l) + 1 in t.files && t.files[Last(l) + 1] == [] && t.writer.None?
    ensures Shape(Rolled(l)) && Last(Rolled(l)) in t.files && Writing(t, Rolled(l))
  {
    hide Bytes;
    RolledSegments(l);
    EmptyBytes(l.hist, |l.hist|);
    assert Pending(None) == [];
  }

  lemma RolledSegments(l: Log)
    requires Shape(l)
    ensures var m := Rolled(l);
      && Shape(m) && Last(m) == Last(l) + 1
      && Indices(m.first, Last(m) + 1) == Indices(l.first, Last(l) + 1) + {Last(l) + 1}
      && WriteStart(m) == |l.hist| && m.starts[0] == l.starts[0]
  {
  }

  lemma RolledFiles(s: QState, t: QState, l: Log)
    requires Shape(l) && Closed(s.files, l) && Last(l) in s.files && s.files[Last(l)] == WriteBytes(l)
    requires t.files == s.files[Last(l) + 1 := []]
    ensures Shape(Rolled(l)) && Closed(t.files, Rolled(l))
  {
    hide Bytes;
    var m := Rolled(l);
    RolledSegments(l);
    forall i | m.first <= i < Last(m)
      ensures t.files[i] == SegBytes(m, i)
    {
      assert Start(m, i) == Start(l, i);
      assert End(m, i) == End(l, i);
      if i == Last(l) { WriteLength(l); }
    }
  }

  lemma RepStore(sum: Checksum, s: QState, l: Log, r: Rec, w: seq<Byte>, n: nat)
    requires Rep(sum, s, l) && r.good && Genuine(sum, r)
    requires w == Pending(s.writer) + Encode(r) && n <= |w|
    ensures |w| == WriteOff(l) - l.flushed + SizeOf(r)
    ensures Rep(sum, s.(files := s.files[s.writeSeg := s.files[s.writeSeg] + w[..n]], writer := Some(w[n..]),
                        writeOff := s.writeOff + SizeOf(r), bytes := s.bytes + SizeOf(r),
                        count := s.count + 1, writeSegCount := s.writeSegCount + 1),
                StoreOp(l, r, n))
  {
    hide Span, Whole, GoodIn, Tracks, Cursors, Shape, Off, Good, Encode, Counters, Bytes, Closed, Keeps;
    WriteLength(l);
    EncodedFields(r);
    StoreSafe(l, r, n);
    var m := StoreOp(l, r, n);
    StoreShape(l, r, n);
    WriteSegment(s, l);
    var f := s.files[s.writeSeg];
    var t := s.(files := s.files[s.writeSeg := f + w[..n]], writer := Some(w[n..]),
                writeOff := s.writeOff + SizeOf(r), bytes := s.bytes + SizeOf(r),
                count := s.count + 1, writeSegCount := s.writeSegCount + 1);
    CursorsKeep(s, l, m);
    CursorsSame(s, t, m, m);
    StoreFiles(s, t, l, r, n);
    StoreWrites(l, r, n);
    assert (f + w[..n]) + w[n..] == f + Pending(s.writer) + Encode(r);
    StoreCounts(s, t, l, r, n);
  }

  lemma WriteSegment(s: QState, l: Log)
    requires Shape(l) && Counters(s, l) && Closed(s.files, l)
    ensures s.writeSeg == Last(l) && Last(l) in s.files && s.files.Keys == s.segments
    ensures s.writeOff == WriteOff(l) && s.count == l.count
  {
  }

  lemma CursorsParts(s: QState, l: Log)
    requires Shape(l) && Cursors(s, l)
    ensures At(l, l.cursor, s.cursor) && At(l, l.peek, s.peek) && At(l, l.saved, Loaded(s.cursorFile))
    ensures s.unsaved.Some? == l.saving.Some?
    ensures l.saving.Some? ==> At(l, l.saving.value, s.unsaved.value)
  {
  }

  lemma CursorsWhole(s: QState, l: Log, m: Log)
    requires Shape(l) && m.hist == l.hist && m.first == l.first && m.starts == l.starts
    requires At(l, m.cursor, s.cursor) && At(l, m.peek, s.peek) && At(l, m.saved, Loaded(s.cursorFile))
    requires s.unsaved.Some? == m.saving.Some?
    requires m.saving.Some? ==> At(l, m.saving.value, s.unsaved.value)
    ensures Shape(m) && Cursors(s, m)
  {
    hide Span, At, Shape;
    SameAt(l, m, m.cursor, s.cursor);
    SameAt(l, m, m.peek, s.peek);
    SameAt(l, m, m.saved, Loaded(s.cursorFile));
    if m.saving.Some? { SameAt(l, m, m.saving.value, s.unsaved.value); }
  }

  /** The files and counters of a step that moves only the reader. */
  lemma FilesSame(s: QState, t: QState, l: Log, m: Log)
    requires Shape(l) && Closed(s.files, l) && Counters(s, l) && Last(l) in s.files && Writing(s, l)
    requires m.hist == l.hist && m.first == l.first && m.starts == l.starts
    requires m.flushed == l.flushed && m.writerOpen == l.writerOpen && t.count == m.count
    requires t == s.(cursor := t.cursor, peek := t.peek, cursorFile := t.cursorFile, unsaved := t.unsaved,
                     count := t.count)
    ensures Shape(m) && Closed(t.files, m) && Counters(t, m) && Last(m) in t.files && Writing(t, m)
  {
    hide Span, GoodIn, Bytes;
  }

  lemma StoreCounts(s: QState, t: QState, l: Log, r: Rec, n: nat)
    requires Shape(l) && Counters(s, l) && r.good
    requires t.segments == s.segments && t.writeSeg == s.writeSeg
    requires t.writeOff == s.writeOff + SizeOf(r) && t.bytes == s.bytes + SizeOf(r)
    requires t.count == s.count + 1 && t.writeSegCount == s.writeSegCount + 1
    ensures Shape(StoreOp(l, r, n)) && Counters(t, StoreOp(l, r, n))
  {
    hide Span, GoodIn;
    SpanGrows(l.hist, r, WriteStart(l));
    SpanGrows(l.hist, r, l.starts[0]);
  }

  lemma StoreShape(l: Log, r: Rec, n: nat)
    requires Shape(l)
    ensures var m := StoreOp(l, r, n); Shape(m) && Last(m) == Last(l) && m.starts[..|l.starts|] == l.starts
  {
    hide Span;
  }

  lemma StoreWrites(l: Log, r: Rec, n: nat)
    requires Shape(l)
    ensures var m := StoreOp(l, r, n); Shape(m) && WriteBytes(m) == WriteBytes(l) + Encode(r)
  {
    hide Span;
    AppendKeeps(l.hist, r, WriteStart(l));
  }

  lemma StoreFiles(s: QState, t: QState, l: Log, r: Rec, n: nat)
    requires Shape(l) && Closed(s.files, l)
    requires t.files.Keys == s.files.Keys && forall i :: l.first <= i < Last(l) ==> t.files[i] == s.files[i]
    ensures Shape(StoreOp(l, r, n)) && Closed(t.files, StoreOp(l, r, n))
  {
    hide Bytes, Span, SegBytes, StoreOp;
    StoreLayout(l, r, n);
    var m := StoreOp(l, r, n);
    forall i | m.first <= i < Last(m)
      ensures t.files[i] == SegBytes(m, i)
    {
      SameSegment(l, m, i);
    }
  }

  lemma StoreLayout(l: Log, r: Rec, n: nat)
    requires Shape(l)
    ensures var m := StoreOp(l, r, n);
      && Shape(m) && m.first == l.first && m.starts == l.starts && WriteStart(l) <= |m.hist|
      && m.hist[..WriteStart(l)] == l.hist[..WriteStart(l)]
  {
    hide Span;
  }

  /** A closed segment is the same while the history agrees up to the write segment. */
  lemma SameSegment(l: Log, m: Log, i: nat)
    requires Shape(l) && Shape(m) && m.first == l.first && m.starts == l.starts && l.first <= i < Last(l)
    requires WriteStart(l) <= |m.hist| && m.hist[..WriteStart(l)] == l.hist[..WriteStart(l)]
    ensures SegBytes(m, i) == SegBytes(l, i)
  {
    hide Bytes;
    var e := End(l, i);
    assert m.hist[..e] == m.hist[..WriteStart(l)][..e] == l.hist[..e];
    SameBytes(l.hist, m.hist, Start(l, i), e);
  }

  /** The write file was cut to its scanned length and the counters corrected. */
  lemma RepLoseTail(sum: Checksum, s: QState, l: Log, k: nat, file: seq<Byte>)
    requires Inv(l) && l.flushed <= k && AllGenuine(sum, l.hist)
    requires Closed(s.files, l) && Counters(s, l) && Cursors(s, l)
    requires var m := Whole(l.hist, WriteStart(l), |l.hist|, k); file == Bytes(l.hist, WriteStart(l), m)
    ensures var m := Whole(l.hist, WriteStart(l), |l.hist|, k);
      var end, n := Span(l.hist, WriteStart(l), m), GoodIn(l.hist, WriteStart(l), m);
      && s.writeOff <= s.bytes
      && Rep(sum, s.(files := s.files[s.writeSeg := file], writer := None,
                     count := Minus(s.count, Minus(s.writeSegCount, n)),
                     writeSegCount := n,
                     bytes := s.bytes - s.writeOff + end,
                     writeOff := end),
             LoseTail(l, k))
  {
    hide Span, Whole, GoodIn, Tracks, Cursors, Off, Good, Bytes, Counters, Closed, Keeps, Shape;
    var a := WriteStart(l);
    var m := Whole(l.hist, a, |l.hist|, k);
    var end, n := Span(l.hist, a, m), GoodIn(l.hist, a, m);
    LoseTailSafe(l, k);
    WriteSegment(s, l);
    var t := LoseTail(l, k);
    LoseTailPieces(l, k);
    assert s.writeOff <= s.bytes by { HeldCovers(s, l); }
    var u := s.(files := s.files[s.writeSeg := file], writer := None,
                count := Minus(s.count, Minus(s.writeSegCount, n)), writeSegCount := n,
                bytes := s.bytes - s.writeOff + end, writeOff := end);
    CursorsKeep(s, l, t);
    CursorsSame(s, u, t, t);
    LoseTailFiles(s, u, l, k);
    LoseTailCounters(s, u, l, k);
    SpanBytes(l.hist, a, m);
  }

  lemma HeldCovers(s: QState, l: Log)
    requires Shape(l) && Counters(s, l)
    ensures s.writeOff <= s.bytes
  {
    hide Span;
    SpanAdd(l.hist, l.starts[0], WriteStart(l), |l.hist|);
  }

  lemma LoseTailCounters(s: QState, t: QState, l: Log, k: nat)
    requires Shape(l) && Counters(s, l)
    requires var m := Whole(l.hist, WriteStart(l), |l.hist|, k);
      var end, n := Span(l.hist, WriteStart(l), m), GoodIn(l.hist, WriteStart(l), m);
      && t.segments == s.segments && t.writeSeg == s.writeSeg
      && t.count == Minus(s.count, Minus(s.writeSegCount, n)) && t.writeSegCount == n
      && t.bytes == s.bytes - s.writeOff + end && t.writeOff == end
    ensures Shape(LoseTail(l, k)) && Counters(t, LoseTail(l, k))
  {
    hide Span, GoodIn, Whole, Bytes;
    LoseTailPieces(l, k);
  }

  lemma SpanBytes(h: seq<Rec>, a: nat, b: nat)
    requires a <= b <= |h|
    ensures |Bytes(h, a, b)| == Span(h, a, b)
  {
    BytesLength(h, a, b);
  }

  lemma LoseTailPieces(l: Log, k: nat)
    requires Shape(l)
    ensures var a := WriteStart(l);
      var m := Whole(l.hist, a, |l.hist|, k);
      var t := LoseTail(l, k);
      && Shape(t) && Last(t) == Last(l) && WriteStart(t) == a && |t.hist| == m
      && t.starts[..|l.starts|] == l.starts
      && Span(t.hist, a, m) == Span(l.hist, a, m)
      && GoodIn(t.hist, a, m) == GoodIn(l.hist, a, m)
      && GoodIn(l.hist, m, |l.hist|) == GoodIn(l.hist, a, |l.hist|) - GoodIn(l.hist, a, m)
      && Held(l) == Span(l.hist, l.starts[0], a) + WriteOff(l)
      && Held(t) == Span(l.hist, l.starts[0], a) + Span(l.hist, a, m)
      && WriteBytes(t) == Bytes(l.hist, a, m)
  {
    hide Whole, Off, Good, Bytes, Span, GoodIn;
    var a := WriteStart(l);
    var m := Whole(l.hist, a, |l.hist|, k);
    var t := LoseTail(l, k);
    assert t.hist[..m] == l.hist[..m];
    assert t.hist[..a] == l.hist[..m][..a] == l.hist[..a];
    SpanSame(l.hist, t.hist, a, m);
    SpanSame(l.hist, t.hist, l.starts[0], a);
    SpanAdd(l.hist, l.starts[0], a, |l.hist|);
    SpanAdd(l.hist, a, m, |l.hist|);
    SpanAdd(t.hist, l.starts[0], a, m);
    SameBytes(l.hist, t.hist, a, m);
  }

  lemma LoseTailFiles(s: QState, t: QState, l: Log, k: nat)
    requires Shape(l) && Closed(s.files, l)
    requires t.files.Keys == s.files.Keys && forall i :: l.first <= i < Last(l) ==> t.files[i] == s.files[i]
    ensures Shape(LoseTail(l, k)) && Closed(t.files, LoseTail(l, k))
  {
    hide Bytes, Span, Whole, SegBytes, LoseTail;
    LoseTailPieces(l, k);
    LoseTailLayout(l, k);
    var m := LoseTail(l, k);
    forall i | m.first <= i < Last(m)
      ensures t.files[i] == SegBytes(m, i)
    {
      SameSegment(l, m, i);
    }
  }

  lemma LoseTailLayout(l: Log, k: nat)
    requires Shape(l)
    ensures var m := LoseTail(l, k);
      && Shape(m) && m.first == l.first && m.starts == l.starts && WriteStart(l) <= |m.hist|
      && m.hist[..WriteStart(l)] == l.hist[..WriteStart(l)]
  {
    hide Span;
    LoseTailShape(l, k);
  }

  lemma WriterFits(sum: Checksum, s: QState, l: Log)
    requires Rep(sum, s, l)
    ensures Inv(l) && s.writeSeg in s.files
    ensures |Pending(s.writer)| == WriteOff(l) - l.flushed && s.writer.Some? == l.writerOpen
  {
    hide Span, Whole, GoodIn, Bytes, Tracks, Cursors, Keeps;
    WriteLength(l);
  }

  /** The state after a flush let `n` bytes through and the buffer was discarded:
      everything but the write file is as before, and the file scans as it should. */
  lemma BrokenFlush(sum: Checksum, s: QState, l: Log, n: nat)
    requires Rep(sum, s, l) && n <= |Pending(s.writer)|
    ensures s.writeSeg in s.files && Inv(l)
    ensures var f := s.files[s.writeSeg] + Pending(s.writer)[..n];
      Broken(sum, s.(files := s.files[s.writeSeg := f], writer := None), l, l.flushed + n)
  {
    hide Span, Whole, GoodIn, Bytes, Tracks, Cursors, Keeps, Scan;
    var f := s.files[s.writeSeg] + Pending(s.writer)[..n];
    WriteLength(l);
    CrashLeavesImage(sum, s, l, n);
    ImageScan(sum, s.files[s.writeSeg := f], s.cursorFile, l, l.flushed + n);
    CursorsSame(s, s.(files := s.files[s.writeSeg := f], writer := None), l, l);
  }

  /** A failed write is as broken, with part of the new record in the file. */
  lemma BrokenWrite(sum: Checksum, s: QState, l: Log, r: Rec, n: nat)
    requires Rep(sum, s, l) && Genuine(sum, r) && n < |Pending(s.writer)| + SizeOf(r)
    ensures s.writeSeg in s.files && Inv(l) && n <= |Pending(s.writer) + Encode(r)|
    ensures var f := s.files[s.writeSeg] + (Pending(s.writer) + Encode(r))[..n];
      Broken(sum, s.(files := s.files[s.writeSeg := f], writer := None), l, l.flushed + n)
  {
    hide Span, Whole, GoodIn, Bytes, Tracks, Cursors, Keeps, Scan, Encode, Shape;
    WriteLength(l);
    EncodedFields(r);
    var w := Pending(s.writer) + Encode(r);
    var f := s.files[s.writeSeg] + w[..n];
    var k := l.flushed + n;
    assert f == (WriteBytes(l) + Encode(r))[..k] by {
      assert s.files[s.writeSeg] + w == WriteBytes(l) + Encode(r);
      assert f == (s.files[s.writeSeg] + w)[..k];
    }
    TornScan(sum, l, r, k);
    CursorsSame(s, s.(files := s.files[s.writeSeg := f], writer := None), l, l);
  }

  lemma TornScan(sum: Checksum, l: Log, r: Rec, k: nat)
    requires Shape(l) && AllGenuine(sum, l.hist) && Genuine(sum, r)
    requires k < |WriteBytes(l)| + SizeOf(r) && k <= |WriteBytes(l) + Encode(r)|
    ensures var a, m := WriteStart(l), Repaired(l, k);
      var f := (WriteBytes(l) + Encode(r))[..k];
      && Scan(sum, f, 0) == (Span(l.hist, a, m), GoodIn(l.hist, a, m))
      && Span(l.hist, a, m) <= |f|
      && f[..Span(l.hist, a, m)] == Bytes(l.hist, a, m)
  {
    hide Bytes, Scan, Off, Good, Whole, Encode;
    var a, m := WriteStart(l), Repaired(l, k);
    ScanPrefixThen(sum, l.hist, a, a, r, k);
    BytesTake(l.hist, a, m, |l.hist|);
    SliceOfSlice(WriteBytes(l) + Encode(r), 0, k, 0, Span(l.hist, a, m));
  }

  /** What a discarded buffer leaves for reconciliation to repair. */
  ghost predicate Broken(sum: Checksum, s: QState, l: Log, k: nat) {
    && Inv(l) && l.flushed <= k && AllGenuine(sum, l.hist)
    && Closed(s.files, l) && Counters(s, l) && Cursors(s, l)
    && s.writer.None? && s.writeSeg in s.files
    && var a, m, f := WriteStart(l), Repaired(l, k), s.files[s.writeSeg];
    && Scan(sum, f, 0) == (Span(l.hist, a, m), GoodIn(l.hist, a, m))
    && Span(l.hist, a, m) <= |f|
    && f[..Span(l.hist, a, m)] == Bytes(l.hist, a, m)
  }

  // ----------------------------------------------------- deleting a segment

  lemma OldestFile(s: QState, l: Log)
    requires Shape(l) && Closed(s.files, l) && Counters(s, l) && l.first < Last(l)
    ensures l.first in s.files && s.files[l.first] == SegBytes(l, l.first)
    ensures |s.files[l.first]| == Span(l.hist, l.starts[0], l.starts[1]) <= s.bytes
    ensures s.bytes - |s.files[l.first]| == Span(l.hist, l.starts[1], |l.hist|)
  {
    hide Span, Whole, Bytes;
    SegLength(l, l.first);
    SpanAdd(l.hist, l.starts[0], l.starts[1], |l.hist|);
  }

  /** What deleting the oldest file leaves of the files and the counters. */
  ghost predicate OldestGone(s: QState, t: QState, l: Log) {
    && l.first in s.files
    && t.files == s.files - {l.first} && t.segments == s.segments - {l.first}
    && t.bytes == s.bytes - |s.files[l.first]|
    && t.writeSeg == s.writeSeg && t.writeOff == s.writeOff && t.writeSegCount == s.writeSegCount
    && t.writer == s.writer
  }

  lemma UnlinkFiles(s: QState, t: QState, l: Log)
    requires Shape(l) && Closed(s.files, l) && Counters(s, l) && Last(l) in s.files && Writing(s, l)
    requires l.first < Last(l) && OldestGone(s, t, l)
    ensures var m := UnlinkOp(l, l.first + 1);
      && Shape(m) && Closed(t.files, m)
      && Counters(t, m.(count := t.count))
      && Last(m) in t.files && Writing(t, m)
  {
    hide Closed, Counters, Writing;
    UnlinkKeeps(l, l.first + 1);
    UnlinkClosed(s.files, t.files, l);
    UnlinkCounters(s, t, l);
    UnlinkWriting(s, t, l);
  }

  lemma UnlinkCounters(s: QState, t: QState, l: Log)
    requires Shape(l) && Closed(s.files, l) && Counters(s, l)
    requires l.first < Last(l) && OldestGone(s, t, l)
    ensures Shape(UnlinkOp(l, l.first + 1)) && Counters(t, UnlinkOp(l, l.first + 1).(count := t.count))
  {
    hide Span, GoodIn, Bytes, Closed;
    var m := UnlinkOp(l, l.first + 1);
    UnlinkKeeps(l, l.first + 1);
    OldestFile(s, l);
    assert Indices(m.first, Last(m) + 1) == Indices(l.first, Last(l) + 1) - {l.first};
  }

  lemma UnlinkWriting(s: QState, t: QState, l: Log)
    requires Shape(l) && Last(l) in s.files && Writing(s, l)
    requires l.first < Last(l) && OldestGone(s, t, l)
    ensures var m := UnlinkOp(l, l.first + 1); Shape(m) && Last(m) in t.files && Writing(t, m)
  {
    hide Bytes;
    UnlinkKeeps(l, l.first + 1);
  }

  lemma UnlinkClosed(f: map<nat, seq<Byte>>, g: map<nat, seq<Byte>>, l: Log)
    requires Shape(l) && l.first < Last(l) && Closed(f, l) && g == f - {l.first}
    ensures Shape(UnlinkOp(l, l.first + 1)) && Closed(g, UnlinkOp(l, l.first + 1))
  {
    hide SegBytes, UnlinkOp;
    var m := UnlinkOp(l, l.first + 1);
    UnlinkKeeps(l, l.first + 1);
    UnlinkFirst(l);
    assert Indices(m.first, Last(m) + 1) == Indices(l.first, Last(l) + 1) - {l.first};
    forall i | m.first <= i < Last(m)
      ensures g[i] == SegBytes(m, i)
    {
      UnlinkSegment(l, i);
    }
  }

  lemma UnlinkFirst(l: Log)
    requires Shape(l) && l.first < Last(l)
    ensures UnlinkOp(l, l.first + 1).first == l.first + 1
  {
  }

  lemma UnlinkSegment(l: Log, i: nat)
    requires Shape(l) && l.first < i < Last(l)
    ensures var m := UnlinkOp(l, l.first + 1);
      Shape(m) && m.first <= i < Last(m) && SegBytes(m, i) == SegBytes(l, i)
  {
    hide Bytes;
    UnlinkKeeps(l, l.first + 1);
    var m := UnlinkOp(l, l.first + 1);
    UnlinkStart(l, i);
    UnlinkStart(l, i + 1);
  }

  lemma UnlinkStart(l: Log, i: nat)
    requires Shape(l) && l.first < i <= Last(l)
    ensures var m := UnlinkOp(l, l.first + 1);
      Shape(m) && m.first <= i <= Last(m) && Start(m, i) == Start(l, i)
  {
    UnlinkKeeps(l, l.first + 1);
    assert l.starts[1..][i - l.first - 1] == l.starts[i - l.first];
  }

  lemma UnlinkAt(l: Log, p: Pos, c: Cursor)
    requires Shape(l) && l.first < Last(l) && At(l, p, c)
    ensures var m := UnlinkOp(l, l.first + 1); Shape(m) && At(m, p, c)
  {
    hide Span;
    var m := UnlinkOp(l, l.first + 1);
    UnlinkKeeps(l, l.first + 1);
    if p.seg >= m.first {
      UnlinkPlace(l, l.first + 1, p);
      AtKept(l, m, p, c);
    }
  }

  lemma RepUnlink(sum: Checksum, s: QState, l: Log)
    requires Rep(sum, s, l) && l.first < l.cursor.seg
    ensures l.first < Last(l) && l.first in s.files && |s.files[l.first]| <= s.bytes
    ensures Rep(sum, s.(files := s.files - {l.first}, segments := s.segments - {l.first},
                        bytes := s.bytes - |s.files[l.first]|),
                UnlinkOp(l, l.first + 1))
  {
    hide Span, Whole, GoodIn, Bytes, Tracks, Shape, Closed, Counters, At, Cursors, Keeps, Writing, UnlinkOp;
    OldestIsClosed(l);
    CursorsParts(s, l);
    WriteSegment(s, l);
    OldestFile(s, l);
    UnlinkSafe(l, l.first + 1);
    var t := s.(files := s.files - {l.first}, segments := s.segments - {l.first},
                bytes := s.bytes - |s.files[l.first]|);
    UnlinkFiles(s, t, l);
    UnlinkFields(l);
    var m := UnlinkOp(l, l.first + 1);
    SameCount(t, m);
    UnlinkAt(l, l.cursor, s.cursor);
    UnlinkAt(l, l.peek, s.peek);
    UnlinkAt(l, l.saved, Loaded(s.cursorFile));
    if l.saving.Some? { UnlinkAt(l, l.saving.value, s.unsaved.value); }
    CursorsWhole(t, m, m);
  }

  lemma UnlinkFields(l: Log)
    requires Shape(l) && l.first < Last(l)
    ensures var m := UnlinkOp(l, l.first + 1);
      && m.hist == l.hist && m.count == l.count && m.cursor == l.cursor && m.peek == l.peek
      && m.saved == l.saved && m.saving == l.saving
  {
  }

  lemma SameCount(t: QState, l: Log)
    requires Shape(l) && Counters(t, l.(count := t.count)) && t.count == l.count
    ensures Counters(t, l)
  {
  }

  lemma OldestIsClosed(l: Log)
    requires Inv(l) && l.first < l.cursor.seg
    ensures l.first < Last(l)
  {
  }

  /** The reader side of an eviction. */
  function EvictCursor(c: Cursor, oldest: nat): Cursor {
    if c.seg <= oldest then Cursor(oldest + 1, 0) else c
  }

  lemma RepEvict(sum: Checksum, s: QState, l: Log)
    requires Rep(sum, s, l) && |l.starts| >= 2
    ensures l.first in s.files && |s.files[l.first]| <= s.bytes
    ensures Rep(sum, s.(files := s.files - {l.first}, segments := s.segments - {l.first},
                        bytes := s.bytes - |s.files[l.first]|,
                        count := Minus(s.count, Discarded(l)),
                        cursor := EvictCursor(s.cursor, l.first),
                        peek := if s.peek.seg <= l.first then EvictCursor(s.cursor, l.first) else s.peek),
                EvictOp(l))
  {
    hide Span, Whole, GoodIn, Bytes, Tracks, Shape, Closed, Counters, At, Discarded, Cursors, Keeps, Trims;
    CursorsParts(s, l);
    OldestFile(s, l);
    EvictSafe(l);
    var u, m := UnlinkOp(l, l.first + 1), EvictOp(l);
    var t := s.(files := s.files - {l.first}, segments := s.segments - {l.first},
                bytes := s.bytes - |s.files[l.first]|,
                count := Minus(s.count, Discarded(l)),
                cursor := EvictCursor(s.cursor, l.first),
                peek := if s.peek.seg <= l.first then EvictCursor(s.cursor, l.first) else s.peek);
    WriteSegment(s, l);
    UnlinkFiles(s, t, l);
    EvictCursors(s, t, l);
    EvictedCounts(sum, s, t, l);
  }

  lemma EvictCursors(s: QState, t: QState, l: Log)
    requires Inv(l) && |l.starts| >= 2 && Cursors(s, l) && s.writeSeg == Last(l)
    requires t.cursorFile == s.cursorFile && t.unsaved == s.unsaved
    requires t.cursor == EvictCursor(s.cursor, l.first)
    requires t.peek == if s.peek.seg <= l.first then EvictCursor(s.cursor, l.first) else s.peek
    ensures Shape(EvictOp(l)) && Cursors(t, EvictOp(l))
  {
    hide Span, Whole, GoodIn, Bytes, Tracks, Shape, At, Discarded, Cursors;
    var u, m := UnlinkOp(l, l.first + 1), EvictOp(l);
    UnlinkKeeps(l, l.first + 1);
    CursorsParts(s, l);
    UnlinkAt(l, l.cursor, s.cursor);
    UnlinkAt(l, l.peek, s.peek);
    UnlinkAt(l, l.saved, Loaded(s.cursorFile));
    if l.saving.Some? { UnlinkAt(l, l.saving.value, s.unsaved.value); }
    SegmentNumbers(l, s);
    FirstAt(u);
    CursorsWhole(t, u, m);
  }

  lemma SegmentNumbers(l: Log, s: QState)
    requires Shape(l) && Cursors(s, l)
    ensures s.cursor.seg == l.cursor.seg && s.peek.seg == l.peek.seg
  {
  }

  lemma FirstAt(l: Log)
    requires Shape(l)
    ensures At(l, Pos(l.first, l.starts[0]), Cursor(l.first, 0))
  {
    SpanZero(l.hist, l.starts[0], l.starts[0]);
  }

  lemma EvictedCounts(sum: Checksum, s: QState, t: QState, l: Log)
    requires Inv(l) && |l.starts| >= 2
    requires var u := UnlinkOp(l, l.first + 1);
      Shape(u) && Closed(t.files, u) && Counters(t, u.(count := t.count)) && Last(u) in t.files && Writing(t, u)
    requires t.count == Minus(l.count, Discarded(l))
    ensures var m := EvictOp(l); Shape(m) && Closed(t.files, m) && Counters(t, m) && Last(m) in t.files && Writing(t, m)
  {
    hide Span, GoodIn, Bytes, Tracks, Discarded;
  }

  // ------------------------------------------------------- reader movements

  lemma RepMovePeek(sum: Checksum, s: QState, l: Log, p: Pos, c: Cursor)
    requires Rep(sum, s, l)
    requires InSegment(l, p) && Behind(l.peek, p) && p.at <= Durable(l) && At(l, p, c)
    ensures l.peek.at <= p.at <= |l.hist| && Rep(sum, s.(peek := c), MovePeek(l, p))
  {
    hide Span, Whole, GoodIn, Bytes, Shape, At, Tracks, Closed, Counters, Writing, Cursors, Keeps;
    MovePeekSafe(l, p);
    CursorsParts(s, l);
    WriteSegment(s, l);
    CursorsWhole(s.(peek := c), l, MovePeek(l, p));
    FilesSame(s, s.(peek := c), l, MovePeek(l, p));
  }

  lemma RepConfirm(sum: Checksum, s: QState, l: Log, n: nat)
    requires Rep(sum, s, l)
    ensures Rep(sum, s.(cursor := s.peek, count := Minus(s.count, n), unsaved := Some(s.peek)), ConfirmOp(l, n))
  {
    PeekAhead(l);
    hide Span, Whole, GoodIn, Bytes, Shape, At, Tracks, Closed, Counters, Writing, Cursors, Keeps;
    ConfirmSafe(l, n);
    CursorsParts(s, l);
    WriteSegment(s, l);
    var t := s.(cursor := s.peek, count := Minus(s.count, n), unsaved := Some(s.peek));
    CursorsWhole(t, l, ConfirmOp(l, n));
    FilesSame(s, t, l, ConfirmOp(l, n));
  }

  lemma PeekAhead(l: Log)
    requires Inv(l)
    ensures l.cursor.at <= l.peek.at <= |l.hist|
  {
  }

  lemma RepSave(sum: Checksum, s: QState, l: Log, ok: bool)
    requires Rep(sum, s, l)
    ensures Rep(sum, s.(cursorFile := if ok && s.unsaved.Some? then s.unsaved else s.cursorFile, unsaved := None),
                SaveOp(l, ok))
  {
    hide Span, Whole, GoodIn, Bytes, Shape, At, Tracks, Closed, Counters, Writing, Cursors, Keeps;
    SaveSafe(l, ok);
    CursorsParts(s, l);
    WriteSegment(s, l);
    var t := s.(cursorFile := if ok && s.unsaved.Some? then s.unsaved else s.cursorFile, unsaved := None);
    CursorsWhole(t, l, SaveOp(l, ok));
    FilesSame(s, t, l, SaveOp(l, ok));
  }

  lemma RepReset(sum: Checksum, s: QState, l: Log)
    requires Rep(sum, s, l)
    ensures Rep(sum, s.(peek := s.cursor), ResetOp(l))
  {
    hide Span, Whole, GoodIn, Bytes, Shape, At, Tracks, Closed, Counters, Writing, Cursors, Keeps;
    ResetSafe(l);
    CursorsParts(s, l);
    WriteSegment(s, l);
    CursorsWhole(s.(peek := s.cursor), l, ResetOp(l));
    FilesSame(s, s.(peek := s.cursor), l, ResetOp(l));
  }

  // ------------------------------------------------------------ reading files

  /** What a reader finds at record `i` of segment `n`. */
  lemma ReadAt(sum: Checksum, s: QState, l: Log, n: nat, i: nat)
    requires Rep(sum, s, l) && l.first <= n <= Last(l) && Start(l, n) <= i <= Readable(l, n)
    ensures n in s.files
    ensures ReadRecord(sum, s.files[n], Span(l.hist, Start(l, n), i), |s.files[n]|)
            == if i < Readable(l, n) then ReadOf(l.hist[i]) else Eof
  {
    hide Whole, GoodIn, Bytes, Tracks, Cursors, ReadRecord, Off;
    SegmentFile(sum, s, l, n);
    var k := |s.files[n]|;
    ReadPrefix(sum, l.hist, Start(l, n), i, End(l, n), k);
  }

  /** Every segment file is a prefix of its records, the readable ones whole in it. */
  lemma SegmentFile(sum: Checksum, s: QState, l: Log, n: nat)
    requires Rep(sum, s, l) && l.first <= n <= Last(l)
    ensures n in s.files && |s.files[n]| <= |SegBytes(l, n)|
    ensures s.files[n] == SegBytes(l, n)[..|s.files[n]|]
    ensures Whole(l.hist, Start(l, n), End(l, n), |s.files[n]|) == Readable(l, n)
    ensures n < Last(l) ==> s.files[n] == SegBytes(l, n)
  {
    hide Span, GoodIn, Bytes, Tracks, Cursors, Counters;
    WriteLength(l);
    if n < Last(l) {
      SegLength(l, n);
      assert s.files[n] == s.files[n][..|s.files[n]|];
      WholeAllOf(l.hist, Start(l, n), End(l, n));
    } else {
      var f := s.files[n];
      assert f == (f + Pending(s.writer))[..|f|];
    }
  }

  lemma WholeAllOf(h: seq<Rec>, a: nat, b: nat)
    requires a <= b <= |h|
    ensures Whole(h, a, b, Span(h, a, b)) == b
  {
  }

  /** Scanning a closed segment from the boundary of record `i` counts the rest of it. */
  lemma ScanClosed(sum: Checksum, s: QState, l: Log, n: nat, i: nat)
    requires Rep(sum, s, l) && l.first <= n < Last(l) && Start(l, n) <= i <= End(l, n)
    ensures n in s.files
    ensures Scan(sum, s.files[n], Span(l.hist, Start(l, n), i)).1 == GoodIn(l.hist, i, End(l, n))
  {
    hide Bytes, Tracks, Cursors, Scan, Off, Good;
    SegmentFile(sum, s, l, n);
    SegmentReadable(l, n);
    hide Whole;
    var b := SegBytes(l, n);
    assert b[..|b|] == b;
    ScanPrefix(sum, l.hist, Start(l, n), i, End(l, n), |b|);
  }

  // ------------------------------------------------------- crash and reopen

  /** A directory left behind by a process that died with `k` bytes of the write
      segment in its file. */
  ghost predicate Image(sum: Checksum, files: map<nat, seq<Byte>>, cursorFile: Option<Cursor>, l: Log, k: nat) {
    && Inv(l) && AllGenuine(sum, l.hist)
    && l.flushed <= k <= WriteOff(l)
    && Closed(files, l)
    && k <= |WriteBytes(l)| && Last(l) in files && files[Last(l)] == WriteBytes(l)[..k]
    && At(l, l.saved, Loaded(cursorFile))
  }

  /** Whenever the process dies, and however much of its buffer made it out, that
      is what it leaves. */
  lemma CrashLeavesImage(sum: Checksum, s: QState, l: Log, n: nat)
    requires Rep(sum, s, l) && n <= |Pending(s.writer)|
    ensures s.writeSeg in s.files
    ensures Image(sum, s.files[s.writeSeg := s.files[s.writeSeg] + Pending(s.writer)[..n]], s.cursorFile,
                  l, l.flushed + n)
  {
    hide Span, GoodIn, Bytes, Tracks, Whole;
    WriteLength(l);
    var f, w := s.files[s.writeSeg], Pending(s.writer);
    assert f + w[..n] == (f + w)[..|f| + n];
  }

  /** The files after opening: the torn tail is cut off. */
  function Repaired(l: Log, k: nat): nat
    requires Shape(l)
  {
    Whole(l.hist, WriteStart(l), |l.hist|, k)
  }

  lemma ImageScan(sum: Checksum, files: map<nat, seq<Byte>>, cf: Option<Cursor>, l: Log, k: nat)
    requires Image(sum, files, cf, l, k)
    ensures var m := Repaired(l, k);
      && Scan(sum, files[Last(l)], 0) == (Span(l.hist, WriteStart(l), m), GoodIn(l.hist, WriteStart(l), m))
      && Span(l.hist, WriteStart(l), m) <= k
      && files[Last(l)][..Span(l.hist, WriteStart(l), m)] == Bytes(l.hist, WriteStart(l), m)
  {
    hide Bytes, Tracks, Scan, Off, Good, Whole;
    var a := WriteStart(l);
    var m := Repaired(l, k);
    ScanPrefix(sum, l.hist, a, a, |l.hist|, k);
    BytesTake(l.hist, a, m, |l.hist|);
    SliceOfSlice(WriteBytes(l), 0, k, 0, Span(l.hist, a, m));
  }

  /** A write that stops anywhere leaves what the queue would leave had the record
      been stored and the process died before flushing the rest of it. */
  lemma TornWriteLeavesImage(sum: Checksum, s: QState, l: Log, r: Rec, w: seq<Byte>, n: nat)
    requires Rep(sum, s, l) && r.good && Genuine(sum, r)
    requires w == Pending(s.writer) + Encode(r) && n <= |w|
    ensures s.writeSeg in s.files && Inv(l)
    ensures var m := StoreOp(l, r, n);
      Image(sum, s.files[s.writeSeg := s.files[s.writeSeg] + w[..n]], s.cursorFile, m, m.flushed)
  {
    hide Rep, Image, StoreOp, Encode, Tracks, Shape;
    WriterFits(sum, s, l);
    RepStore(sum, s, l, r, w, n);
    var f := s.files[s.writeSeg] + w[..n];
    var t := s.(files := s.files[s.writeSeg := f], writer := Some(w[n..]),
                writeOff := s.writeOff + SizeOf(r), bytes := s.bytes + SizeOf(r),
                count := s.count + 1, writeSegCount := s.writeSegCount + 1);
    CrashLeavesImage(sum, t, StoreOp(l, r, n), 0);
    assert f + Pending(t.writer)[..0] == f;
    assert t.files[t.writeSeg := f] == t.files;
  }

  lemma StoreFlushes(l: Log, r: Rec, n: nat)
    requires Shape(l) && l.flushed + n <= WriteOff(l) + SizeOf(r)
    ensures StoreOp(l, r, n).flushed == l.flushed + n
  {
    hide Span;
  }

  lemma RepOpen(sum: Checksum, files: map<nat, seq<Byte>>, cf: Option<Cursor>, l: Log, k: nat, s: QState)
    requires Image(sum, files, cf, l, k)
    requires s.files == files[Last(l) := Bytes(l.hist, WriteStart(l), Repaired(l, k))] && s.cursorFile == cf
    requires s.segments == files.Keys && s.writeSeg == Last(l) && s.writer == None && s.unsaved == None
    requires var m := CrashOp(l, k);
      && Inv(m)
      && s.writeOff == WriteOff(m) && s.bytes == Held(m) && s.count == m.count
      && s.writeSegCount == GoodIn(m.hist, WriteStart(m), |m.hist|)
    requires s.cursor == (if Loaded(cf).seg < l.first then Cursor(l.first, 0) else Loaded(cf)) && s.peek == s.cursor
    ensures Rep(sum, s, CrashOp(l, k))
  {
    hide Span, GoodIn, Bytes, Tracks, Whole, At, Cursors, Keeps;
    CrashSafe(l, k);
    var m := CrashOp(l, k);
    CrashKeepsLayout(l, k);
    CrashFiles(files, s.files, l, k);
    CrashCursors(sum, files, cf, l, k, s);
  }

  lemma CrashKeepsLayout(l: Log, k: nat)
    requires Inv(l) && l.flushed <= k
    ensures var m := CrashOp(l, k);
      && Shape(m) && Last(m) == Last(l) && WriteStart(m) == WriteStart(l)
      && |m.hist| == Repaired(l, k) && m.hist == l.hist[..|m.hist|]
      && WriteBytes(m) == Bytes(l.hist, WriteStart(l), |m.hist|)
      && m.flushed == |WriteBytes(m)| && m.first == l.first && m.starts == l.starts
  {
    hide GoodIn, Bytes, Tracks, Whole;
    var m := CrashOp(l, k);
    assert m.hist[..|m.hist|] == l.hist[..|m.hist|];
    SameBytes(l.hist, m.hist, WriteStart(l), |m.hist|);
    BytesLength(l.hist, WriteStart(l), |m.hist|);
  }

  lemma CrashFiles(files: map<nat, seq<Byte>>, after: map<nat, seq<Byte>>, l: Log, k: nat)
    requires Inv(l) && l.flushed <= k && Closed(files, l)
    requires after.Keys == files.Keys && forall i :: l.first <= i < Last(l) ==> after[i] == files[i]
    ensures Shape(CrashOp(l, k)) && Closed(after, CrashOp(l, k))
  {
    hide GoodIn, Bytes, Tracks, Whole, Span;
    CrashKeepsLayout(l, k);
    var m := CrashOp(l, k);
    forall i | m.first <= i < Last(m)
      ensures after[i] == SegBytes(m, i)
    {
      assert End(l, i) <= WriteStart(l) <= |m.hist|;
      assert m.hist[..End(l, i)] == l.hist[..End(l, i)];
      SameBytes(l.hist, m.hist, Start(l, i), End(l, i));
    }
  }

  lemma CrashCursors(sum: Checksum, files: map<nat, seq<Byte>>, cf: Option<Cursor>, l: Log, k: nat, s: QState)
    requires Image(sum, files, cf, l, k)
    requires s.cursorFile == cf && s.unsaved == None
    requires s.cursor == (if Loaded(cf).seg < l.first then Cursor(l.first, 0) else Loaded(cf)) && s.peek == s.cursor
    ensures Shape(CrashOp(l, k)) && Cursors(s, CrashOp(l, k))
  {
    hide Span, GoodIn, Bytes, Whole, Keeps, Counts, Fates, Closed;
    CrashSafe(l, k);
    CrashKeepsLayout(l, k);
    var m := CrashOp(l, k);
    SavedBound(l);
    if l.saved.seg >= l.first {
      assert m.hist[..l.saved.at] == l.hist[..l.saved.at];
      AtKept(l, m, l.saved, Loaded(cf));
    } else {
      FirstAt(m);
    }
  }

  lemma SavedBound(l: Log)
    requires Inv(l)
    ensures l.saved.at <= l.cursor.at <= Durable(l)
  {
  }

  // ----------------------------------------------------- counting on opening

  /** Where segment `n` begins, one past the last segment being the end. */
  function Boundary(l: Log, n: nat): nat
    requires Shape(l) && l.first <= n <= Last(l) + 1
  {
    if n <= Last(l) then Start(l, n) else |l.hist|
  }

  lemma ScanFull(sum: Checksum, l: Log, n: nat, i: nat)
    requires Shape(l) && AllGenuine(sum, l.hist) && l.first <= n <= Last(l)
    requires Start(l, n) <= i <= End(l, n)
    ensures End(l, n) == Boundary(l, n + 1)
    ensures |SegBytes(l, n)| == Span(l.hist, Start(l, n), End(l, n))
    ensures Scan(sum, SegBytes(l, n), Span(l.hist, Start(l, n), i)).1 == GoodIn(l.hist, i, End(l, n))
  {
    hide Bytes, Scan, Off, Good, Whole;
    SegLength(l, n);
    WholeAllOf(l.hist, Start(l, n), End(l, n));
    var b := SegBytes(l, n);
    assert b[..|b|] == b;
    ScanPrefix(sum, l.hist, Start(l, n), i, End(l, n), |b|);
  }

  /** How much of the directory the opening scan has counted before segment `n`. */
  ghost predicate Counted(l: Log, n: nat, total: nat, count: nat)
    requires Shape(l)
  {
    && l.first <= n <= Last(l) + 1
    && l.starts[0] <= Boundary(l, n) <= |l.hist|
    && total == Span(l.hist, l.starts[0], Boundary(l, n))
    && (n <= l.cursor.seg ==> count == 0)
    && (n > l.cursor.seg ==>
          l.cursor.at <= Boundary(l, n) && count == GoodIn(l.hist, l.cursor.at, Boundary(l, n)))
  }

  lemma CountedStart(l: Log)
    requires Inv(l)
    ensures Counted(l, l.first, 0, 0)
  {
    SpanZero(l.hist, l.starts[0], l.starts[0]);
  }

  lemma CountedStep(sum: Checksum, l: Log, n: nat, total: nat, count: nat, c: Cursor)
    requires Inv(l) && AllGenuine(sum, l.hist) && At(l, l.cursor, c)
    requires n <= Last(l) && Counted(l, n, total, count)
    ensures l.first <= n
    ensures var b := SegBytes(l, n);
      Counted(l, n + 1, total + |b|,
              if n < c.seg then count else count + Scan(sum, b, if n == c.seg then c.off else 0).1)
  {
    hide Bytes, Scan, Whole, Counts, Fates, Span, GoodIn;
    BoundariesGrow(l, n);
    SpanAdd(l.hist, l.starts[0], Start(l, n), End(l, n));
    CursorIn(l);
    if n == c.seg {
      ScanFull(sum, l, n, l.cursor.at);
    } else {
      SpanZero(l.hist, Start(l, n), Start(l, n));
      ScanFull(sum, l, n, Start(l, n));
      if n > c.seg {
        SpanAdd(l.hist, l.cursor.at, Start(l, n), End(l, n));
      }
    }
  }

  lemma CursorIn(l: Log)
    requires Inv(l)
    ensures InSegment(l, l.cursor)
  {
  }

  lemma BoundariesGrow(l: Log, n: nat)
    requires Shape(l) && l.first <= n <= Last(l)
    ensures l.starts[0] <= Start(l, n) <= End(l, n) <= |l.hist| && Boundary(l, n + 1) == End(l, n)
  {
  }

  lemma CountedAll(l: Log, total: nat, count: nat)
    requires Inv(l) && Counted(l, Last(l) + 1, total, count)
    ensures l.cursor.at <= |l.hist| && total == Held(l) && count == Unread(l)
  {
    hide Span, GoodIn, Whole;
  }

  /** A queue that has never been used leaves a directory with one empty segment. */
  lemma FreshImage(sum: Checksum, l: Log)
    requires IsFresh(l)
    ensures Image(sum, map[0 := []], None, l, 0) && Shape(l) && Last(l) == 0
  {
    hide Off, Good, Whole, Span, GoodIn, Bytes, Inv;
    FreshInv(l);
    SpanZero(l.hist, l.cursor.at, l.cursor.at);
    EmptyBytes(l.hist, l.cursor.at);
    assert Indices(l.first, l.first + 1) == {l.first};
  }

  /** After opening every file is exactly its segment. */
  lemma OpenedFiles(sum: Checksum, files: map<nat, seq<Byte>>, cf: Option<Cursor>, l: Log, k: nat)
    requires Image(sum, files, cf, l, k)
    ensures var m := CrashOp(l, k);
      && Inv(m) && AllGenuine(sum, m.hist) && m.count == (CrashedCursor(l, k); Unread(m))
      && files.Keys == Indices(m.first, Last(m) + 1) && Last(m) == Last(l) && m.first == l.first
      && WriteStart(m) == WriteStart(l)
      && GoodIn(m.hist, WriteStart(m), |m.hist|) == GoodIn(l.hist, WriteStart(l), Repaired(l, k))
      && WriteOff(m) == Span(l.hist, WriteStart(l), Repaired(l, k))
      && forall n :: m.first <= n <= Last(m) ==>
            files[Last(l) := Bytes(l.hist, WriteStart(l), Repaired(l, k))][n] == SegBytes(m, n)
  {
    hide Whole, Span, GoodIn, Bytes, Tracks, Keeps;
    CrashSafe(l, k);
    CrashKeepsLayout(l, k);
    CrashedCursor(l, k);
    var m := CrashOp(l, k);
    CrashFiles(files, files[Last(l) := Bytes(l.hist, WriteStart(l), Repaired(l, k))], l, k);
    WriteLength(m);
    assert m.hist[..|m.hist|] == l.hist[..|m.hist|];
    SpanSame(l.hist, m.hist, WriteStart(l), |m.hist|);
    SpanSame(l.hist, m.hist, m.cursor.at, |m.hist|);
  }

  lemma CrashedCursor(l: Log, k: nat)
    requires Inv(l) && l.flushed <= k <= WriteOff(l)
    ensures CrashOp(l, k).cursor.at <= |CrashOp(l, k).hist|
  {
    hide Span, GoodIn;
    CrashSafe(l, k);
  }

  /** The two ways a roll can go after the flush question is settled. */
  lemma RollOutcome(l: Log, io: RollIo)
    requires Inv(l)
    ensures var closed := l.(flushed := WriteOff(l), writerOpen := false);
      && (!l.writerOpen ==> l == closed)
      && TryRoll(l, io)
        == if l.writerOpen && l.flushed < WriteOff(l) && io.FlushFails? then
             (LoseTail(l, l.flushed + Partial(io.extra, WriteOff(l) - l.flushed)), false)
           else if io.CreateFails? then (closed, false)
           else (Rolled(closed), true)
  {
    hide Tracks, Span, Whole, LoseTail;
  }

  /** The oldest segment is the first one, and is the write segment when alone. */
  lemma OldestFirst(sum: Checksum, s: QState, l: Log)
    requires Rep(sum, s, l)
    ensures Inv(l) && Shape(l) && s.segments == Indices(l.first, Last(l) + 1) && s.writeSeg == Last(l)
    ensures l.first in s.segments && (l.first == s.writeSeg <==> |l.starts| == 1)
    ensures |l.starts| >= 1 && l.first in s.files
  {
    hide Span, GoodIn, Bytes, Whole, Tracks, Cursors;
  }

  lemma DropCases(sum: Checksum, s: QState, l: Log, io: RollIo)
    requires Rep(sum, s, l)
    ensures Inv(l) && Shape(l) && s.segments == Indices(l.first, Last(l) + 1) && s.writeSeg == Last(l)
    ensures l.first in s.segments && (l.first == s.writeSeg <==> |l.starts| == 1) && |l.starts| >= 1
    ensures var (m, ok) := if |l.starts| == 1 then TryRoll(l, io) else (l, true);
      && Inv(m) && (ok ==> |m.starts| >= 2 && m.first == l.first)
      && DropSegment(l, io) == if ok then (EvictOp(m), Discarded(m), true) else (m, 0, false)
  {
    hide Span, GoodIn, Bytes, Whole, Tracks, Cursors, TryRoll, EvictOp, Discarded, Shape;
    OldestFirst(sum, s, l);
    TryRollSafe(l, io);
    if |l.starts| == 1 && TryRoll(l, io).1 { RollTrims(l, io); }
  }

  /** What the scan of the oldest segment counts is what an eviction discards. */
  lemma OldestCount(sum: Checksum, s: QState, l: Log)
    requires Rep(sum, s, l) && |l.starts| >= 2
    ensures l.first in s.files && s.segments == Indices(l.first, s.writeSeg + 1) && l.first < s.writeSeg
    ensures s.cursor.seg >= l.first
    ensures s.cursor.seg == l.first ==> Scan(sum, s.files[l.first], s.cursor.off).1 == Discarded(l)
    ensures s.cursor.seg > l.first ==> Discarded(l) == 0
  {
    hide Span, GoodIn, Bytes, Whole, Counts, Fates, Scan;
    if s.cursor.seg == l.first {
      ScanClosed(sum, s, l, l.first, l.cursor.at);
    }
  }

  lemma BytesHeld(sum: Checksum, s: QState, l: Log)
    requires Rep(sum, s, l)
    ensures Inv(l) && Shape(l) && s.bytes == Held(l) && s.writeOff == WriteOff(l)
  {
    hide Span, GoodIn, Bytes, Whole, Tracks, Cursors;
  }

  lemma RepReject(sum: Checksum, s: QState, l: Log)
    requires Rep(sum, s, l)
    ensures Rep(sum, s, l.(rejected := l.rejected + 1))
  {
    hide Span, GoodIn, Bytes, Whole, Tracks, Closed, Counters, Writing, Cursors, At, Shape, Keeps;
    var m := l.(rejected := l.rejected + 1);
    RejectSafe(l);
    CursorsSame(s, s, l, m);
    WriteSegment(s, l);
    FilesSame(s, s, l, m);
  }

  lemma RoomFits(l: Log, maxBytes: nat, r: Rec, io: RollIo)
    requires Inv(l)
    ensures Fits(l, maxBytes, r) ==> MakeRoom(l, maxBytes, SizeOf(r), io) == (l, 0, true)
  {
    hide Tracks, Span;
  }

  lemma DropCounts(l: Log, io: RollIo)
    requires Inv(l)
    ensures var (m, n, ok) := DropSegment(l, io);
      && m.rejected == l.rejected
      && (if ok then m.evictedGood == l.evictedGood + n else m.evictedGood == l.evictedGood && n == 0)
  {
    hide Tracks, Span, Whole, Discarded;
  }

  /** The write, case by case, in terms of the bytes in hand. */
  lemma WriteCases(sum: Checksum, s: QState, l: Log, segBytes: nat, r: Rec, evicted: nat, io: PushIo)
    requires Rep(sum, s, l) && r.good && Genuine(sum, r)
    ensures Inv(l) && Shape(l)
    ensures |Pending(s.writer) + Encode(r)| == WriteOff(l) - l.flushed + SizeOf(r)
    ensures s.writer.None? && !io.canOpen ==> WriteOp(l, segBytes, r, evicted, io) == (l, Failed)
    ensures s.writer.Some? || io.canOpen ==>
      match io.write
      case WriteFails(extra) =>
        var k := l.flushed + Partial(extra, |Pending(s.writer) + Encode(r)|);
        && Shape(LoseTail(l, k)) && LoseTail(l, k).flushed <= WriteOff(LoseTail(l, k))
        && WriteOp(l, segBytes, r, evicted, io) == (TryRoll(LoseTail(l, k), io.roll).0, Failed)
        && TryRoll(LoseTail(l, k), io.roll).0.evictedGood == l.evictedGood
        && TryRoll(LoseTail(l, k), io.roll).0.rejected == l.rejected
      case Wrote(spill) =>
        var m := StoreOp(l, r, Min(spill, |Pending(s.writer) + Encode(r)|));
        && Shape(m) && m.flushed <= WriteOff(m)
        && m.evictedGood == l.evictedGood && m.rejected == l.rejected
        && TryRoll(m, io.roll).0.evictedGood == l.evictedGood && TryRoll(m, io.roll).0.rejected == l.rejected
        && WriteOp(l, segBytes, r, evicted, io)
           == if WriteOff(m) < segBytes then (m, Stored(evicted))
              else (TryRoll(m, io.roll).0, if TryRoll(m, io.roll).1 then Stored(evicted) else Failed)
  {
    hide Span, GoodIn, Bytes, Whole, Tracks, Cursors, Encode, Keeps, TryRoll, LoseTail, StoreOp, Rep;
    WriterFits(sum, s, l);
    EncodedFields(r);
    match io.write
    case WriteFails(extra) =>
      var k := l.flushed + Partial(extra, |Pending(s.writer) + Encode(r)|);
      LoseTailSafe(l, k);
      LoseCounters(l, k);
      RollCounters(LoseTail(l, k), io.roll);
    case Wrote(spill) =>
      StoreSafe(l, r, spill);
      StoreSpill(l, r, spill);
      StoreCounters(l, r, spill);
      RollCounters(StoreOp(l, r, spill), io.roll);
  }

  lemma LoseCounters(l: Log, k: nat)
    requires Shape(l)
    ensures var m := LoseTail(l, k); m.evictedGood == l.evictedGood && m.rejected == l.rejected
  {
  }

  lemma StoreCounters(l: Log, r: Rec, spill: nat)
    requires Shape(l)
    ensures var m := StoreOp(l, r, spill); m.evictedGood == l.evictedGood && m.rejected == l.rejected
  {
  }

  lemma RollCounters(l: Log, io: RollIo)
    requires Shape(l) && l.flushed <= WriteOff(l)
    ensures var m := TryRoll(l, io).0; m.evictedGood == l.evictedGood && m.rejected == l.rejected
  {
    hide Span, Whole;
  }

  lemma StoreSpill(l: Log, r: Rec, spill: nat)
    requires Shape(l) && l.flushed <= WriteOff(l)
    ensures StoreOp(l, r, spill) == StoreOp(l, r, Min(spill, WriteOff(l) - l.flushed + SizeOf(r)))
  {
    hide Span;
  }

  // ------------------------------------------------------------ acknowledging

  lemma AckBegins(sum: Checksum, s: QState, l: Log, n: nat)
    requires Rep(sum, s, l)
    ensures Inv(l) && Shape(l) && s.segments == Indices(l.first, Last(l) + 1) && s.writeSeg == Last(l)
    ensures s.peek.seg == l.peek.seg && l.first <= l.peek.seg <= Last(l)
    ensures var c := ConfirmOp(l, n); c.cursor == l.peek && c.first == l.first && c.starts == l.starts && Shape(c)
    ensures Last(ConfirmOp(l, n)) == Last(l)
    ensures AckOp(l, n) == UnlinkOp(ConfirmOp(l, n), l.peek.seg)
  {
    hide Span, GoodIn, Bytes, Whole, Closed, Writing, Counts, Fates;
  }

  lemma UnlinkNone(l: Log)
    requires Shape(l)
    ensures l.first <= Last(l) && UnlinkOp(l, l.first) == l
  {
  }

  /** Deleting one more segment. */
  lemma UnlinkAgain(l: Log, upto: nat)
    requires Shape(l) && l.first <= upto < l.cursor.seg <= Last(l)
    ensures var m := UnlinkOp(l, upto);
      && Shape(m) && m.first == upto && m.cursor == l.cursor && upto + 1 <= Last(m)
      && UnlinkOp(m, upto + 1) == UnlinkOp(l, upto + 1)
  {
    UnlinkKeeps(l, upto);
    assert l.starts[upto - l.first..][1..] == l.starts[upto + 1 - l.first..];
  }

  /** The end of the queue is where the reader has nothing left. */
  lemma EndOfData(sum: Checksum, s: QState, l: Log)
    requires Rep(sum, s, l)
    ensures Inv(l) && Shape(l) && l.cursor.at <= l.peek.at <= |l.hist| && s.count == l.count
    ensures l.first <= l.peek.seg <= Last(l)
    ensures s.peek == Cursor(s.writeSeg, s.writeOff) <==> l.peek == Pos(Last(l), |l.hist|)
    ensures GoodIn(l.hist, l.peek.at, |l.hist|) <= Unread(l)
    ensures l.peek == Pos(Last(l), |l.hist|) ==> GoodIn(l.hist, l.peek.at, |l.hist|) == 0
  {
    hide GoodIn, Bytes, Whole, Closed, Writing, Fates, Off;
    SpanAdd(l.hist, l.cursor.at, l.peek.at, |l.hist|);
    SpanZero(l.hist, |l.hist|, |l.hist|);
    if l.peek.seg == Last(l) {
      SpanAdd(l.hist, WriteStart(l), l.peek.at, |l.hist|);
      SpanZero(l.hist, l.peek.at, |l.hist|);
    }
  }

  // ------------------------------------------------------- reading a batch

  lemma PeekBegins(sum: Checksum, s: QState, l: Log)
    requires Rep(sum, s, l)
    ensures Inv(l) && Shape(l) && Last(l) == s.writeSeg && l.peek.seg == s.peek.seg
    ensures l.first <= l.peek.seg <= Last(l) && l.peek.at <= Readable(l, l.peek.seg) && l.peek.at <= |l.hist|
    ensures forall max :: Reading(l, max, l.peek.seg, l.peek, s.peek, 0, false)
    ensures Payloads(l.hist, l.peek.at, l.peek.at) == []
  {
    hide Span, GoodIn, Bytes, Whole, Closed, Counts, Fates;
    PeekStarts(l);
  }

  lemma FlushKeepsPeek(l: Log, fails: Option<nat>)
    requires Shape(l) && l.flushed <= WriteOff(l)
    ensures var m := FlushTry(l, fails); m.peek == l.peek && m.hist == l.hist
  {
    hide Span;
  }

  /** Where the batch loop stands before segment `seg`. */
  ghost predicate Reading(l: Log, max: nat, seg: nat, p: Pos, pos: Cursor, n: nat, hit: bool) {
    && Shape(l) && l.first <= seg <= Last(l) + 1
    && InSegment(l, p) && p.seg <= Last(l) && p.at <= Readable(l, p.seg)
    && At(l, p, pos) && Behind(l.peek, p)
    && (p.seg == seg || (seg == p.seg + 1 && (p.at == Readable(l, p.seg) || n >= max || hit)))
  }

  /** One more segment of the walk. */
  lemma WalkOn(l: Log, max: nat, budget: nat, seg: nat, p: Pos, pos: Cursor, b: Batch)
    requires Reading(l, max, seg, p, pos, b.n, b.hit) && seg <= Last(l) && b.n < max && !b.hit && b.at == p.at
    ensures Start(l, seg) <= p.at <= Readable(l, seg)
    ensures (if seg == pos.seg then pos.off else 0) == Span(l.hist, Start(l, seg), p.at)
    ensures var c := Take(l.hist, Readable(l, seg), max, budget, b);
      Walk(l, max, budget, seg, p, b) == Walk(l, max, budget, seg + 1, Pos(seg, c.at), c)
  {
    hide Take, Whole;
    SegmentReadable(l, p.seg);
    SegmentReadable(l, seg);
    SpanZero(l.hist, Start(l, seg), Start(l, seg));
  }

  lemma ReadingOn(l: Log, max: nat, seg: nat, p: Pos, pos: Cursor, n: nat, got: nat, at: nat, off: nat, hit: bool)
    requires Reading(l, max, seg, p, pos, n, false) && seg <= Last(l) && n < max
    requires Start(l, seg) <= p.at <= at <= Readable(l, seg) && off == Span(l.hist, Start(l, seg), at)
    requires at == Readable(l, seg) || n + got >= max || hit
    ensures at <= |l.hist| && l.peek.at <= p.at
    ensures Reading(l, max, seg + 1, Pos(seg, at), Cursor(seg, off), n + got, hit)
  {
    hide Whole, Span;
    SegmentReadable(l, seg);
  }

  lemma WalkDone(l: Log, max: nat, budget: nat, seg: nat, p: Pos, pos: Cursor, b: Batch)
    requires Reading(l, max, seg, p, pos, b.n, b.hit)
    requires seg > Last(l) || b.n >= max || b.hit
    ensures Walk(l, max, budget, seg, p, b).0 == p
    ensures InSegment(l, p) && Behind(l.peek, p) && p.at <= Durable(l) && At(l, p, pos)
  {
    hide Whole, Span;
    SegmentReadable(l, p.seg);
  }

  lemma MovedPeek(l: Log, p: Pos)
    requires l.peek.at <= p.at <= |l.hist|
    ensures MovePeek(l, p).peek == p && MovePeek(l, p).hist == l.hist
  {
  }

  lemma EmptyPayloads(h: seq<Rec>, a: nat)
    requires a <= |h|
    ensures Payloads(h, a, a) == []
  {
  }

  /** Stepping over record `at`. */
  lemma NextRecord(h: seq<Rec>, start: nat, from: nat, at: nat)
    requires start <= from <= at < |h|
    ensures Span(h, start, at + 1) == Span(h, start, at) + SizeOf(h[at])
    ensures Payloads(h, from, at + 1) == Payloads(h, from, at) + (if h[at].good then [h[at].payload] else [])
  {
  }

  /** What `Open` needs to know of the directory it finds. */
  lemma ImageParts(sum: Checksum, files: map<nat, seq<Byte>>, cf: Option<Cursor>, l: Log, k: nat)
    requires Image(sum, files, cf, l, k)
    ensures Inv(l) && Shape(l) && l.flushed <= k && files.Keys == Indices(l.first, Last(l) + 1) && l.first <= Last(l)
    ensures var m := Repaired(l, k);
      && Scan(sum, files[Last(l)], 0) == (Span(l.hist, WriteStart(l), m), GoodIn(l.hist, WriteStart(l), m))
      && Span(l.hist, WriteStart(l), m) <= |files[Last(l)]|
      && files[Last(l)][..Span(l.hist, WriteStart(l), m)] == Bytes(l.hist, WriteStart(l), m)
    ensures Loaded(cf).seg <= Last(l)
    ensures var c := if Loaded(cf).seg < l.first then Cursor(l.first, 0) else Loaded(cf);
      At(CrashOp(l, k), CrashOp(l, k).cursor, c)
  {
    hide Whole, Span, GoodIn, Bytes, Keeps, Scan, Counts, Fates;
    ImageScan(sum, files, cf, l, k);
    var c := if Loaded(cf).seg < l.first then Cursor(l.first, 0) else Loaded(cf);
    var s := QState(files, cf, {}, 0, 0, 0, None, c, c, None, 0, 0);
    CrashCursors(sum, files, cf, l, k, s);
  }
}
