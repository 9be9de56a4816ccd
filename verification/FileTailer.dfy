/** Tailing files by polling: the fingerprint of a file's head, and the decision,
    per poll, where to read from. */
module FileTailer {
  import opened Options
  import opened Records
  import StateStore
  import opened TextLines

  const FINGERPRINT_BYTES := 512

  // ------------------------------------------------------------ fingerprint

  function FeedIndex(t: Text, from: nat): (i: nat)
    requires from <= |t|
    ensures from <= i <= |t|
    ensures i < |t| ==> t[i] == LF
    ensures forall j :: from <= j < i ==> t[j] != LF
    decreases |t| - from
  {
    if from == |t| || t[from] == LF then from else FeedIndex(t, from + 1)
  }

  /** The head of a file: its first line with the line feed, at most 512 bytes. */
  function Head(t: Text): Text {
    var w := t[..if |t| < FINGERPRINT_BYTES then |t| else FINGERPRINT_BYTES];
    var i := FeedIndex(w, 0);
    if i < |w| then w[..i + 1] else w
  }

  /** However the reads are cut up, the head is what gets hashed. */
  method HeadFingerprint(t: Text, crc: Checksum) returns (h: Word)
    ensures h == crc(Head(t))
  {
    var buf: Text := [];
    while |buf| < FINGERPRINT_BYTES && |buf| < |t| && LF !in buf
      invariant |buf| <= FINGERPRINT_BYTES && |buf| <= |t| && buf == t[..|buf|]
      decreases |t| - |buf|
    {
      var n: nat :| 1 <= n && |buf| + n <= FINGERPRINT_BYTES && |buf| + n <= |t|;
      buf := buf + t[|buf|..|buf| + n];
    }
    var i := FeedIndex(buf, 0);
    HeadOfPrefix(t, |buf|);
    h := crc(if i < |buf| then buf[..i + 1] else buf);
  }

  lemma HeadOfPrefix(t: Text, n: nat)
    requires n <= |t| && n <= FINGERPRINT_BYTES
    requires LF in t[..n] || n == |t| || n == FINGERPRINT_BYTES
    ensures var b := t[..n]; var i := FeedIndex(b, 0); Head(t) == if i < n then b[..i + 1] else b
  {
    var w := t[..if |t| < FINGERPRINT_BYTES then |t| else FINGERPRINT_BYTES];
    var b := t[..n];
    assert b == w[..n];
    var i, j := FeedIndex(b, 0), FeedIndex(w, 0);
    if i < n {
      assert w[i] == b[i];
      assert forall k :: 0 <= k < i ==> w[k] == b[k];
      assert w[..i + 1] == b[..i + 1];
    }
  }

  /** A head that no append can change: its line has ended, or it is full. */
  predicate Settled(t: Text) {
    LF in t[..if |t| < FINGERPRINT_BYTES then |t| else FINGERPRINT_BYTES] || |t| >= FINGERPRINT_BYTES
  }

  lemma SettledHead(t: Text, more: Text)
    requires Settled(t)
    ensures Settled(t + more) && Head(t + more) == Head(t)
  {
    var n := if |t| < FINGERPRINT_BYTES then |t| else FINGERPRINT_BYTES;
    assert (t + more)[..n] == t[..n];
    HeadOfPrefix(t, n);
    HeadOfPrefix(t + more, n);
    if LF in t[..n] {
      var k :| 0 <= k < n && t[..n][k] == LF;
      assert (t + more)[k] == LF;
    }
  }

  /** The head is stable under every append if and only if it is settled. */
  lemma StableIffSettled(t: Text)
    ensures (forall more :: Head(t + more) == Head(t)) <==> Settled(t)
  {
    if Settled(t) {
      forall more
        ensures Head(t + more) == Head(t)
      {
        SettledHead(t, more);
      }
    } else {
      var u := t + [0];
      assert t[..|t|] == t && u[..|u|] == u;
      assert |Head(t)| == |t|;
      assert forall j :: 0 <= j < |t| ==> u[j] == t[j] != LF;
      assert FeedIndex(u, 0) == |u|;
      assert |Head(u)| == |u|;
    }
  }

  // ------------------------------------------------------------- one poll

  datatype Tracked = Tracked(
    identity: string,
    offset: nat,
    lastSize: nat,
    lastMtime: Option<int>,
    firstLineHash: Option<Word>)

  /** What was saved for a file. */
  type FileCursor = StateStore.FileCursor

  /** What one poll sees of a file: stat, then the bytes when the fingerprint is
      taken, then the bytes when it is read; either read may fail. */
  datatype Sight = Sight(
    identity: string,
    size: nat,
    mtime: Option<int>,
    head: Option<Text>,
    body: Option<Text>)

  datatype ReadResult = ReadResult(
    path: string,
    identity: string,
    lines: seq<Text>,
    offset: nat,
    hash: Option<Word>)

  /** A new file at the path starts from its own saved cursor, if any. */
  function Rotated(t: Tracked, s: Sight, saved: Option<FileCursor>): Tracked {
    if t.identity == s.identity then t
    else
      Tracked(s.identity, if saved.Some? then saved.value.offset else 0, 0, None,
              if saved.Some? then saved.value.firstLineHash else None)
  }

  /** The fingerprint is taken again only if something moved. */
  predicate Gate(t: Tracked, s: Sight) {
    s.size != t.lastSize || s.mtime != t.lastMtime || t.firstLineHash.None?
  }

  /** The head was read and differs from the one recorded. */
  predicate HeadChanged(t: Tracked, s: Sight, crc: Checksum) {
    Gate(t, s) && s.head.Some? && t.firstLineHash.Some? && t.firstLineHash.value != crc(Head(s.head.value))
  }

  /** The entry just before the read. */
  function Checked(t: Tracked, s: Sight, crc: Checksum): Tracked {
    var o := if s.size < t.offset then 0 else t.offset;
    t.(offset := if o > 0 && HeadChanged(t, s, crc) then 0 else o,
       firstLineHash := if Gate(t, s) && s.head.Some? then Some(crc(Head(s.head.value))) else t.firstLineHash,
       lastSize := s.size,
       lastMtime := s.mtime)
  }

  /** The entry after the read, and what was read, if anything could be. */
  function ReadOn(path: string, c: Tracked, s: Sight): (Tracked, Option<ReadResult>)
    requires c.offset <= s.size
  {
    if s.size == c.offset then (c, Some(ReadResult(path, c.identity, [], c.offset, c.firstLineHash)))
    else if s.body.None? then (c, None)
    else
      var (lines, n) := Cut(Window(s.body.value, c.offset, s.size));
      (c.(offset := c.offset + n), Some(ReadResult(path, c.identity, lines, c.offset + n, c.firstLineHash)))
  }

  /** The entry after the poll, and what was read. */
  function Polled(path: string, t: Tracked, s: Sight, saved: Option<FileCursor>, crc: Checksum)
    : (Tracked, Option<ReadResult>)
  {
    ReadOn(path, Checked(Rotated(t, s, saved), s, crc), s)
  }

  class Tailer {
    var tracked: map<string, Tracked>
    const crc: Checksum

    constructor (crc: Checksum)
      ensures tracked == map[] && this.crc == crc
    {
      tracked := map[];
      this.crc := crc;
    }

    /** Admit a file: resume from its saved cursor whatever its size now, or start
        at its end if existing files are skipped, or at 0. */
    method Admit(path: string, identity: string, size: nat, saved: Option<FileCursor>, skipExisting: bool,
                 readFromStart: bool)
      modifies this
      ensures path in old(tracked) ==> tracked == old(tracked)
      ensures path !in old(tracked) ==>
        && path in tracked && tracked == old(tracked)[path := tracked[path]]
        && tracked[path].identity == identity && tracked[path].lastSize == 0 && tracked[path].lastMtime.None?
        && (saved.Some? ==> tracked[path].offset == saved.value.offset
                            && tracked[path].firstLineHash == saved.value.firstLineHash)
        && (saved.None? ==> tracked[path].firstLineHash.None?
                            && tracked[path].offset == if readFromStart || !skipExisting then 0 else size)
    {
      if path in tracked { return; }
      var offset := match saved
        case Some(c) => c.offset
        case None => if skipExisting && !readFromStart then size else 0;
      tracked := tracked[path := Tracked(identity, offset, 0, None,
                                         if saved.Some? then saved.value.firstLineHash else None)];
    }

    /** One pass over some of the tracked files.  Paths that cannot be stat'ed, or
        are not tracked, are skipped. */
    method TailPaths(paths: seq<string>, sights: map<string, Sight>, saved: map<string, FileCursor>)
      returns (results: seq<ReadResult>)
      requires forall j, k :: 0 <= j < k < |paths| ==> paths[j] != paths[k]
      modifies this
      ensures tracked.Keys == old(tracked.Keys)
      ensures forall p :: p in tracked ==>
        tracked[p] == if p in paths && p in sights then After(p, old(tracked[p]), sights[p], saved).0
                      else old(tracked[p])
      ensures results == Results(paths, sights, saved, old(tracked))
    {
      hide Polled, After, Results;
      NoResults(sights, saved, tracked);
      results := [];
      for i := 0 to |paths|
        invariant tracked.Keys == old(tracked.Keys)
        invariant forall p :: p in tracked ==>
          tracked[p] == if p in paths[..i] && p in sights then After(p, old(tracked[p]), sights[p], saved).0
                        else old(tracked[p])
        invariant results == Results(paths[..i], sights, saved, old(tracked))
      {
        var path := paths[i];
        assert path !in paths[..i];
        assert paths[..i + 1] == paths[..i] + [path];
        NextResults(paths[..i], path, sights, saved, old(tracked));
        if path in sights && path in tracked {
          var r := TailFile(path, sights[path], saved);
          if r.Some? { results := results + [r.value]; }
        }
      }
      assert paths[..|paths|] == paths;
    }

    /** Stat, rotation, truncation, fingerprint, read. */
    method TailFile(path: string, s: Sight, saved: map<string, FileCursor>) returns (r: Option<ReadResult>)
      requires path in tracked
      modifies this
      ensures path in tracked && tracked == old(tracked)[path := tracked[path]]
      ensures (tracked[path], r) == After(path, old(tracked[path]), s, saved)
      ensures old(tracked[path]).identity != s.identity && s.identity !in saved
              && s.body.Some? && s.size <= |s.body.value| ==>
        && r.Some? && (r.value.lines, r.value.offset) == Poll(s.body.value[..s.size], 0)
        && tracked[path].identity == s.identity && tracked[path].offset == r.value.offset
      ensures old(tracked[path]).identity != s.identity && s.identity in saved
              && s.body.Some? && saved[s.identity].offset <= s.size <= |s.body.value|
              && (s.head.Some? && saved[s.identity].firstLineHash.Some? ==>
                    saved[s.identity].firstLineHash.value == crc(Head(s.head.value))) ==>
        r.Some? && (r.value.lines, r.value.offset) == Poll(s.body.value[..s.size], saved[s.identity].offset)
    {
      PollReads(path, tracked[path], s, Lookup(saved, s.identity), crc);
      hide Checked, ReadOn, Rotated, Poll, Head;
      var t := Rotate(tracked[path], s, saved);
      t := Check(t, s);
      CheckedWithin(Rotated(tracked[path], s, Lookup(saved, s.identity)), s, crc);
      t, r := Read(path, t, s);
      tracked := tracked[path := t];
    }

    /** A new file at the path replaces the entry. */
    method Rotate(t: Tracked, s: Sight, saved: map<string, FileCursor>) returns (u: Tracked)
      ensures u == Rotated(t, s, Lookup(saved, s.identity))
    {
      u := t;
      if u.identity != s.identity {
        var cursor := Lookup(saved, s.identity);
        u := Tracked(s.identity, if cursor.Some? then cursor.value.offset else 0, 0, None,
                     if cursor.Some? then cursor.value.firstLineHash else None);
      }
    }

    /** Truncation, and the fingerprint if something moved. */
    method Check(t: Tracked, s: Sight) returns (u: Tracked)
      ensures u == Checked(t, s, crc)
    {
      hide Head;
      u := t;
      if s.size < u.offset {
        u := u.(offset := 0);
      }
      if s.size != u.lastSize || s.mtime != u.lastMtime || u.firstLineHash.None? {
        var prev := u.firstLineHash;
        if s.head.Some? {
          var curr := HeadFingerprint(s.head.value, crc);
          if u.offset > 0 && prev.Some? && prev != Some(curr) {
            u := u.(offset := 0);
          }
          u := u.(firstLineHash := Some(curr));
        }
      }
      u := u.(lastSize := s.size, lastMtime := s.mtime);
    }

    /** The lines appended since; nothing changes if they cannot be read. */
    method Read(path: string, t: Tracked, s: Sight) returns (u: Tracked, r: Option<ReadResult>)
      requires t.offset <= s.size
      ensures (u, r) == ReadOn(path, t, s)
    {
      hide Window, Cut;
      u, r := t, None;
      if s.size == u.offset {
        r := Some(ReadResult(path, u.identity, [], u.offset, u.firstLineHash));
      } else if s.body.Some? {
        var lines, newOffset := ReadNewLines(s.body.value, u.offset, s.size);
        u := u.(offset := newOffset);
        r := Some(ReadResult(path, u.identity, lines, u.offset, u.firstLineHash));
      }
    }

    ghost function After(path: string, t: Tracked, s: Sight, saved: map<string, FileCursor>)
      : (Tracked, Option<ReadResult>)
    {
      Polled(path, t, s, Lookup(saved, s.identity), crc)
    }

    /** The results of one pass, in the order of the paths. */
    ghost function Results(paths: seq<string>, sights: map<string, Sight>, saved: map<string, FileCursor>,
                           before: map<string, Tracked>): seq<ReadResult>
    {
      if paths == [] then []
      else
        var p := paths[|paths| - 1];
        Results(paths[..|paths| - 1], sights, saved, before)
        + if p in sights && p in before then
            var r := After(p, before[p], sights[p], saved).1;
            if r.Some? then [r.value] else []
          else []
    }

    lemma NoResults(sights: map<string, Sight>, saved: map<string, FileCursor>, before: map<string, Tracked>)
      ensures Results([], sights, saved, before) == []
    {
    }

    lemma NextResults(paths: seq<string>, p: string, sights: map<string, Sight>, saved: map<string, FileCursor>,
                      before: map<string, Tracked>)
      ensures Results(paths + [p], sights, saved, before)
           == Results(paths, sights, saved, before)
              + if p in sights && p in before then
                  var r := After(p, before[p], sights[p], saved).1;
                  if r.Some? then [r.value] else []
                else []
    {
      assert (paths + [p])[..|paths|] == paths;
    }
  }

  lemma CheckedWithin(t: Tracked, s: Sight, crc: Checksum)
    ensures Checked(t, s, crc).offset <= s.size
  {
  }

  function Lookup(saved: map<string, FileCursor>, identity: string): Option<FileCursor> {
    if identity in saved then Some(saved[identity]) else None
  }

  // ---------------------------------------------------------- when it restarts

  /** Where a poll reads from: never beyond the file, and at 0 exactly if it was
      there already, the file has shrunk below it, or its head has changed. */
  lemma RestartIff(t: Tracked, s: Sight, saved: Option<FileCursor>, crc: Checksum)
    ensures var t1 := Rotated(t, s, saved);
      var o := Checked(t1, s, crc).offset;
      && o <= s.size
      && (o == 0 <==> t1.offset == 0 || s.size < t1.offset || HeadChanged(t1, s, crc))
      && (o != 0 ==> o == t1.offset)
  {
  }

  /** What a poll comes to, from the entry before it and what the file shows alone.  A
      file that was not at the path before starts from its own saved cursor, or from its
      first byte; then, from there or from its first byte if it is shorter than that or
      its head is another one than was recorded, it is read as a file that ends where it
      did when it was stat'ed. */
  lemma PollReads(path: string, t: Tracked, s: Sight, saved: Option<FileCursor>, crc: Checksum)
    ensures var same := t.identity == s.identity;
      var (o, h) := if same then (t.offset, t.firstLineHash)
                    else match saved case Some(c) => (c.offset, c.firstLineHash) case None => (0, None);
      var moved := if same then s.size != t.lastSize || s.mtime != t.lastMtime else s.size != 0 || s.mtime.Some?;
      var changed := moved && s.head.Some? && h.Some? && h.value != crc(Head(s.head.value));
      var from := if s.size < o || changed then 0 else o;
      var (u, r) := Polled(path, t, s, saved, crc);
      && from <= s.size
      && u.identity == s.identity && u.lastSize == s.size && u.lastMtime == s.mtime
      && u.firstLineHash == (if (moved || h.None?) && s.head.Some? then Some(crc(Head(s.head.value))) else h)
      && (s.body.Some? && s.size <= |s.body.value| ==>
            r.Some? && (r.value.lines, r.value.offset) == Poll(s.body.value[..s.size], from))
      && (r.Some? ==> r.value == ReadResult(path, s.identity, r.value.lines, u.offset, u.firstLineHash))
      && (r.None? ==> u.offset == from && s.body.None?)
  {
    hide Head, Cut, Window;
    var k := Checked(Rotated(t, s, saved), s, crc);
    if s.body.Some? && s.size <= |s.body.value| { ReadIsPoll(path, k, s.body.value[..s.size], s); }
  }

  /** A recreated file smaller than the saved offset is read from its beginning,
      because admission does not clamp the offset. */
  lemma RecreatedReadsFromStart(path: string, c: FileCursor, s: Sight, saved: Option<FileCursor>, crc: Checksum)
    requires s.size < c.offset && s.body.Some? && s.size <= |s.body.value|
    ensures var t := Tracked(s.identity, c.offset, 0, None, c.firstLineHash);
      var r := Polled(path, t, s, saved, crc).1;
      r.Some? && (r.value.lines, r.value.offset) == Poll(s.body.value[..s.size], 0)
  {
    hide Polled, Poll, Head;
    PollReads(path, Tracked(s.identity, c.offset, 0, None, c.firstLineHash), s, saved, crc);
  }

  // ---------------------------------------------------------- a file that grows

  /** A poll of a file that held `v` when it was stat'ed and only grows: the reads
      may fail, and see `v` and perhaps more if they do not. */
  ghost predicate Grown(t: Tracked, v: Text, s: Sight) {
    && s.identity == t.identity && s.size == |v|
    && (s.head.Some? ==> v <= s.head.value)
    && (s.body.Some? ==> v <= s.body.value)
  }

  /** Growth restarts a file whose recorded head is that of `h`, a prefix of what
      the file holds now, if and only if a fingerprint is due and can be read, `h`
      was not settled, and the checksum tells the two heads apart. */
  lemma GrowthRestartsIff(t: Tracked, h: Text, v: Text, s: Sight, crc: Checksum)
    requires t.firstLineHash == Some(crc(Head(h))) && h <= v && 0 < t.offset <= |v| && Grown(t, v, s)
    ensures Checked(t, s, crc).offset == 0
            <==> Gate(t, s) && s.head.Some? && !Settled(h) && crc(Head(s.head.value)) != crc(Head(h))
  {
    hide Head, Settled;
    if s.head.Some? && Settled(h) {
      var w := s.head.value;
      assert h + w[|h|..] == w;
      SettledHead(h, w[|h|..]);
    }
  }

  /** The entry follows the append-only file whose bytes so far are `c`; its hash
      was taken when the file held `h`, and is that of the settled head if there is
      one to settle. */
  ghost predicate Follows(t: Tracked, c: Text, h: Text, crc: Checksum) {
    && t.offset <= |c|
    && (t.offset > 0 ==> Settled(c[..t.offset]))
    && (t.firstLineHash.Some? ==>
          && t.firstLineHash.value == crc(Head(h))
          && ((Settled(c) && Head(h) == Head(c))
              || (t.offset == 0 && if t.lastSize == 0 then !Settled(c) else t.lastSize == |c| && c <= h)))
  }

  lemma SettledStays(p: Text, v: Text)
    requires p <= v && Settled(p)
    ensures Settled(v) && Head(v) == Head(p)
  {
    assert p + v[|p|..] == v;
    SettledHead(p, v[|p|..]);
  }

  /** Growth alone never restarts a file that is followed. */
  lemma GrowthKeepsOffset(t: Tracked, c: Text, h: Text, v: Text, s: Sight, crc: Checksum)
    requires Follows(t, c, h, crc) && c <= v && Grown(t, v, s)
    ensures Checked(t, s, crc).offset == t.offset
  {
    hide Head, Settled;
    if t.offset > 0 && t.firstLineHash.Some? && s.head.Some? { SettledStays(c, s.head.value); }
  }

  /** What has been consumed from the start of a file settles its head. */
  lemma ConsumedSettles(v: Text)
    ensures var n := Cut(Window(v, 0, |v|)).1; n <= |v| && (n > 0 ==> Settled(v[..n]))
  {
    hide Lines;
    var w := Window(v, 0, |v|);
    var n := Cut(w).1;
    assert n <= |w| <= |v| && w == v[..|w|];
    PlainAfterStart(w, |w|);
    if 0 < n < FINGERPRINT_BYTES {
      assert v[..n][n - 1] == LF;
    }
  }

  /** A read of a growing file is a poll of what it held when it was stat'ed. */
  lemma ReadIsPoll(path: string, c: Tracked, v: Text, s: Sight)
    requires c.offset <= s.size == |v| && (s.body.Some? ==> v <= s.body.value)
    ensures var (u, r) := ReadOn(path, c, s);
      && u == c.(offset := u.offset)
      && (if r.None? then s.body.None? && u == c
          else (r.value.lines, u.offset) == Poll(v, c.offset)
               && r == Some(ReadResult(path, c.identity, r.value.lines, u.offset, c.firstLineHash)))
      && (s.body.Some? ==> r.Some?) && (s.body.None? && r.Some? ==> c.offset == |v|)
  {
    hide Cut;
    if s.body.Some? { assert Window(s.body.value, c.offset, |v|) == Window(v, c.offset, |v|); }
    if c.offset == |v| { EmptyWindow(v, c.offset); }
  }

  /** One poll of a growing file is a read from the current offset, unless the read
      fails; and the entry goes on following the file, provided that a fingerprint
      that is due can be read, or the first line was complete before. */
  lemma GrowthStep(path: string, t: Tracked, c: Text, h: Text, v: Text, s: Sight, saved: Option<FileCursor>,
                   crc: Checksum)
    requires Follows(t, c, h, crc) && c <= v && Grown(t, v, s)
    requires s.head.Some? || Settled(c)
    ensures var (u, r) := Polled(path, t, s, saved, crc);
      && u.identity == t.identity && t.offset <= |v| && u.offset <= |v|
      && Follows(u, v, if Gate(t, s) && s.head.Some? then s.head.value else h, crc)
  {
    hide Head, Settled, Cut, ReadOn, Poll, Window;
    GrowthKeepsOffset(t, c, h, v, s, crc);
    var k := Checked(t, s, crc);
    ReadIsPoll(path, k, v, s);
    var (u, r) := Polled(path, t, s, saved, crc);
    OffsetSettles(t.offset, c, v, u.offset, r);
    if u.offset > 0 { SettledStays(v[..u.offset], v); }
    if t.firstLineHash.Some? { HeadStays(t, c, h, v, crc); }
    if s.head.Some? && Settled(v) { SettledStays(v, s.head.value); }
    if |v| == 0 { NothingSettled(v); }
  }

  /** A head recorded before is still right for what the file holds now, if nothing
      moved or the first line was complete. */
  lemma HeadStays(t: Tracked, c: Text, h: Text, v: Text, crc: Checksum)
    requires Follows(t, c, h, crc) && t.firstLineHash.Some? && c <= v
    ensures Settled(c) ==> Settled(v) && Head(h) == Head(v)
    ensures t.lastSize == |v| > 0 ==> (Settled(v) && Head(h) == Head(v)) || v <= h
    ensures t.lastSize == |v| > 0 && Settled(v) ==> Head(h) == Head(v)
  {
    hide Head, Settled;
    if Settled(c) {
      SettledStays(c, v);
      if c <= h { SettledStays(c, h); }
    }
    if t.lastSize == |v| > 0 && c <= h && t.lastSize == |c| {
      assert v == c;
    }
  }

  lemma NothingSettled(v: Text)
    requires v == []
    ensures !Settled(v)
  {
  }

  /** Wherever a read leaves off after the beginning, the head is settled. */
  lemma OffsetSettles(o: nat, c: Text, v: Text, o': nat, r: Option<ReadResult>)
    requires o <= |c| && c <= v && (o > 0 ==> Settled(c[..o]))
    requires if r.None? then o' == o else o' == Poll(v, o).1
    ensures o <= o' <= |v| && (o' > 0 ==> Settled(v[..o']))
  {
    hide Head, Settled, Cut;
    if o > 0 {
      assert c[..o] == v[..o];
      assert v[..o] <= v[..o'];
      SettledStays(v[..o], v[..o']);
    } else {
      ConsumedSettles(v);
    }
  }

  lemma EmptyWindow(v: Text, o: nat)
    requires o == |v|
    ensures Cut(Window(v, o, |v|)) == ([], 0)
  {
    var w := Window(v, o, |v|);
    assert w == [];
  }

  // ------------------------------------------------------------------ many polls

  function LinesRead(r: Option<ReadResult>): seq<Text> {
    if r.Some? then r.value.lines else []
  }

  /** Polling an entry again and again: the lines read, and the entry at the end. */
  function PollAll(path: string, t: Tracked, sights: seq<Sight>, saved: Option<FileCursor>, crc: Checksum)
    : (seq<Text>, Tracked)
    decreases |sights|
  {
    if sights == [] then ([], t)
    else
      var (u, r) := Polled(path, t, sights[0], saved, crc);
      var (rest, end) := PollAll(path, u, sights[1..], saved, crc);
      (LinesRead(r) + rest, end)
  }

  /** A poll sees the file `text`, or as much of it as there is; any read may fail. */
  ghost predicate OnFile(identity: string, text: Text, s: Sight) {
    s.identity == identity && s.size <= |text| && (s.body.Some? ==> text[..s.size] <= s.body.value)
  }

  /** The file only grows towards `text` over the polls. */
  ghost predicate Growing(identity: string, text: Text, from: nat, sights: seq<Sight>) {
    && (forall k :: 0 <= k < |sights| ==> OnFile(identity, text, sights[k]) && from <= sights[k].size)
    && (forall k :: 0 <= k < |sights| && sights[k].head.Some? ==> text[..sights[k].size] <= sights[k].head.value)
    && (forall j, k :: 0 <= j <= k < |sights| ==> sights[j].size <= sights[k].size)
  }

  /** A poll from which the file is read again from its beginning. */
  predicate Restarts(t: Tracked, s: Sight, crc: Checksum) {
    t.offset > 0 && Checked(t, s, crc).offset == 0
  }

  ghost predicate NeverRestarts(path: string, t: Tracked, sights: seq<Sight>, saved: Option<FileCursor>, crc: Checksum)
    decreases |sights|
  {
    sights == []
    || (!Restarts(t, sights[0], crc)
        && NeverRestarts(path, Polled(path, t, sights[0], saved, crc).0, sights[1..], saved, crc))
  }

  /** Every fingerprint can be read, except perhaps once the first line was complete
      at the poll before; `n` bytes were there before the first. */
  ghost predicate HeadsHeld(text: Text, n: nat, sights: seq<Sight>)
    decreases |sights|
  {
    sights == []
    || (&& n <= |text| && (sights[0].head.Some? || Settled(text[..n]))
        && HeadsHeld(text, sights[0].size, sights[1..]))
  }

  /** While the fingerprints can be read, rotation, truncation and fingerprint checks
      never interfere with a file that only grows. */
  lemma {:induction false} HeldNeverRestarts(path: string, t: Tracked, text: Text, n: nat, h: Text, sights: seq<Sight>,
                                             saved: Option<FileCursor>, crc: Checksum)
    requires n <= |text| && Follows(t, text[..n], h, crc)
    requires Growing(t.identity, text, n, sights) && HeadsHeld(text, n, sights)
    ensures NeverRestarts(path, t, sights, saved, crc)
    decreases |sights|
  {
    hide Follows, Polled, Settled, Checked;
    if sights != [] {
      var s := sights[0];
      var c, v := text[..n], text[..s.size];
      GrowingOn(t.identity, text, n, sights);
      assert c <= v;
      GrowthKeepsOffset(t, c, h, v, s, crc);
      GrowthStep(path, t, c, h, v, s, saved, crc);
      var u := Polled(path, t, s, saved, crc).0;
      HeldNeverRestarts(path, u, text, s.size, if Gate(t, s) && s.head.Some? then s.head.value else h, sights[1..],
                        saved, crc);
    }
  }

  /** The sizes at which the file could be read. */
  function Sizes(sights: seq<Sight>): seq<nat> {
    if sights == [] then []
    else (if sights[0].body.Some? then [sights[0].size] else []) + Sizes(sights[1..])
  }

  lemma {:induction false} SizesGrow(identity: string, text: Text, from: nat, sights: seq<Sight>)
    requires Growing(identity, text, from, sights)
    ensures Rising(from, Sizes(sights), |text|)
    decreases |sights|
  {
    if sights != [] {
      GrowingOn(identity, text, from, sights);
      SizesGrow(identity, text, sights[0].size, sights[1..]);
    }
  }

  lemma GrowingOn(identity: string, text: Text, from: nat, sights: seq<Sight>)
    requires sights != [] && Growing(identity, text, from, sights)
    ensures OnFile(identity, text, sights[0]) && from <= sights[0].size
    ensures sights[0].head.Some? ==> text[..sights[0].size] <= sights[0].head.value
    ensures Growing(identity, text, sights[0].size, sights[1..])
  {
    hide OnFile;
  }

  lemma GrowingFromLess(identity: string, text: Text, o: nat, from: nat, sights: seq<Sight>)
    requires o <= from && Growing(identity, text, from, sights)
    ensures Growing(identity, text, o, sights)
  {
    hide OnFile;
  }

  /** What is emitted without a restart is what the polls of the text alone would
      emit at the sizes at which it could be read. */
  lemma {:induction false} TailerIsPolls(path: string, t: Tracked, text: Text, n: nat, sights: seq<Sight>,
                                         saved: Option<FileCursor>, crc: Checksum)
    requires t.offset <= n <= |text| && Growing(t.identity, text, n, sights)
    requires NeverRestarts(path, t, sights, saved, crc)
    ensures Growing(t.identity, text, t.offset, sights)
    ensures var (lines, end) := PollAll(path, t, sights, saved, crc);
      (SizesGrow(t.identity, text, t.offset, sights); (lines, end.offset) == Polls(text, t.offset, Sizes(sights)))
    decreases |sights|
  {
    hide Poll, Polls, Polled, Sizes, Restarts, Growing, Rising, OnFile;
    GrowingFromLess(t.identity, text, t.offset, n, sights);
    SizesGrow(t.identity, text, t.offset, sights);
    if sights == [] {
      NoPolls(text, t.offset, sights);
    } else {
      var s := sights[0];
      GrowingOn(t.identity, text, n, sights);
      CalmPoll(path, t, text, s, saved, crc);
      var u := Polled(path, t, s, saved, crc).0;
      TailerIsPolls(path, u, text, s.size, sights[1..], saved, crc);
      SizesGrow(t.identity, text, u.offset, sights[1..]);
      if s.body.Some? {
        MorePolls(text, t.offset, sights);
      } else {
        FailedPoll(sights);
        var rest := PollAll(path, u, sights[1..], saved, crc).0;
        assert [] + rest == rest;
      }
    }
  }

  /** A poll that does not restart. */
  lemma CalmPoll(path: string, t: Tracked, text: Text, s: Sight, saved: Option<FileCursor>, crc: Checksum)
    requires OnFile(t.identity, text, s) && t.offset <= s.size && !Restarts(t, s, crc)
    ensures s.size <= |text|
    ensures var (u, r) := Polled(path, t, s, saved, crc);
      && u.identity == t.identity && u.offset <= s.size
      && (LinesRead(r), u.offset) == if s.body.Some? then Poll(text[..s.size], t.offset) else ([], t.offset)
  {
    hide Poll, ReadOn;
    ReadIsPoll(path, Checked(t, s, crc), text[..s.size], s);
    var r := Polled(path, t, s, saved, crc).1;
    if s.body.None? && r.Some? { EmptyPoll(text[..s.size], t.offset, r); }
  }

  lemma NoPolls(text: Text, o: nat, sights: seq<Sight>)
    requires o <= |text| && sights == []
    ensures Sizes(sights) == [] && Polls(text, o, []) == ([], o)
  {
  }

  lemma MorePolls(text: Text, o: nat, sights: seq<Sight>)
    requires sights != [] && sights[0].body.Some? && o <= sights[0].size <= |text|
    requires Rising(o, Sizes(sights), |text|)
    requires Rising(Poll(text[..sights[0].size], o).1, Sizes(sights[1..]), |text|)
    ensures var (first, o') := Poll(text[..sights[0].size], o);
      var (rest, end) := Polls(text, o', Sizes(sights[1..]));
      Polls(text, o, Sizes(sights)) == (first + rest, end)
  {
    hide Poll;
    assert Sizes(sights)[0] == sights[0].size && Sizes(sights)[1..] == Sizes(sights[1..]);
  }

  lemma FailedPoll(sights: seq<Sight>)
    requires sights != [] && sights[0].body.None?
    ensures Sizes(sights) == Sizes(sights[1..])
  {
  }

  lemma EmptyPoll(v: Text, o: nat, r: Option<ReadResult>)
    requires o <= |v| && r.Some? && r.value.lines == Poll(v, o).0 && o == |v|
    ensures LinesRead(r) == [] && Poll(v, o).1 == o
  {
    EmptyWindow(v, o);
  }

  // -------------------------------------------------- whatever the reads do

  /** One poll of short lines from a line start, any read failing: it starts where
      the last one left off or at 0, and emits exactly the lines from there to where
      it leaves off, which is a line start again. */
  lemma PollStep(path: string, t: Tracked, text: Text, s: Sight, saved: Option<FileCursor>, crc: Checksum)
    requires ShortLines(text) && OnFile(t.identity, text, s) && t.offset <= |text| && AtLineStart(text, t.offset)
    ensures var (u, r) := Polled(path, t, s, saved, crc);
      var o := if Restarts(t, s, crc) then 0 else t.offset;
      && u.identity == t.identity
      && o <= u.offset <= s.size <= |text| && AtLineStart(text, u.offset)
      && Lines(text, u.offset) == Lines(text, o) + LinesRead(r)
      && (r.Some? ==> r.value.path == path && r.value.offset == u.offset && r.value.hash == u.firstLineHash)
  {
    hide Lines, LineStart, Head, Cut, ShortLines, ReadOn, Poll;
    var k := Checked(t, s, crc);
    StartsLine(text);
    ReadIsPoll(path, k, text[..s.size], s);
    PollCuts(text, k.offset, s.size);
  }

  lemma StartsLine(text: Text)
    ensures AtLineStart(text, 0) && Lines(text, 0) == []
  {
  }

  /** No poll restarts after a line was emitted. */
  ghost predicate RepeatsNothing(path: string, t: Tracked, text: Text, sights: seq<Sight>, saved: Option<FileCursor>,
                                 crc: Checksum)
    decreases |sights|
  {
    sights == []
    || (&& t.offset <= |text| && (Restarts(t, sights[0], crc) ==> Lines(text, t.offset) == [])
        && RepeatsNothing(path, Polled(path, t, sights[0], saved, crc).0, text, sights[1..], saved, crc))
  }

  ghost predicate AllOnFile(identity: string, text: Text, sights: seq<Sight>) {
    forall k :: 0 <= k < |sights| ==> OnFile(identity, text, sights[k])
  }

  /** Every restart emits again what was emitted before it. */
  lemma {:induction false} PollAllEmits(path: string, t: Tracked, text: Text, sights: seq<Sight>,
                                        saved: Option<FileCursor>, crc: Checksum)
    requires ShortLines(text) && AllOnFile(t.identity, text, sights)
    requires t.offset <= |text| && AtLineStart(text, t.offset)
    ensures var (lines, end) := PollAll(path, t, sights, saved, crc);
      && end.offset <= |text| && AtLineStart(text, end.offset)
      && |Lines(text, t.offset)| + |lines| >= |Lines(text, end.offset)|
      && (if RepeatsNothing(path, t, text, sights, saved, crc)
          then Lines(text, t.offset) + lines == Lines(text, end.offset)
          else |Lines(text, t.offset)| + |lines| > |Lines(text, end.offset)|)
    decreases |sights|
  {
    hide Lines, LineStart, ShortLines, Polled, Restarts, OnFile;
    if sights != [] {
      var s := sights[0];
      assert OnFile(t.identity, text, s);
      PollStep(path, t, text, s, saved, crc);
      StartsLine(text);
      PollAllEmits(path, Polled(path, t, s, saved, crc).0, text, sights[1..], saved, crc);
    }
  }

  /** From a fresh entry, on a file of short lines, whatever the schedule of appends
      and polls and whichever reads fail: the lines emitted are those of the text
      consumed, cut once, if and only if no poll restarts after a line was emitted. */
  lemma TailerCutsOnceIff(path: string, identity: string, text: Text, sights: seq<Sight>,
                          saved: Option<FileCursor>, crc: Checksum)
    requires ShortLines(text) && AllOnFile(identity, text, sights)
    ensures var t := Tracked(identity, 0, 0, None, None);
      var (lines, end) := PollAll(path, t, sights, saved, crc);
      && end.offset <= |text| && AtLineStart(text, end.offset)
      && (lines == Lines(text, end.offset) <==> RepeatsNothing(path, t, text, sights, saved, crc))
  {
    hide Polled, Lines, LineStart, ShortLines, PollAll, RepeatsNothing, AllOnFile;
    StartsLine(text);
    PollAllEmits(path, Tracked(identity, 0, 0, None, None), text, sights, saved, crc);
  }

  lemma {:induction false} NothingRepeated(path: string, t: Tracked, text: Text, sights: seq<Sight>,
                                           saved: Option<FileCursor>, crc: Checksum)
    requires NeverRestarts(path, t, sights, saved, crc) && AllOnFile(t.identity, text, sights) && t.offset <= |text|
    requires ShortLines(text) && AtLineStart(text, t.offset)
    ensures RepeatsNothing(path, t, text, sights, saved, crc)
    decreases |sights|
  {
    hide Lines, LineStart, ShortLines, Polled, Restarts;
    if sights != [] {
      assert OnFile(t.identity, text, sights[0]);
      PollStep(path, t, text, sights[0], saved, crc);
      NothingRepeated(path, Polled(path, t, sights[0], saved, crc).0, text, sights[1..], saved, crc);
    }
  }

  /** On a growing file whose fingerprints can be read until its first line is
      complete, that is so: the lines emitted are those of the text consumed, cut
      once. */
  lemma TailerCutsOnce(path: string, identity: string, text: Text, sights: seq<Sight>,
                       saved: Option<FileCursor>, crc: Checksum)
    requires ShortLines(text) && Growing(identity, text, 0, sights) && HeadsHeld(text, 0, sights)
    ensures var (lines, end) := PollAll(path, Tracked(identity, 0, 0, None, None), sights, saved, crc);
      end.offset <= |text| && AtLineStart(text, end.offset) && lines == Lines(text, end.offset)
  {
    hide Polled, Lines, LineStart, HeadsHeld, ShortLines, PollAll, RepeatsNothing, NeverRestarts, OnFile;
    var t := Tracked(identity, 0, 0, None, None);
    StartsLine(text);
    HeldNeverRestarts(path, t, text, 0, [], sights, saved, crc);
    NothingRepeated(path, t, text, sights, saved, crc);
    TailerCutsOnceIff(path, identity, text, sights, saved, crc);
  }

  /** Otherwise it need not be: a first line seen unfinished, emitted at a poll that
      could not read its fingerprint, is emitted again at the next one, if the
      checksum tells the two heads apart. */
  lemma RestartRepeats(path: string, a: Text, b: Text, c: Text, first: seq<Text>, all: seq<Text>,
                       saved: Option<FileCursor>, crc: Checksum)
    requires a <= b <= c && 0 < |a| < |b| < |c|
    requires Cut(Window(a, 0, |a|)) == ([], 0)
    requires Cut(Window(b, 0, |b|)) == (first, |b|) && Cut(Window(c, 0, |c|)) == (all, |c|)
    requires crc(Head(a)) != crc(Head(c))
    ensures var sights := [Sight("", |a|, None, Some(a), Some(a)),
                           Sight("", |b|, None, None, Some(b)),
                           Sight("", |c|, None, Some(c), Some(c))];
      && Growing("", c, 0, sights)
      && !NeverRestarts(path, Tracked("", 0, 0, None, None), sights, saved, crc)
      && PollAll(path, Tracked("", 0, 0, None, None), sights, saved, crc).0 == first + all
  {
    hide Head, Cut, Window, NeverRestarts, PollAll, Growing, OnFile;
    var s1, s2, s3 := Sight("", |a|, None, Some(a), Some(a)), Sight("", |b|, None, None, Some(b)),
                      Sight("", |c|, None, Some(c), Some(c));
    ThreeGrowing(a, b, c);
    var t0, t1 := Tracked("", 0, 0, None, None), Tracked("", 0, |a|, None, Some(crc(Head(a))));
    var t2, t3 := Tracked("", |b|, |b|, None, Some(crc(Head(a)))), Tracked("", |c|, |c|, None, Some(crc(Head(c))));
    OnePoll(path, t2, s3, [], saved, crc);
    OnePoll(path, t1, s2, [s3], saved, crc);
    OnePoll(path, t0, s1, [s2, s3], saved, crc);
    NoMore(path, t3, saved, crc);
    assert [s1, s2, s3] == [s1] + [s2, s3] && [s2, s3] == [s2] + [s3] && [s3] == [s3] + [];
    assert [] + (first + (all + [])) == first + all;
  }

  lemma ThreeGrowing(a: Text, b: Text, c: Text)
    requires a <= b <= c
    ensures Growing("", c, 0, [Sight("", |a|, None, Some(a), Some(a)),
                               Sight("", |b|, None, None, Some(b)),
                               Sight("", |c|, None, Some(c), Some(c))])
  {
    assert c[..|a|] == a && c[..|b|] == b && c[..|c|] == c;
  }

  lemma NoMore(path: string, t: Tracked, saved: Option<FileCursor>, crc: Checksum)
    ensures PollAll(path, t, [], saved, crc) == ([], t)
  {
  }

  /** As with "a", then "ab" and its line feed, then a second line "cd". */
  lemma GrowthCanRestart(path: string, crc: Checksum, saved: Option<FileCursor>)
    requires crc([97]) != crc([97, 98, LF])
    ensures exists sights ::
      && Growing("", [97, 98, LF, 99, 100, LF], 0, sights)
      && !NeverRestarts(path, Tracked("", 0, 0, None, None), sights, saved, crc)
      && PollAll(path, Tracked("", 0, 0, None, None), sights, saved, crc).0 == [[97, 98], [97, 98], [99, 100]]
  {
    hide Growing, NeverRestarts, PollAll, Head, Cut, Window;
    var a, b, c := [97], [97, 98, LF], [97, 98, LF, 99, 100, LF];
    HeadOf(a, 1);
    HeadOf(c, 3);
    CutThree();
    assert a[..1] == a && c[..3] == b;
    RestartRepeats(path, a, b, c, [[97, 98]], [[97, 98], [99, 100]], saved, crc);
    assert [[97, 98]] + [[97, 98], [99, 100]] == [[97, 98], [97, 98], [99, 100]];
  }

  /** One poll of several. */
  lemma OnePoll(path: string, t: Tracked, s: Sight, rest: seq<Sight>, saved: Option<FileCursor>, crc: Checksum)
    ensures var (u, r) := Polled(path, t, s, saved, crc);
      && PollAll(path, t, [s] + rest, saved, crc)
         == (LinesRead(r) + PollAll(path, u, rest, saved, crc).0, PollAll(path, u, rest, saved, crc).1)
      && (NeverRestarts(path, t, [s] + rest, saved, crc)
          <==> !Restarts(t, s, crc) && NeverRestarts(path, u, rest, saved, crc))
  {
    hide Polled, Restarts;
    assert ([s] + rest)[1..] == rest;
  }

  lemma HeadOf(t: Text, n: nat)
    requires 0 < n <= |t| <= FINGERPRINT_BYTES && (forall j :: 0 <= j < n - 1 ==> t[j] != LF)
    requires t[n - 1] == LF || (n == |t| && t[n - 1] != LF)
    ensures Head(t) == t[..n]
  {
    var i := FeedIndex(t[..|t|], 0);
    assert t[..|t|] == t;
    if t[n - 1] == LF { assert i >= n - 1; }
  }

  lemma CutThree()
    ensures Cut(Window([97], 0, 1)) == ([], 0)
    ensures Cut(Window([97, 98, LF], 0, 3)) == ([[97, 98]], 3)
    ensures Cut(Window([97, 98, LF, 99, 100, LF], 0, 6)) == ([[97, 98], [99, 100]], 6)
  {
    hide Lines, LineStart;
    var a, b, c := [97], [97, 98, LF], [97, 98, LF, 99, 100, LF];
    assert Window(a, 0, 1) == a && Window(b, 0, 3) == b && Window(c, 0, 6) == c;
    NoLines(a, 1);
    PlainLine([97, 98]);
    PlainLine([99, 100]);
    var d := [99, 100] + [LF];
    assert [97, 98] + [LF] == b && b + d == c;
    LinesSplit(b, d, 3);
    assert Clean([97, 98]) == [[97, 98]] && Clean([99, 100]) == [[99, 100]];
    assert [[97, 98]] + [[99, 100]] == [[97, 98], [99, 100]];
    assert Lines(c, 6) == [[97, 98], [99, 100]] && LineStart(c, 6) == 6;
    CutAtFeed(c);
  }

  lemma CutAtFeed(w: Text)
    requires LineStart(w, |w|) == |w|
    ensures Cut(w) == (Lines(w, |w|), |w|)
  {
  }

  /** An offset seeded at the end of a file whose first line is unfinished was not
      reached by reading: growth changes the head, and the file is read again from
      its beginning exactly if the checksum tells the two heads apart. */
  lemma SeededAtEndRestarts(t: Tracked, c: Text, more: Text, s: Sight, saved: Option<FileCursor>, crc: Checksum)
    requires c != [] && !Settled(c) && more != []
    requires t.offset == |c| == t.lastSize && t.firstLineHash == Some(crc(Head(c)))
    requires Grown(t, c + more, s) && s.head == Some(c + more)
    ensures Head(c + more) != Head(c)
    ensures Checked(Rotated(t, s, saved), s, crc).offset == 0 <==> crc(Head(c + more)) != crc(Head(c))
  {
    var u := c + more;
    assert c[..|c|] == c;
    assert |Head(c)| == |c|;
    var n := if |u| < FINGERPRINT_BYTES then |u| else FINGERPRINT_BYTES;
    assert forall j :: 0 <= j < |c| ==> u[..n][j] == c[j] != LF;
    assert FeedIndex(u[..n], 0) >= |c|;
    assert |Head(u)| > |c|;
  }
}
