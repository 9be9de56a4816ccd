/** Delivery of what the tailer reads: lines are sent before the offset they lead
    to is saved, so a file survives any number of restarts without a line lost. */
module TailDelivery {
  import opened Naturals
  import opened Options
  import opened Records
  import StateStore
  import opened TextLines
  import opened FileTailer

  // ------------------------------------------------------ one pass of results

  function AllLines(results: seq<ReadResult>): seq<Text> {
    if results == [] then [] else AllLines(results[..|results| - 1]) + results[|results| - 1].lines
  }

  /** Send lines until one is refused; `room` sends go through. */
  method SendLines(lines: seq<Text>, room: nat) returns (sent: seq<Text>, all: bool)
    ensures sent <= lines && all == (|lines| <= room) && |sent| == if all then |lines| else room
  {
    sent, all := [], true;
    for j := 0 to |lines|
      invariant sent == lines[..j] && all && j <= room
    {
      if j == room { return sent, false; }
      sent := sent + [lines[j]];
    }
  }

  /** Send the lines of each result and then save its offset.  `accepted` sends go
      through before the channel closes or cancellation interrupts one; cancellation
      is also looked for before each result, and seen at number `seenAt`. */
  method SendResults(results: seq<ReadResult>, accepted: nat, seenAt: nat)
    returns (sent: seq<Text>, saved: seq<ReadResult>)
    ensures saved <= results
    ensures AllLines(saved) <= sent <= AllLines(results) && |sent| <= accepted
    ensures |saved| == |results| || |saved| == seenAt || |AllLines(results[..|saved| + 1])| > accepted == |sent|
    ensures |saved| < |results| ==> |sent| <= |AllLines(results[..|saved| + 1])|
  {
    hide AllLines;
    NoResultLines();
    sent, saved := [], [];
    for i := 0 to |results|
      invariant saved == results[..i] && sent == AllLines(saved) && |sent| <= accepted
    {
      AllLinesPrefix(results, i);
      AllLinesPrefix(results, i + 1);
      OneMoreResult(results, i);
      if i == seenAt { return; }
      var some, all := SendLines(results[i].lines, accepted - |sent|);
      sent := sent + some;
      if !all { return; }
      saved := saved + [results[i]];
    }
    assert results[..|results|] == results;
  }

  lemma NoResultLines()
    ensures AllLines([]) == []
  {
  }

  lemma OneMoreResult(results: seq<ReadResult>, i: nat)
    requires i < |results|
    ensures results[..i + 1] == results[..i] + [results[i]]
    ensures AllLines(results[..i + 1]) == AllLines(results[..i]) + results[i].lines
  {
    var p := results[..i + 1];
    assert p[..i] == results[..i];
    assert p[i] == results[i];
  }

  lemma {:induction false} AllLinesPrefix(results: seq<ReadResult>, i: nat)
    requires i <= |results|
    ensures AllLines(results[..i]) <= AllLines(results)
    decreases |results|
  {
    if i == |results| {
      assert results[..i] == results;
    } else {
      var init := results[..|results| - 1];
      AllLinesPrefix(init, i);
      assert init[..i] == results[..i];
    }
  }

  // ------------------------------------------- across rotations and restarts

  /** An offset that was saved, and the fingerprint saved with it. */
  datatype Mark = Mark(offset: nat, hash: Option<Word>)

  /** Everything saved so far for a file, and everything sent so far of it. */
  datatype Feed = Feed(marks: seq<Mark>, sent: seq<Text>)

  /** What happens to the tailer: its process ends and another one begins, a file is
      found at a path, or a path is polled, and all or only `cut` of the lines read are
      sent.  The saved cursor of a file is any mark of it, as what survives may be old. */
  datatype Occasion =
    | Restart
    | Find(path: string, identity: string, from: Option<nat>, skip: bool)
    | Visit(path: string, sight: Sight, from: Option<nat>, cut: Option<nat>)

  /** The entry of every path, and the feed of every file, whichever path it was at. */
  datatype World = World(entries: map<string, Tracked>, feeds: map<string, Feed>)

  /** The files, and where each is first followed from if existing content is skipped. */
  datatype Disk = Disk(text: string -> Text, base: string -> nat)

  ghost predicate Readable(d: Disk) {
    forall id: string :: ReadableFile(d.text(id), d.base(id))
  }

  ghost predicate ReadableFile(text: Text, base: nat) {
    ShortLines(text) && base <= |text| && AtLineStart(text, base)
  }

  function FeedOf(w: World, identity: string): Feed {
    if identity in w.feeds then w.feeds[identity] else Feed([], [])
  }

  predicate IsMark(f: Feed, from: Option<nat>) {
    from.Some? ==> from.value < |f.marks|
  }

  function CursorAt(path: string, f: Feed, from: Option<nat>): Option<FileCursor>
    requires IsMark(f, from)
  {
    if from.None? then None
    else Some(StateStore.FileCursor(path, f.marks[from.value].offset, 0, f.marks[from.value].hash))
  }

  /** What one poll adds; nothing if the file could not be read. */
  function Fed(f: Feed, u: Tracked, r: Option<ReadResult>): Feed {
    if r.None? then f else Feed(f.marks + [Mark(u.offset, u.firstLineHash)], f.sent + r.value.lines)
  }

  /** A poll sees one of the files, or as much of it as there is; any read may fail. */
  ghost predicate CanHappen(d: Disk, w: World, e: Occasion) {
    match e
    case Restart => true
    case Find(_, id, from, _) => IsMark(FeedOf(w, id), from)
    case Visit(path, s, from, _) =>
      path in w.entries && OnFile(s.identity, d.text(s.identity), s) && IsMark(FeedOf(w, s.identity), from)
  }

  /** A process that is refused a line polls no more, its offset not yet saved. */
  ghost function Happened(d: Disk, w: World, e: Occasion, crc: Checksum): World
    requires CanHappen(d, w, e)
  {
    match e
    case Restart => w.(entries := map[])
    case Find(path, id, from, skip) =>
      var t := match CursorAt(path, FeedOf(w, id), from)
        case Some(c) => Tracked(id, c.offset, 0, None, c.firstLineHash)
        case None => Tracked(id, if skip then d.base(id) else 0, 0, None, None);
      w.(entries := w.entries[path := t])
    case Visit(path, s, from, cut) =>
      var (g, u) := Visited(path, w.entries[path], FeedOf(w, s.identity), s, from, cut, crc);
      World(if u.Some? then w.entries[path := u.value] else map[], w.feeds[s.identity := g])
  }

  /** What one poll of a path makes of the feed of the file there, and of the entry, if
      the process goes on. */
  function Visited(path: string, t: Tracked, f: Feed, s: Sight, from: Option<nat>, cut: Option<nat>, crc: Checksum)
    : (Feed, Option<Tracked>)
    requires IsMark(f, from)
  {
    var (u, r) := Polled(path, t, s, CursorAt(path, f, from), crc);
    if cut.Some? && cut.value <= |LinesRead(r)| then (f.(sent := f.sent + LinesRead(r)[..cut.value]), None)
    else (Fed(f, u, r), Some(u))
  }

  ghost predicate Happens(d: Disk, w: World, es: seq<Occasion>, crc: Checksum)
    decreases |es|
  {
    es == [] || (CanHappen(d, w, es[0]) && Happens(d, Happened(d, w, es[0], crc), es[1..], crc))
  }

  ghost function WorldAfter(d: Disk, w: World, es: seq<Occasion>, crc: Checksum): World
    requires Happens(d, w, es, crc)
    decreases |es|
  {
    if es == [] then w else WorldAfter(d, Happened(d, w, es[0], crc), es[1..], crc)
  }

  // -------------------------------------------------- one pass and the polls in it

  /** The lines of result `i` among the first `n` that are sent. */
  function PartSent(results: seq<ReadResult>, i: nat, n: nat): seq<Text>
    requires i < |results|
  {
    var before := |AllLines(results[..i])|;
    results[i].lines[..Min(Minus(n, before), |results[i].lines|)]
  }

  /** Sending the results of a pass is, for each of its files, one visit: whole and saved
      for the results before the interruption, cut short where it falls, and cut before
      the first line after it. */
  lemma SendIsPolling(path: string, t: Tracked, s: Sight, f: Feed, from: Option<nat>, crc: Checksum,
                      results: seq<ReadResult>, i: nat, sent: seq<Text>, savedResults: seq<ReadResult>)
    requires IsMark(f, from)
    requires i < |results| && Polled(path, t, s, CursorAt(path, f, from), crc).1 == Some(results[i])
    requires savedResults <= results && AllLines(savedResults) <= sent <= AllLines(results)
    requires |savedResults| < |results| ==> |sent| <= |AllLines(results[..|savedResults| + 1])|
    ensures var part := PartSent(results, i, |sent|);
      var cut := if i < |savedResults| then None else Some(|part|);
      Visited(path, t, f, s, from, cut, crc).0
      == Feed(f.marks + (if i < |savedResults| then [MarkOf(results[i])] else []), f.sent + part)
    ensures AllLines(results[..i]) + PartSent(results, i, |sent|) <= sent || |sent| < |AllLines(results[..i])|
  {
    hide Polled;
    var k := |savedResults|;
    assert savedResults == results[..k];
    MarkIs(path, t, s, CursorAt(path, f, from), crc);
    var lines := results[i].lines;
    OneMoreResult(results, i);
    AllLinesPrefix(results, i + 1);
    if i < k {
      AllLinesMono(results, i + 1, k);
      assert lines[..|lines|] == lines;
    } else {
      AllLinesMono(results, k, i);
      if k < i { AllLinesMono(results, k + 1, i); }
    }
    PartIsPrefix(AllLines(results[..i]), lines, AllLines(results), sent);
  }

  /** What is saved for a result. */
  function MarkOf(r: ReadResult): Mark {
    Mark(r.offset, r.hash)
  }

  lemma MarkIs(path: string, t: Tracked, s: Sight, saved: Option<FileCursor>, crc: Checksum)
    ensures var (u, r) := Polled(path, t, s, saved, crc);
      r.Some? ==> MarkOf(r.value) == Mark(u.offset, u.firstLineHash)
  {
    hide Checked, Cut, Window;
  }

  lemma AllLinesMono(results: seq<ReadResult>, i: nat, j: nat)
    requires i <= j <= |results|
    ensures AllLines(results[..i]) <= AllLines(results[..j])
  {
    AllLinesPrefix(results[..j], i);
    assert results[..j][..i] == results[..i];
  }

  lemma PartIsPrefix(before: seq<Text>, lines: seq<Text>, all: seq<Text>, sent: seq<Text>)
    requires before + lines <= all && sent <= all
    ensures var part := lines[..Min(Minus(|sent|, |before|), |lines|)];
      |before| <= |sent| ==> before + part <= sent
  {
    var part := lines[..Min(Minus(|sent|, |before|), |lines|)];
    if |before| <= |sent| {
      assert before + part == (before + lines)[..|before| + |part|] == all[..|before| + |part|];
      assert all[..|before| + |part|] == sent[..|before| + |part|];
    }
  }

  // ------------------------------------------------------------- at least once

  /** The lines from `base` to `o` have all been sent, each as often as it occurs. */
  ghost predicate Covered(text: Text, base: nat, o: nat, sent: seq<Text>)
    requires base <= |text|
  {
    && o <= |text| && AtLineStart(text, o)
    && multiset(Lines(text, o)) <= multiset(Lines(text, base)) + multiset(sent)
  }

  ghost predicate GoodFeed(text: Text, base: nat, f: Feed)
    requires base <= |text|
  {
    && (forall i :: 0 <= i < |f.marks| ==> Covered(text, base, f.marks[i].offset, f.sent))
    && (forall i :: 0 <= i < |f.sent| ==> f.sent[i] in Lines(text, |text|))
  }

  lemma MoreCovered(text: Text, base: nat, o: nat, sent: seq<Text>, more: seq<Text>)
    requires base <= |text| && Covered(text, base, o, sent)
    ensures Covered(text, base, o, sent + more)
  {
    hide Lines, AtLineStart;
  }

  lemma NextCovered(text: Text, base: nat, o: nat, o': nat, lines: seq<Text>, sent: seq<Text>)
    requires base <= |text| && Covered(text, base, o, sent) && o' <= |text| && AtLineStart(text, o')
    requires Lines(text, o') == Lines(text, o) + lines
    ensures Covered(text, base, o', sent + lines)
  {
    hide Lines, AtLineStart;
  }

  lemma {:induction false} LinesGrow(t: Text, i: nat, j: nat)
    requires i <= j <= |t|
    ensures Lines(t, i) <= Lines(t, j)
  {
    hide Clean, LineStart;
    if i < j { LinesGrow(t, i, j - 1); }
  }

  lemma StillGood(text: Text, base: nat, f: Feed, more: seq<Text>)
    requires base <= |text| && GoodFeed(text, base, f)
    requires forall i :: 0 <= i < |more| ==> more[i] in Lines(text, |text|)
    ensures GoodFeed(text, base, f.(sent := f.sent + more))
  {
    hide Lines, Covered;
    var g := f.(sent := f.sent + more);
    forall i | 0 <= i < |g.marks| ensures Covered(text, base, g.marks[i].offset, g.sent) {
      MoreCovered(text, base, f.marks[i].offset, f.sent, more);
    }
  }

  lemma OneMore(text: Text, base: nat, f: Feed, m: Mark)
    requires base <= |text| && GoodFeed(text, base, f) && Covered(text, base, m.offset, f.sent)
    ensures GoodFeed(text, base, f.(marks := f.marks + [m]))
  {
    hide Covered, Lines;
  }

  /** One poll, all of whose lines are sent, whatever could be read: every line from
      `base` to the new offset is sent. */
  lemma PollDelivers(path: string, t: Tracked, text: Text, base: nat, s: Sight, sent: seq<Text>,
                     saved: Option<FileCursor>, crc: Checksum)
    requires ShortLines(text) && OnFile(t.identity, text, s) && base <= |text| && Covered(text, base, t.offset, sent)
    ensures var (u, r) := Polled(path, t, s, saved, crc);
      && u.identity == t.identity
      && Covered(text, base, u.offset, sent + LinesRead(r))
      && forall i :: 0 <= i < |LinesRead(r)| ==> LinesRead(r)[i] in Lines(text, |text|)
  {
    hide Lines, LineStart, ShortLines, Polled, Restarts;
    PollStep(path, t, text, s, saved, crc);
    StartsLine(text);
    var (u, r) := Polled(path, t, s, saved, crc);
    var o := if Restarts(t, s, crc) then 0 else t.offset;
    assert Covered(text, base, o, sent);
    NextCovered(text, base, o, u.offset, LinesRead(r), sent);
    SentAreLines(text, u.offset, Lines(text, o), LinesRead(r));
  }

  lemma SentAreLines(text: Text, o: nat, before: seq<Text>, lines: seq<Text>)
    requires o <= |text| && Lines(text, o) == before + lines
    ensures forall i :: 0 <= i < |lines| ==> lines[i] in Lines(text, |text|)
  {
    LinesGrow(text, o, |text|);
    hide Lines;
    forall i | 0 <= i < |lines| ensures lines[i] in Lines(text, |text|) {
      assert lines[i] == Lines(text, o)[|before| + i] == Lines(text, |text|)[|before| + i];
    }
  }

  /** What one poll adds to a good feed, sent whole, is good. */
  lemma FedGood(text: Text, base: nat, f: Feed, u: Tracked, r: Option<ReadResult>)
    requires base <= |text| && GoodFeed(text, base, f) && Covered(text, base, u.offset, f.sent + LinesRead(r))
    requires forall i :: 0 <= i < |LinesRead(r)| ==> LinesRead(r)[i] in Lines(text, |text|)
    ensures GoodFeed(text, base, Fed(f, u, r)) && Covered(text, base, u.offset, Fed(f, u, r).sent)
  {
    hide Lines, Covered, GoodFeed;
    if r.Some? {
      StillGood(text, base, f, r.value.lines);
      OneMore(text, base, f.(sent := f.sent + r.value.lines), Mark(u.offset, u.firstLineHash));
    } else {
      assert f.sent + [] == f.sent;
    }
  }

  /** One visit, with the file that was there before or with another one: whatever is
      saved and sent for the file stays good, and so does the entry. */
  lemma VisitGood(path: string, t: Tracked, f: Feed, s: Sight, from: Option<nat>, cut: Option<nat>, text: Text,
                  base: nat, crc: Checksum)
    requires ReadableFile(text, base) && OnFile(s.identity, text, s) && IsMark(f, from) && GoodFeed(text, base, f)
    requires t.identity == s.identity ==> Covered(text, base, t.offset, f.sent)
    ensures var (g, u) := Visited(path, t, f, s, from, cut, crc);
      && GoodFeed(text, base, g) && f.sent <= g.sent
      && (u.Some? ==> u.value.identity == s.identity && Covered(text, base, u.value.offset, g.sent))
  {
    hide Lines, LineStart, ShortLines, Polled, GoodFeed, Covered, Fed, OnFile;
    var saved := CursorAt(path, f, from);
    var t1 := Rotated(t, s, saved);
    RotatedOnce(path, t, s, saved, crc);
    if t.identity != s.identity {
      if from.Some? { MarkCovered(text, base, f, from.value); } else { StartCovered(text, base, f.sent); }
    }
    PollDelivers(path, t1, text, base, s, f.sent, saved, crc);
    var (u, r) := Polled(path, t, s, saved, crc);
    if cut.Some? && cut.value <= |LinesRead(r)| {
      StillGood(text, base, f, LinesRead(r)[..cut.value]);
    } else {
      FedGood(text, base, f, u, r);
      FedMore(f, u, r);
    }
  }

  lemma RotatedOnce(path: string, t: Tracked, s: Sight, saved: Option<FileCursor>, crc: Checksum)
    ensures var t1 := Rotated(t, s, saved);
      && t1.identity == s.identity && Polled(path, t1, s, saved, crc) == Polled(path, t, s, saved, crc)
      && (t.identity == s.identity ==> t1 == t)
      && (t.identity != s.identity ==> t1.offset == if saved.Some? then saved.value.offset else 0)
  {
    hide Checked, ReadOn;
  }

  lemma StartCovered(text: Text, base: nat, sent: seq<Text>)
    requires base <= |text|
    ensures Covered(text, base, 0, sent)
  {
    hide Lines;
    StartsLine(text);
  }

  lemma FedMore(f: Feed, u: Tracked, r: Option<ReadResult>)
    ensures f.sent <= Fed(f, u, r).sent
  {
  }

  lemma MarkCovered(text: Text, base: nat, f: Feed, i: nat)
    requires base <= |text| && GoodFeed(text, base, f) && i < |f.marks|
    ensures Covered(text, base, f.marks[i].offset, f.sent)
  {
    hide Covered;
  }

  /** Every feed is good, and every entry stands where all lines before have been sent. */
  ghost predicate GoodWorld(d: Disk, w: World)
    requires Readable(d)
  {
    && (forall id :: id in w.feeds ==> FileGood(d, w, id))
    && (forall path :: path in w.entries ==> EntryGood(d, w, w.entries[path]))
  }

  ghost predicate FileGood(d: Disk, w: World, id: string)
    requires Readable(d)
  {
    assert ReadableFile(d.text(id), d.base(id));
    GoodFeed(d.text(id), d.base(id), FeedOf(w, id))
  }

  ghost predicate EntryGood(d: Disk, w: World, t: Tracked)
    requires Readable(d)
  {
    assert ReadableFile(d.text(t.identity), d.base(t.identity));
    Covered(d.text(t.identity), d.base(t.identity), t.offset, FeedOf(w, t.identity).sent)
  }

  lemma NoFeedGood(d: Disk, w: World, id: string)
    requires Readable(d) && GoodWorld(d, w)
    ensures FileGood(d, w, id)
  {
    hide FileGood, EntryGood, Readable, ReadableFile;
    if id !in w.feeds { UnfedGood(d, w, id); }
  }

  lemma UnfedGood(d: Disk, w: World, id: string)
    requires Readable(d) && id !in w.feeds
    ensures FileGood(d, w, id)
  {
  }

  /** An entry stays good while more is sent. */
  lemma EntryStays(d: Disk, w: World, v: World, t: Tracked)
    requires Readable(d) && EntryGood(d, w, t) && FeedOf(w, t.identity).sent <= FeedOf(v, t.identity).sent
    ensures EntryGood(d, v, t)
  {
    hide Covered;
    var sent, more := FeedOf(w, t.identity).sent, FeedOf(v, t.identity).sent;
    assert ReadableFile(d.text(t.identity), d.base(t.identity));
    MoreCovered(d.text(t.identity), d.base(t.identity), t.offset, sent, more[|sent|..]);
    assert sent + more[|sent|..] == more;
  }

  /** A file whose feed is left alone. */
  lemma FileStays(d: Disk, w: World, v: World, id: string)
    requires Readable(d) && FileGood(d, w, id) && FeedOf(v, id) == FeedOf(w, id)
    ensures FileGood(d, v, id)
  {
  }

  lemma FindGood(d: Disk, w: World, e: Occasion, crc: Checksum)
    requires Readable(d) && GoodWorld(d, w) && e.Find? && CanHappen(d, w, e)
    ensures var v := Happened(d, w, e, crc);
      && v.feeds == w.feeds && e.path in v.entries && v.entries == w.entries[e.path := v.entries[e.path]]
      && EntryGood(d, v, v.entries[e.path])
  {
    hide Lines, LineStart, ShortLines, Covered, GoodFeed, GoodWorld;
    var id, f := e.identity, FeedOf(w, e.identity);
    assert ReadableFile(d.text(id), d.base(id));
    NoFeedGood(d, w, id);
    if e.from.Some? {
      MarkCovered(d.text(id), d.base(id), f, e.from.value);
    } else {
      StartCovered(d.text(id), d.base(id), f.sent);
      BaseCovered(d.text(id), d.base(id), f.sent);
    }
  }

  lemma BaseCovered(text: Text, base: nat, sent: seq<Text>)
    requires ReadableFile(text, base)
    ensures Covered(text, base, base, sent)
  {
    hide Lines;
  }

  lemma VisitsGood(d: Disk, w: World, e: Occasion, crc: Checksum)
    requires Readable(d) && GoodWorld(d, w) && e.Visit? && CanHappen(d, w, e)
    ensures var v := Happened(d, w, e, crc);
      var id := e.sight.identity;
      && v.feeds == w.feeds[id := FeedOf(v, id)] && FileGood(d, v, id)
      && FeedOf(w, id).sent <= FeedOf(v, id).sent
      && (v.entries == map[] || (e.path in v.entries && v.entries == w.entries[e.path := v.entries[e.path]]
                                 && EntryGood(d, v, v.entries[e.path])))
  {
    hide Lines, LineStart, ShortLines, Covered, GoodFeed, Visited, OnFile;
    var id, f, t := e.sight.identity, FeedOf(w, e.sight.identity), w.entries[e.path];
    assert ReadableFile(d.text(id), d.base(id));
    NoFeedGood(d, w, id);
    assert EntryGood(d, w, t);
    VisitGood(e.path, t, f, e.sight, e.from, e.cut, d.text(id), d.base(id), crc);
  }

  lemma HappenedGood(d: Disk, w: World, e: Occasion, crc: Checksum)
    requires Readable(d) && GoodWorld(d, w) && CanHappen(d, w, e)
    ensures GoodWorld(d, Happened(d, w, e, crc))
  {
    hide FileGood, EntryGood, Readable, Happened, CanHappen, FeedOf;
    var v := Happened(d, w, e, crc);
    match e {
      case Restart => RestartLeaves(d, w, crc);
      case Find(_, _, _, _) => FindGood(d, w, e, crc);
      case Visit(_, _, _, _) => VisitsGood(d, w, e, crc);
    }
    var id := if e.Visit? then e.sight.identity else "";
    forall j | j in v.feeds ensures FileGood(d, v, j) {
      if !e.Visit? || j != id {
        SameFeed(w, v, j);
        FileStays(d, w, v, j);
      }
    }
    forall path | path in v.entries ensures EntryGood(d, v, v.entries[path]) {
      if path in w.entries && v.entries[path] == w.entries[path] {
        var t := v.entries[path];
        if !e.Visit? || t.identity != id { SameFeed(w, v, t.identity); }
        EntryStays(d, w, v, t);
      }
    }
  }

  lemma SameFeed(w: World, v: World, id: string)
    requires (id in v.feeds <==> id in w.feeds) && (id in w.feeds ==> v.feeds[id] == w.feeds[id])
    ensures FeedOf(v, id) == FeedOf(w, id) && FeedOf(w, id).sent <= FeedOf(v, id).sent
  {
  }

  lemma RestartLeaves(d: Disk, w: World, crc: Checksum)
    ensures CanHappen(d, w, Restart) && Happened(d, w, Restart, crc) == World(map[], w.feeds)
  {
  }

  lemma {:induction false} HappensGood(d: Disk, w: World, es: seq<Occasion>, crc: Checksum)
    requires Readable(d) && GoodWorld(d, w) && Happens(d, w, es, crc)
    ensures GoodWorld(d, WorldAfter(d, w, es, crc))
    decreases |es|
  {
    hide GoodWorld, Readable, Happened, CanHappen;
    if es != [] {
      HappenedGood(d, w, es[0], crc);
      HappensGood(d, Happened(d, w, es[0], crc), es[1..], crc);
    }
  }

  /** At least once: files of short lines are tailed over any number of processes, each
      stopped anywhere, between two lines or while idle, each resuming a file from any
      offset saved before; files replace each other at a path, turn up at others, and any
      read of a fingerprint or of a file may fail.  Every offset ever saved for a file is
      a line start of it, and every line of it between where it was first followed from
      and that offset has been sent, each as often as it occurs; and nothing is sent
      that is not a line of the file. */
  lemma AtLeastOnce(d: Disk, es: seq<Occasion>, crc: Checksum, id: string)
    requires Readable(d) && Happens(d, World(map[], map[]), es, crc)
    ensures var f := FeedOf(WorldAfter(d, World(map[], map[]), es, crc), id);
      var text, base := d.text(id), d.base(id);
      && base <= |text|
      && (forall i :: 0 <= i < |f.marks| ==> Covered(text, base, f.marks[i].offset, f.sent))
      && (forall i :: 0 <= i < |f.sent| ==> f.sent[i] in Lines(text, |text|))
  {
    hide Lines, LineStart, Covered, WorldAfter, Happens, ShortLines;
    assert ReadableFile(d.text(id), d.base(id));
    var w := World(map[], map[]);
    HappensGood(d, w, es, crc);
    NoFeedGood(d, WorldAfter(d, w, es, crc), id);
  }

  /** Stopping for good after an interrupted send is what this rests on: one more
      idle poll in the same session would save the offset behind the lines that were
      not sent. */
  lemma PollingOnWouldSkip(path: string, t: Tracked, s: Sight, idle: Sight, saved: Option<FileCursor>, crc: Checksum)
    requires s.identity == t.identity == idle.identity && s.body.Some?
    requires Polled(path, t, s, saved, crc).0.offset == s.size
    requires idle == s
    ensures var u := Polled(path, t, s, saved, crc).0;
      var r := Polled(path, u, idle, saved, crc).1;
      r.Some? && r.value.lines == [] && r.value.offset == u.offset
  {
    hide Head, Cut, Window;
  }
}
