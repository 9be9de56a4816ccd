/** Cutting a window of file bytes into lines, as the tailer does, and what the
    cutting means however the file is read. */
module TextLines {
  import opened Records

  const LF := 10
  const CR := 13
  const MAX_LINE := 1024 * 1024
  const READ_BUDGET := 4 * 1024 * 1024

  type Text = seq<Byte>

  /** One past the last line feed before `i`, or 0. */
  function LineStart(t: Text, i: nat): (s: nat)
    requires i <= |t|
    ensures s <= i
  {
    if i == 0 then 0 else if t[i - 1] == LF then i else LineStart(t, i - 1)
  }

  lemma {:induction false} PlainAfterStart(t: Text, i: nat)
    requires i <= |t|
    ensures LineStart(t, i) > 0 ==> t[LineStart(t, i) - 1] == LF
    ensures forall j :: LineStart(t, i) <= j < i ==> t[j] != LF
  {
    if i > 0 { PlainAfterStart(t, i - 1); }
  }

  /** A line without its line feed: one trailing CR goes, an empty line is dropped. */
  function Clean(raw: Text): seq<Text> {
    var line := if raw != [] && raw[|raw| - 1] == CR then raw[..|raw| - 1] else raw;
    if line == [] then [] else [line]
  }

  /** The lines ended by a line feed among the first `i` bytes. */
  function Lines(t: Text, i: nat): seq<Text>
    requires i <= |t|
  {
    if i == 0 then []
    else if t[i - 1] == LF then Lines(t, i - 1) + Clean(t[LineStart(t, i - 1)..i - 1])
    else Lines(t, i - 1)
  }

  /** What one read makes of its window: the complete lines, and an over-long
      unterminated rest as a line of its own; and how much it consumes. */
  function Cut(w: Text): (r: (seq<Text>, nat))
    ensures r.1 <= |w|
  {
    var c := LineStart(w, |w|);
    if |w| - c >= MAX_LINE then (Lines(w, |w|) + [w[c..]], |w|) else (Lines(w, |w|), c)
  }

  method CutWindow(buf: Text) returns (lines: seq<Text>, consumed: nat)
    ensures (lines, consumed) == Cut(buf)
  {
    lines, consumed := [], 0;
    var start := 0;
    for i := 0 to |buf|
      invariant start == consumed == LineStart(buf, i)
      invariant lines == Lines(buf, i)
    {
      if buf[i] == LF {
        var end := i;
        if end > start && buf[end - 1] == CR {
          end := end - 1;
        }
        if end > start {
          lines := lines + [buf[start..end]];
        }
        assert Clean(buf[start..i]) == if end > start then [buf[start..end]] else [] by {
          if end < i { assert buf[start..i][..end - start] == buf[start..end]; }
        }
        start := i + 1;
        consumed := start;
      }
    }
    // An over-long unterminated line is forced out.
    if |buf| - consumed >= MAX_LINE {
      lines := lines + [buf[consumed..]];
      consumed := |buf|;
    }
  }

  // ------------------------------------------------------ cutting and joining

  predicate AtLineStart(t: Text, i: nat)
    requires i <= |t|
  {
    LineStart(t, i) == i
  }

  lemma SecondPart<T>(a: seq<T>, b: seq<T>, x: nat, y: nat)
    requires x <= y <= |b|
    ensures (a + b)[|a| + x..|a| + y] == b[x..y]
  {
    assert (a + b)[|a|..] == b;
    assert (a + b)[|a| + x..|a| + y] == (a + b)[|a|..][x..y];
  }

  /** Cutting at a line start and cutting the parts is the same. */
  lemma {:induction false} LinesSplit(a: Text, b: Text, i: nat)
    requires AtLineStart(a, |a|) && i <= |b|
    ensures |a| + i <= |a + b|
    ensures LineStart(a + b, |a| + i) == |a| + LineStart(b, i)
    ensures Lines(a + b, |a| + i) == Lines(a, |a|) + Lines(b, i)
  {
    hide Clean, Lines, LineStart;
    var t := a + b;
    if i == 0 {
      SamePrefixLines(a, t, |a|);
      LinesNone(b);
    } else {
      LinesSplit(a, b, i - 1);
      var k := |a| + i;
      LinesStep(t, k);
      LinesStep(b, i);
      assert t[k - 1] == b[i - 1];
      if b[i - 1] == LF { SecondPart(a, b, LineStart(b, i - 1), i - 1); }
    }
  }

  lemma LinesNone(t: Text)
    ensures LineStart(t, 0) == 0 && Lines(t, 0) == []
  {
  }

  lemma LinesStep(t: Text, i: nat)
    requires 0 < i <= |t|
    ensures LineStart(t, i) == if t[i - 1] == LF then i else LineStart(t, i - 1)
    ensures Lines(t, i) == Lines(t, i - 1) + (if t[i - 1] == LF then Clean(t[LineStart(t, i - 1)..i - 1]) else [])
  {
  }

  lemma {:induction false} SamePrefixLines(a: Text, c: Text, i: nat)
    requires i <= |a| && i <= |c| && a[..i] == c[..i]
    ensures LineStart(a, i) == LineStart(c, i) && Lines(a, i) == Lines(c, i)
  {
    if i > 0 {
      assert a[i - 1] == a[..i][i - 1] == c[i - 1];
      assert a[..i - 1] == a[..i][..i - 1] == c[..i - 1];
      SamePrefixLines(a, c, i - 1);
      if a[i - 1] == LF {
        var s := LineStart(a, i - 1);
        assert a[s..i - 1] == a[..i][s..i - 1] == c[..i][s..i - 1] == c[s..i - 1];
      }
    }
  }

  /** The text of a list of raw lines, each ended by a line feed. */
  function Join(raws: seq<Text>): Text {
    if raws == [] then [] else Join(raws[..|raws| - 1]) + raws[|raws| - 1] + [LF]
  }

  function CleanAll(raws: seq<Text>): seq<Text> {
    if raws == [] then [] else CleanAll(raws[..|raws| - 1]) + Clean(raws[|raws| - 1])
  }

  predicate NoFeed(t: Text) {
    forall j :: 0 <= j < |t| ==> t[j] != LF
  }

  /** Cutting recovers the lines a text was joined from. */
  lemma {:induction false} LinesOfJoin(raws: seq<Text>)
    requires forall k :: 0 <= k < |raws| ==> NoFeed(raws[k])
    ensures AtLineStart(Join(raws), |Join(raws)|)
    ensures Lines(Join(raws), |Join(raws)|) == CleanAll(raws)
  {
    hide Lines, Clean, LineStart;
    if raws != [] {
      var init, last := raws[..|raws| - 1], raws[|raws| - 1];
      LinesOfJoin(init);
      var a, b := Join(init), last + [LF];
      assert Join(raws) == a + b;
      LinesSplit(a, b, |b|);
      PlainLine(last);
    } else {
      EmptyText();
    }
  }

  // ---------------------------------------------- what the lines of a text are

  /** A line as it stands in a text: its bytes, and whether CR LF ends it or LF alone. */
  datatype Row = Row(bytes: Text, cr: bool)

  /** No line feed is inside a row, and a CR before a lone line feed would be part of
      the terminator. */
  predicate GoodRow(r: Row) {
    NoFeed(r.bytes) && (!r.cr && r.bytes != [] ==> r.bytes[|r.bytes| - 1] != CR)
  }

  predicate GoodRows(rows: seq<Row>) {
    forall k :: 0 <= k < |rows| ==> GoodRow(rows[k])
  }

  function RawRow(r: Row): Text {
    r.bytes + if r.cr then [CR] else []
  }

  /** The text the rows make up. */
  function TextOfRows(rows: seq<Row>): Text {
    if rows == [] then [] else TextOfRows(rows[..|rows| - 1]) + RawRow(rows[|rows| - 1]) + [LF]
  }

  /** The rows with anything in them. */
  function Filled(rows: seq<Row>): seq<Text> {
    if rows == [] then []
    else
      var r := rows[|rows| - 1];
      Filled(rows[..|rows| - 1]) + if r.bytes == [] then [] else [r.bytes]
  }

  lemma CleanRow(r: Row)
    requires GoodRow(r)
    ensures NoFeed(RawRow(r)) && Clean(RawRow(r)) == if r.bytes == [] then [] else [r.bytes]
  {
    if r.cr { assert RawRow(r)[..|r.bytes|] == r.bytes; } else { assert RawRow(r) == r.bytes; }
  }

  function RawRows(rows: seq<Row>): (raws: seq<Text>)
    ensures |raws| == |rows|
  {
    seq(|rows|, k requires 0 <= k < |rows| => RawRow(rows[k]))
  }

  lemma {:induction false} JoinRows(rows: seq<Row>)
    requires GoodRows(rows)
    ensures Join(RawRows(rows)) == TextOfRows(rows) && CleanAll(RawRows(rows)) == Filled(rows)
    ensures forall k :: 0 <= k < |rows| ==> NoFeed(RawRows(rows)[k])
  {
    hide Clean, NoFeed, RawRow, GoodRow;
    if rows != [] {
      var init, last := rows[..|rows| - 1], rows[|rows| - 1];
      JoinRows(init);
      CleanRow(last);
      assert RawRows(rows)[..|rows| - 1] == RawRows(init);
      forall k | 0 <= k < |rows| ensures NoFeed(RawRows(rows)[k]) {
        if k < |rows| - 1 { assert RawRows(rows)[k] == RawRows(init)[k]; }
      }
    }
  }

  /** Cutting a text gives the bytes of its rows, whichever way each is ended, and
      nothing for the empty ones. */
  lemma LinesOfRows(rows: seq<Row>)
    requires GoodRows(rows)
    ensures AtLineStart(TextOfRows(rows), |TextOfRows(rows)|)
    ensures Lines(TextOfRows(rows), |TextOfRows(rows)|) == Filled(rows)
  {
    hide Lines, LineStart, Join, TextOfRows, CleanAll, Filled, RawRows, GoodRow;
    JoinRows(rows);
    LinesOfJoin(RawRows(rows));
  }

  /** Every text up to a line start is made up of rows. */
  lemma {:induction false} RowsOf(t: Text, i: nat) returns (rows: seq<Row>)
    requires i <= |t|
    ensures GoodRows(rows) && t[..LineStart(t, i)] == TextOfRows(rows)
  {
    hide TextOfRows, GoodRow, RawRow;
    if i == 0 {
      rows := [];
      NoRows();
    } else {
      rows := RowsOf(t, i - 1);
      if t[i - 1] == LF {
        var s := LineStart(t, i - 1);
        PlainAfterStart(t, i - 1);
        var r := RowOf(t, s, i - 1);
        RowsAndOne(rows, r);
        LastRow(t, s, i);
        rows := rows + [r];
      }
    }
  }

  lemma LastRow(t: Text, s: nat, i: nat)
    requires s < i <= |t| && t[i - 1] == LF
    ensures t[..i] == t[..s] + t[s..i - 1] + [LF]
  {
    assert t[..i - 1] == t[..s] + t[s..i - 1];
    assert t[..i] == t[..i - 1] + [t[i - 1]];
  }

  lemma NoRows()
    ensures TextOfRows([]) == []
  {
  }

  lemma RowsAndOne(rows: seq<Row>, r: Row)
    requires GoodRows(rows) && GoodRow(r)
    ensures GoodRows(rows + [r]) && TextOfRows(rows + [r]) == TextOfRows(rows) + RawRow(r) + [LF]
  {
    hide GoodRow, RawRow;
    assert (rows + [r])[..|rows|] == rows;
  }

  lemma RowOf(t: Text, s: nat, i: nat) returns (r: Row)
    requires s <= i < |t| && forall j :: s <= j < i ==> t[j] != LF
    ensures GoodRow(r) && RawRow(r) == t[s..i]
  {
    var cr := s < i && t[i - 1] == CR;
    r := Row(t[s..if cr then i - 1 else i], cr);
  }

  /** So, of any text, the lines are the filled rows of the part that has ended: none is
      empty, none has a line feed in it. */
  lemma LinesAreRows(t: Text) returns (rows: seq<Row>)
    ensures GoodRows(rows) && t[..LineStart(t, |t|)] == TextOfRows(rows) && Lines(t, |t|) == Filled(rows)
    ensures forall k :: 0 <= k < |Lines(t, |t|)| ==> Lines(t, |t|)[k] != [] && NoFeed(Lines(t, |t|)[k])
  {
    hide Lines, LineStart, TextOfRows, Filled, GoodRow;
    rows := RowsOf(t, |t|);
    var c := LineStart(t, |t|);
    LinesOfRows(rows);
    ToLineStart(t, |t|);
    assert t[..c][..c] == t[..c];
    SamePrefixLines(t[..c], t, c);
    FilledPlain(rows);
  }

  /** What a read makes of its window, told from the bytes alone: the window is rows and
      an unended rest; the filled rows are the lines, and the rest is left to the next
      read unless it is over-long, and then a line too. */
  lemma CutIsRows(w: Text) returns (rows: seq<Row>, rest: Text)
    ensures GoodRows(rows) && NoFeed(rest) && w == TextOfRows(rows) + rest
    ensures var (lines, n) := Cut(w);
      && lines == (if |rest| >= MAX_LINE then Filled(rows) + [rest] else Filled(rows))
      && n == (if |rest| >= MAX_LINE then |w| else |w| - |rest|)
      && forall k :: 0 <= k < |lines| ==> lines[k] != [] && NoFeed(lines[k])
  {
    hide Lines, LineStart, TextOfRows, Filled, GoodRow;
    rows := LinesAreRows(w);
    var c := LineStart(w, |w|);
    rest := w[c..];
    PlainAfterStart(w, |w|);
    assert w == w[..c] + w[c..];
  }

  lemma {:induction false} FilledPlain(rows: seq<Row>)
    requires GoodRows(rows)
    ensures forall k :: 0 <= k < |Filled(rows)| ==> Filled(rows)[k] != [] && NoFeed(Filled(rows)[k])
  {
    if rows != [] {
      FilledPlain(rows[..|rows| - 1]);
      assert GoodRow(rows[|rows| - 1]);
    }
  }

  lemma EmptyText()
    ensures LineStart([], 0) == 0 && Lines([], 0) == []
  {
  }

  lemma PlainLine(raw: Text)
    requires NoFeed(raw)
    ensures LineStart(raw + [LF], |raw| + 1) == |raw| + 1
    ensures Lines(raw + [LF], |raw| + 1) == Clean(raw)
  {
    hide Lines, LineStart, Clean;
    var t := raw + [LF];
    NoLines(t, |raw|);
    LinesStep(t, |raw| + 1);
    assert t[0..|raw|] == raw;
  }

  lemma {:induction false} NoLines(t: Text, i: nat)
    requires i <= |t| && forall j :: 0 <= j < i ==> t[j] != LF
    ensures LineStart(t, i) == 0 && Lines(t, i) == []
  {
    if i > 0 { NoLines(t, i - 1); }
  }

  // ---------------------------------------------------------- reads and polls

  /** The bytes one read looks at: from `offset`, within the size seen by stat,
      at most the budget, and no further than the file reaches by then. */
  function Window(content: Text, offset: nat, size: nat): Text
    requires offset <= size
  {
    var end := offset + (if size - offset < READ_BUDGET then size - offset else READ_BUDGET);
    if |content| < offset then [] else content[offset..if end < |content| then end else |content|]
  }

  method ReadNewLines(content: Text, offset: nat, size: nat) returns (lines: seq<Text>, newOffset: nat)
    requires offset <= size
    ensures (lines, newOffset - offset) == Cut(Window(content, offset, size))
    ensures offset <= newOffset <= size && newOffset <= offset + READ_BUDGET
    ensures newOffset > offset ==> newOffset <= |content|
  {
    var toRead := if size - offset < READ_BUDGET then size - offset else READ_BUDGET;
    var buf: Text := [];
    // Each read returns some of the bytes asked for; none means the file ended.
    while |buf| < toRead && offset + |buf| < |content|
      invariant |buf| <= toRead
      invariant |buf| > 0 ==> offset + |buf| <= |content|
      invariant buf == if |content| < offset then [] else content[offset..offset + |buf|]
      decreases toRead - |buf|
    {
      var n: nat :| 1 <= n <= toRead - |buf| && offset + |buf| + n <= |content|;
      buf := buf + content[offset + |buf|..offset + |buf| + n];
    }
    assert buf == Window(content, offset, size);
    var consumed;
    lines, consumed := CutWindow(buf);
    newOffset := offset + consumed;
  }

  /** No line of the text reaches the forced-out length. */
  ghost predicate ShortLines(t: Text) {
    forall i :: 0 <= i <= |t| ==> i - LineStart(t, i) < MAX_LINE
  }

  /** A poll of a file of which `t` is there when it is stat'ed. */
  function Poll(t: Text, offset: nat): (r: (seq<Text>, nat))
    requires offset <= |t|
    ensures offset <= r.1 <= |t|
  {
    var (lines, n) := Cut(Window(t, offset, |t|));
    (lines, offset + n)
  }

  /** Sizes that never fall, from `from` up to `end`. */
  predicate Rising(from: nat, sizes: seq<nat>, end: nat) {
    && (forall k :: 0 <= k < |sizes| ==> from <= sizes[k] <= end)
    && (forall j, k :: 0 <= j <= k < |sizes| ==> sizes[j] <= sizes[k])
  }

  /** Polls of an append-only file at the lengths `sizes`. */
  function Polls(t: Text, offset: nat, sizes: seq<nat>): (r: (seq<Text>, nat))
    requires offset <= |t| && Rising(offset, sizes, |t|)
    ensures offset <= r.1 <= |t|
    decreases |sizes|
  {
    if sizes == [] then ([], offset)
    else
      var (first, o) := Poll(t[..sizes[0]], offset);
      var (rest, end) := Polls(t, o, sizes[1..]);
      (first + rest, end)
  }

  lemma StartInWindow(t: Text, a: nat, i: nat, j: nat)
    requires a <= i <= j <= |t| && AtLineStart(t, a)
    ensures i - a <= |t[a..j]| && LineStart(t, i) == a + LineStart(t[a..j], i - a)
    ensures Lines(t, i) == Lines(t, a) + Lines(t[a..j], i - a)
  {
    hide Clean, Lines, LineStart;
    var p, w := t[..a], t[a..j];
    assert t[..j] == p + w;
    SamePrefixLines(p, t, a);
    LinesSplit(p, w, i - a);
    assert (p + w)[..i] == t[..i];
    SamePrefixLines(p + w, t, i);
  }

  /** One poll of short lines from a line start emits exactly the lines up to the
      new offset, which is again a line start. */
  lemma PollCuts(t: Text, offset: nat, size: nat)
    requires ShortLines(t) && offset <= size <= |t| && AtLineStart(t, offset)
    ensures var (lines, o) := Poll(t[..size], offset);
      && offset <= o <= size && AtLineStart(t, o)
      && Lines(t, o) == Lines(t, offset) + lines
  {
    hide Clean, Lines, LineStart;
    var v := t[..size];
    var w := Window(v, offset, size);
    var end := offset + |w|;
    assert w == t[offset..end];
    StartInWindow(t, offset, end, end);
    var o := offset + LineStart(w, |w|);
    assert Poll(v, offset) == (Lines(w, |w|), o);
    StartInWindow(t, offset, o, end);
    ToLineStart(w, |w|);
  }

  /** Nothing is added between the last line start and the end. */
  lemma {:induction false} ToLineStart(t: Text, i: nat)
    requires i <= |t|
    ensures AtLineStart(t, LineStart(t, i)) && Lines(t, LineStart(t, i)) == Lines(t, i)
  {
    if i > 0 && t[i - 1] != LF { ToLineStart(t, i - 1); }
  }

  /** Poll-schedule independence: for an append-only file of short lines, polled
      from a line start at any sequence of lengths, what is emitted is what cutting
      the consumed text once would give, and the offset is always a line start. */
  lemma {:induction false} PollsCutOnce(t: Text, offset: nat, sizes: seq<nat>)
    requires ShortLines(t) && offset <= |t| && AtLineStart(t, offset)
    requires Rising(offset, sizes, |t|)
    ensures var (lines, end) := Polls(t, offset, sizes);
      && AtLineStart(t, end)
      && lines == Lines(t[offset..end], end - offset)
    decreases |sizes|
  {
    hide Clean, Lines, LineStart, Poll, ShortLines;
    PollsFrom(t, offset, sizes);
    var (lines, end) := Polls(t, offset, sizes);
    StartInWindow(t, offset, end, end);
    assert Lines(t, offset) + lines == Lines(t, offset) + Lines(t[offset..end], end - offset);
    SameSuffix(Lines(t, offset), lines, Lines(t[offset..end], end - offset));
  }

  lemma SameSuffix<T>(a: seq<T>, b: seq<T>, c: seq<T>)
    requires a + b == a + c
    ensures b == c
  {
    assert b == (a + b)[|a|..];
    assert c == (a + c)[|a|..];
  }

  lemma {:induction false} PollsFrom(t: Text, offset: nat, sizes: seq<nat>)
    requires ShortLines(t) && offset <= |t| && AtLineStart(t, offset)
    requires Rising(offset, sizes, |t|)
    ensures var (lines, end) := Polls(t, offset, sizes);
      AtLineStart(t, end) && Lines(t, end) == Lines(t, offset) + lines
    decreases |sizes|
  {
    hide Clean, Lines, LineStart, Poll, ShortLines;
    if sizes != [] {
      PollCuts(t, offset, sizes[0]);
      var o := Poll(t[..sizes[0]], offset).1;
      PollsFrom(t, o, sizes[1..]);
    }
  }

  // ------------------------------------------------------------- draining

  /** Whether byte `j` is text rather than part of a line terminator. */
  predicate IsText(t: Text, j: nat)
    requires j < |t|
  {
    t[j] != LF && !(t[j] == CR && j + 1 < |t| && t[j + 1] == LF)
  }

  /** The text bytes among `a..b`. */
  function TextOf(t: Text, a: nat, b: nat): Text
    requires a <= b <= |t|
  {
    if a == b then [] else TextOf(t, a, b - 1) + (if IsText(t, b - 1) then [t[b - 1]] else [])
  }

  function Flat(lines: seq<Text>): Text {
    if lines == [] then [] else Flat(lines[..|lines| - 1]) + lines[|lines| - 1]
  }

  lemma {:induction false} TextSplit(t: Text, a: nat, m: nat, b: nat)
    requires a <= m <= b <= |t|
    ensures TextOf(t, a, b) == TextOf(t, a, m) + TextOf(t, m, b)
  {
    if m < b { TextSplit(t, a, m, b - 1); }
  }

  lemma {:induction false} AllText(t: Text, a: nat, b: nat)
    requires a <= b <= |t| && forall j :: a <= j < b ==> IsText(t, j)
    ensures TextOf(t, a, b) == t[a..b]
  {
    if a < b {
      AllText(t, a, b - 1);
      assert t[a..b] == t[a..b - 1] + [t[b - 1]];
    }
  }

  /** A complete line keeps all of its bytes but its terminator. */
  lemma LineText(t: Text, s: nat, i: nat)
    requires s <= i < |t| && t[i] == LF && forall j :: s <= j < i ==> t[j] != LF
    ensures TextOf(t, s, i + 1) == Flat(Clean(t[s..i]))
  {
    hide Flat, TextOf, Clean;
    var e := if s < i && t[i - 1] == CR then i - 1 else i;
    AllText(t, s, e);
    TextSplit(t, s, e, i + 1);
    NoText(t, e, i);
    var raw := t[s..i];
    assert raw != [] ==> raw[|raw| - 1] == t[i - 1];
    assert raw[..e - s] == t[s..e];
    CleanText(raw);
  }

  lemma NoText(t: Text, e: nat, i: nat)
    requires e <= i < |t| && t[i] == LF && (e == i || (e + 1 == i && t[e] == CR))
    ensures TextOf(t, e, i + 1) == []
  {
    assert !IsText(t, i);
    if e < i { assert !IsText(t, e) && TextOf(t, e, e + 1) == TextOf(t, e, e) + []; }
  }

  lemma CleanText(raw: Text)
    ensures Flat(Clean(raw)) == if raw != [] && raw[|raw| - 1] == CR then raw[..|raw| - 1] else raw
  {
    FlatOne(raw);
    if raw != [] { FlatOne(raw[..|raw| - 1]); }
  }

  lemma FlatOne(line: Text)
    ensures Flat([line]) == line && Flat([]) == []
  {
    assert [line][..0] == [];
  }

  lemma {:induction false} FlatAppend(a: seq<Text>, b: seq<Text>)
    ensures Flat(a + b) == Flat(a) + Flat(b)
  {
    if b == [] {
      assert a + b == a;
    } else {
      var c := b[..|b| - 1];
      FlatAppend(a, c);
      assert (a + b)[..|a + b| - 1] == a + c && (a + b)[|a + b| - 1] == b[|b| - 1];
    }
  }

  lemma {:induction false} LinesText(t: Text, i: nat)
    requires i <= |t|
    ensures Flat(Lines(t, i)) == TextOf(t, 0, LineStart(t, i))
  {
    hide Clean, Flat;
    FlatOne([]);
    if i > 0 {
      LinesText(t, i - 1);
      if t[i - 1] == LF {
        var s := LineStart(t, i - 1);
        PlainAfterStart(t, i - 1);
        LineText(t, s, i - 1);
        FlatAppend(Lines(t, i - 1), Clean(t[s..i - 1]));
        TextSplit(t, 0, s, i);
      }
    }
  }

  /** A read loses nothing but line terminators, unless it forces out an over-long
      rest, which it hands on byte for byte. */
  lemma CutLosesNothing(w: Text)
    ensures var (lines, n) := Cut(w);
      Flat(lines) == TextOf(w, 0, LineStart(w, |w|)) + w[LineStart(w, |w|)..n]
  {
    hide Lines, Clean, TextOf, LineStart, Flat;
    LinesText(w, |w|);
    var c := LineStart(w, |w|);
    FlatTail(Lines(w, |w|), w[c..]);
    assert w[c..|w|] == w[c..] && w[c..c] == [];
  }

  lemma FlatTail(lines: seq<Text>, last: Text)
    ensures Flat(lines + [last]) == Flat(lines) + last
  {
    hide Flat;
    FlatAppend(lines, [last]);
    FlatOne(last);
  }

  /** A read makes progress if and only if its window has a line feed or is over-long. */
  lemma ProgressIff(w: Text)
    ensures Cut(w).1 > 0 <==> (!NoFeed(w) || |w| >= MAX_LINE)
  {
    hide Lines;
    FeedFound(w, |w|);
  }

  lemma {:induction false} FeedFound(t: Text, i: nat)
    requires i <= |t|
    ensures LineStart(t, i) > 0 <==> exists j :: 0 <= j < i && t[j] == LF
  {
    if i > 0 { FeedFound(t, i - 1); }
  }

  /** Reading a file that no longer changes until a read makes no progress. */
  function Drain(t: Text, offset: nat): (end: nat)
    requires offset <= |t|
    ensures offset <= end <= |t|
    decreases |t| - offset
  {
    var o := Poll(t, offset).1;
    if o == offset then offset else Drain(t, o)
  }

  /** Draining ends with only an unterminated rest shorter than MAX_LINE. */
  lemma {:induction false} DrainEnds(t: Text, offset: nat)
    requires offset <= |t|
    ensures var rest := t[Drain(t, offset)..]; NoFeed(rest) && |rest| < MAX_LINE
    decreases |t| - offset
  {
    hide Cut;
    var o := Poll(t, offset).1;
    if o == offset {
      ProgressIff(Window(t, offset, |t|));
      assert Window(t, offset, |t|) == t[offset..];
    } else {
      DrainEnds(t, o);
    }
  }
}
