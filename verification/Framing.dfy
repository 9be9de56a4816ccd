/** How a batch of lines is laid out on a stream, and how a receiver takes it
    apart again. */
module Framing {
  import opened Options
  import opened Events
  import opened Records
  import opened Rfc5424
  import opened TextLines

  datatype Framing = Newline | OctetCounting

  const SP := 32

  function AsciiDigit(c: char): Byte
    requires IsDigit(c)
  {
    c as int
  }

  function Ascii(digits: string): (t: Text)
    requires forall i :: 0 <= i < |digits| ==> IsDigit(digits[i])
    ensures |t| == |digits|
    ensures forall i :: 0 <= i < |t| ==> t[i] == digits[i] as int
  {
    seq(|digits|, i requires 0 <= i < |digits| => AsciiDigit(digits[i]))
  }

  function MsgLen(n: nat): Text {
    DecimalIsNumber(n);
    Ascii(Decimal(n))
  }

  function Frame(line: Text, framing: Framing): Text {
    match framing
    case Newline => line + [LF]
    case OctetCounting => MsgLen(|line|) + [SP] + line
  }

  function Frames(lines: seq<Text>, framing: Framing): Text {
    if lines == [] then [] else Frames(lines[..|lines| - 1], framing) + Frame(lines[|lines| - 1], framing)
  }

  lemma Associate(a: Text, b: Text, c: Text)
    ensures a + b + c == a + (b + c)
  {
  }

  method FrameBatch(lines: seq<Text>, framing: Framing) returns (payload: Text)
    ensures payload == Frames(lines, framing)
  {
    payload := [];
    for i := 0 to |lines|
      invariant payload == Frames(lines[..i], framing)
    {
      var line := lines[i];
      assert lines[..i + 1][..i] == lines[..i];
      match framing {
        case Newline =>
          Associate(payload, line, [LF]);
          payload := payload + line;
          payload := payload + [LF];
        case OctetCounting =>
          Associate(payload, MsgLen(|line|) + [SP], line);
          payload := payload + (MsgLen(|line|) + [SP]);
          payload := payload + line;
      }
    }
    assert lines[..|lines|] == lines;
  }

  lemma {:induction false} FramesCons(lines: seq<Text>, framing: Framing)
    requires lines != []
    ensures Frames(lines, framing) == Frame(lines[0], framing) + Frames(lines[1..], framing)
  {
    hide Frame;
    var init, last := lines[..|lines| - 1], lines[|lines| - 1];
    if |lines| == 1 {
      assert init == [] && lines[1..] == [];
    } else {
      FramesCons(init, framing);
      assert lines[1..][..|lines| - 2] == init[1..];
    }
  }

  /** The stream `p` holds `s` at position `i`. */
  predicate At(p: Text, i: nat, s: Text) {
    i + |s| <= |p| && p[i..i + |s|] == s
  }

  lemma AtParts(p: Text, i: nat, a: Text, b: Text)
    requires At(p, i, a + b)
    ensures At(p, i, a) && At(p, i + |a|, b)
  {
    var s := p[i..i + |a + b|];
    assert s[..|a|] == a && s[|a|..] == b;
    assert p[i..i + |a|] == s[..|a|];
    assert p[i + |a|..i + |a| + |b|] == s[|a|..];
  }

  lemma Held(p: Text, at: nat, s: Text)
    requires At(p, at, s)
    ensures at + |s| <= |p| && p[at..at + |s|] == s
  {
  }

  lemma AtByte(p: Text, i: nat, s: Text, k: nat)
    requires At(p, i, s) && k < |s|
    ensures p[i + k] == s[k]
  {
    assert p[i..i + |s|][k] == p[i + k];
  }

  // ------------------------------------------------------------ octet counting

  predicate DigitByte(b: Byte) {
    '0' as int <= b <= '9' as int
  }

  /** The rest of a MSG-LEN and its space, `acc` being what the digits so far say
      (RFC 6587, section 3.4.1). */
  function ReadLen(p: Text, i: nat, acc: nat): Option<(nat, nat)>
    requires i <= |p|
    ensures var r := ReadLen(p, i, acc); r.Some? ==> i < r.value.1 <= |p|
    decreases |p| - i
  {
    if i == |p| then None
    else if p[i] == SP then Some((acc, i + 1))
    else if DigitByte(p[i]) then ReadLen(p, i + 1, acc * 10 + (p[i] - '0' as int))
    else None
  }

  /** The receiver of RFC 6587, section 3.4.1: MSG-LEN starts with a non-zero digit,
      and that many octets follow the space.  None if the stream is not framed so. */
  function Deframe(p: Text, i: nat): Option<seq<Text>>
    requires i <= |p|
    decreases |p| - i
  {
    if i == |p| then Some([])
    else if !DigitByte(p[i]) || p[i] == '0' as int then None
    else
      var len := ReadLen(p, i, 0);
      if len.None? then None else
      var (n, j) := len.value;
      if j + n > |p| then None
      else
        var rest := Deframe(p, j + n);
        if rest.None? then None else Some([p[j..j + n]] + rest.value)
  }

  lemma {:induction false} ReadDigits(p: Text, at: nat, d: string, k: nat)
    requires k <= |d| && forall i :: 0 <= i < |d| ==> IsDigit(d[i])
    requires At(p, at, Ascii(d))
    ensures ReadLen(p, at, 0) == ReadLen(p, at + k, NumberOf(d[..k]))
    decreases k
  {
    if k > 0 {
      hide At;
      ReadDigits(p, at, d, k - 1);
      AtByte(p, at, Ascii(d), k - 1);
      assert IsDigit(d[k - 1]) && Ascii(d)[k - 1] == d[k - 1] as int;
      Held(p, at, Ascii(d));
      assert d[..k][..k - 1] == d[..k - 1];
    }
  }

  lemma {:induction false} FirstDigit(n: nat)
    ensures Decimal(n)[0] == '0' <==> n == 0
  {
    if n >= 10 { FirstDigit(n / 10); }
  }

  lemma DigitsOf(n: nat)
    ensures var d := Decimal(n);
      && (forall i :: 0 <= i < |d| ==> IsDigit(d[i])) && NumberOf(d) == n
      && MsgLen(n) == Ascii(d)
      && (d[0] == '0' <==> n == 0)
  {
    DecimalIsNumber(n);
    FirstDigit(n);
  }

  lemma ReadMsgLen(p: Text, at: nat, n: nat)
    requires At(p, at, MsgLen(n) + [SP])
    ensures at + |MsgLen(n)| + 1 <= |p|
    ensures ReadLen(p, at, 0) == Some((n, at + |MsgLen(n)| + 1))
    ensures DigitByte(p[at]) && (p[at] == '0' as int <==> n == 0)
  {
    hide Decimal, NumberOf, MsgLen, At;
    Held(p, at, MsgLen(n) + [SP]);
    DigitsOf(n);
    var d := Decimal(n);
    AtParts(p, at, Ascii(d), [SP]);
    AtByte(p, at, Ascii(d), 0);
    AtByte(p, at + |d|, [SP], 0);
    ReadDigits(p, at, d, |d|);
    assert d[..|d|] == d;
    assert IsDigit(d[0]);
  }

  lemma DeframeOne(p: Text, at: nat, line: Text)
    requires At(p, at, Frame(line, OctetCounting))
    ensures var next := at + |Frame(line, OctetCounting)|;
      && next <= |p|
      && Deframe(p, at) == (if line == [] || Deframe(p, next).None? then None
                            else Some([line] + Deframe(p, next).value))
  {
    hide MsgLen, ReadLen, At;
    var head := MsgLen(|line|) + [SP];
    Held(p, at, head + line);
    AtParts(p, at, head, line);
    ReadMsgLen(p, at, |line|);
    Held(p, at + |head|, line);
  }

  lemma HeadAndTail(lines: seq<Text>)
    requires lines != []
    ensures [] in lines <==> lines[0] == [] || [] in lines[1..]
    ensures lines == [lines[0]] + lines[1..]
  {
  }

  /** A receiver anywhere in the stream takes the rest apart into the very lines
      that were framed, unless one of them is empty. */
  lemma {:induction false} DeframeFrom(p: Text, at: nat, lines: seq<Text>)
    requires At(p, at, Frames(lines, OctetCounting)) && at + |Frames(lines, OctetCounting)| == |p|
    ensures Deframe(p, at) == if [] in lines then None else Some(lines)
    decreases |lines|
  {
    hide At, Frame;
    if lines != [] {
      hide Deframe, Frames;
      var frame := Frame(lines[0], OctetCounting);
      FramesCons(lines, OctetCounting);
      AtParts(p, at, frame, Frames(lines[1..], OctetCounting));
      DeframeOne(p, at, lines[0]);
      DeframeFrom(p, at + |frame|, lines[1..]);
      HeadAndTail(lines);
    }
  }

  /** Octet counting recovers the exact list of lines, whatever bytes they hold,
      if and only if no line is empty: the length "0" is not a MSG-LEN. */
  lemma OctetCountingIff(lines: seq<Text>)
    ensures Deframe(Frames(lines, OctetCounting), 0) == Some(lines) <==> [] !in lines
  {
    DeframeFrom(Frames(lines, OctetCounting), 0, lines);
  }

  // ------------------------------------------------------------------- newline

  /** The receiver of RFC 6587, section 3.4.2, with a line feed as the trailer. */
  function Split(p: Text, start: nat, i: nat): seq<Text>
    requires start <= i <= |p|
    decreases |p| - i
  {
    if i == |p| then (if start == i then [] else [p[start..]])
    else if p[i] == LF then [p[start..i]] + Split(p, i + 1, i + 1)
    else Split(p, start, i + 1)
  }

  lemma {:induction false} PiecesArePlain(p: Text, start: nat, i: nat)
    requires start <= i <= |p|
    requires forall j :: start <= j < i ==> p[j] != LF
    ensures forall line :: line in Split(p, start, i) ==> LF !in line
    decreases |p| - i
  {
    if i < |p| {
      if p[i] == LF {
        PiecesArePlain(p, i + 1, i + 1);
      } else {
        PiecesArePlain(p, start, i + 1);
      }
    }
  }

  lemma {:induction false} SkipToFeed(p: Text, start: nat, i: nat, k: nat)
    requires start <= i <= k < |p| && p[k] == LF && forall j :: i <= j < k ==> p[j] != LF
    ensures Split(p, start, i) == [p[start..k]] + Split(p, k + 1, k + 1)
    decreases k - i
  {
    if i < k { SkipToFeed(p, start, i + 1, k); }
  }

  lemma PlainSlice(p: Text, a: nat, b: nat)
    requires a <= b <= |p| && LF !in p[a..b]
    ensures forall j :: a <= j < b ==> p[j] != LF
  {
    forall j | a <= j < b ensures p[j] != LF {
      assert p[j] == p[a..b][j - a];
    }
  }

  lemma FirstPiece(p: Text, at: nat, line: Text)
    requires At(p, at, line + [LF]) && LF !in line
    ensures at + |line| + 1 <= |p|
    ensures Split(p, at, at) == [line] + Split(p, at + |line| + 1, at + |line| + 1)
  {
    hide Split;
    AtParts(p, at, line, [LF]);
    AtByte(p, at + |line|, [LF], 0);
    PlainSlice(p, at, at + |line|);
    SkipToFeed(p, at, at, at + |line|);
  }

  lemma {:induction false} SplitFrom(p: Text, at: nat, lines: seq<Text>)
    requires forall line :: line in lines ==> LF !in line
    requires At(p, at, Frames(lines, Newline)) && at + |Frames(lines, Newline)| == |p|
    ensures Split(p, at, at) == lines
    decreases |lines|
  {
    hide At;
    if lines != [] {
      hide Split, Frames;
      var line, tail := lines[0], Frames(lines[1..], Newline);
      FramesCons(lines, Newline);
      AtParts(p, at, line + [LF], tail);
      FirstPiece(p, at, line);
      SplitFrom(p, at + |line + [LF]|, lines[1..]);
      HeadAndTail(lines);
    }
  }

  /** Newline framing recovers the exact list of lines if and only if no line has a
      line feed in it. */
  lemma NewlineIff(lines: seq<Text>)
    ensures Split(Frames(lines, Newline), 0, 0) == lines <==> forall line :: line in lines ==> LF !in line
  {
    PiecesArePlain(Frames(lines, Newline), 0, 0);
    if forall line :: line in lines ==> LF !in line {
      SplitFrom(Frames(lines, Newline), 0, lines);
    }
  }

  // ----------------------------------------------------------- a batch of events

  /** The lines of a batch in the RFC 5424 format, `utf8` being the encoding. */
  function BatchLines(events: seq<Event>, utf8: string -> Text): seq<Text> {
    seq(|events|, i requires 0 <= i < |events| => utf8(Format(events[i])))
  }

  /** Any batch of events printed in the RFC 5424 format survives octet counting,
      line feeds and all. */
  lemma Rfc5424BatchSurvives(events: seq<Event>, utf8: string -> Text)
    requires forall s: string :: s != [] ==> utf8(s) != []
    ensures Deframe(Frames(BatchLines(events, utf8), OctetCounting), 0) == Some(BatchLines(events, utf8))
  {
    hide Frames, Deframe, Decimal, StructuredData;
    forall i | 0 <= i < |events| ensures BatchLines(events, utf8)[i] != [] {
      FormatNonEmpty(events[i]);
    }
    OctetCountingIff(BatchLines(events, utf8));
  }

  lemma FormatNonEmpty(ev: Event)
    ensures Format(ev) != []
  {
    hide Decimal, StructuredData;
  }
}
