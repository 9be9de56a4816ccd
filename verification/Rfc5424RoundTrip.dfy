/** A printed RFC 5424 line read back: what is recovered, and exactly when. */
module Rfc5424RoundTrip {
  import opened Naturals
  import opened Options
  import opened Events
  import opened Rfc5424

  // ------------------------------------------------------------- the scanner

  /** Scanning `p` from `i` meets no closing bracket and ends exactly at its end. */
  predicate Sealed(p: string, i: nat)
    requires i <= |p|
    decreases |p| - i
  {
    i == |p|
    || (p[i] != ']' && (if p[i] == '\\' then i + 2 <= |p| && Sealed(p, i + 2) else Sealed(p, i + 1)))
  }

  /** The opening brackets the scanner counts in `p` from `i` on. */
  function Opens(p: string, i: nat): nat
    requires i <= |p|
    decreases |p| - i
  {
    if i == |p| then 0
    else if p[i] == '\\' then (if i + 2 <= |p| then Opens(p, i + 2) else 0)
    else (if p[i] == '[' then 1 else 0) + Opens(p, i + 1)
  }

  lemma {:induction false} ScanThrough(pre: string, p: string, post: string, i: nat, depth: nat)
    requires i <= |p| && Sealed(p, i)
    ensures ScanSd(pre + p + post, |pre| + i, depth) == ScanSd(pre + p + post, |pre| + |p|, depth + Opens(p, i))
    decreases |p| - i
  {
    var t := pre + p + post;
    if i < |p| {
      assert t[|pre| + i] == p[i];
      if p[i] == '\\' {
        ScanThrough(pre, p, post, i + 2, depth);
      } else {
        ScanThrough(pre, p, post, i + 1, if p[i] == '[' then depth + 1 else depth);
      }
    }
  }

  lemma {:induction false} ShiftSealed(a: string, b: string, j: nat)
    requires j <= |b|
    ensures |a| + j <= |a + b|
    ensures Sealed(a + b, |a| + j) <==> Sealed(b, j)
    ensures Opens(a + b, |a| + j) == Opens(b, j)
    decreases |b| - j
  {
    if j < |b| {
      assert (a + b)[|a| + j] == b[j];
      if b[j] == '\\' {
        if j + 2 <= |b| { ShiftSealed(a, b, j + 2); }
      } else {
        ShiftSealed(a, b, j + 1);
      }
    }
  }

  lemma {:induction false} JoinSealed(a: string, b: string, i: nat)
    requires i <= |a| && Sealed(a, i) && Sealed(b, 0)
    ensures i <= |a + b| && Sealed(a + b, i) && Opens(a + b, i) == Opens(a, i) + Opens(b, 0)
    decreases |a| - i
  {
    if i == |a| {
      ShiftSealed(a, b, 0);
    } else {
      assert (a + b)[i] == a[i];
      JoinSealed(a, b, if a[i] == '\\' then i + 2 else i + 1);
    }
  }

  lemma {:induction false} PlainSealed(p: string, i: nat)
    requires i <= |p| && forall j :: i <= j < |p| ==> p[j] != '[' && p[j] != ']' && p[j] != '\\'
    ensures Sealed(p, i) && Opens(p, i) == 0
    decreases |p| - i
  {
    if i < |p| { PlainSealed(p, i + 1); }
  }

  /** A key cannot close a bracket, and a backslash at its end swallows only the '='. */
  lemma {:induction false} KeySealed(key: string, i: nat)
    requires i <= |key| + 1 && forall j :: 0 <= j < |key| ==> key[j] != ']'
    ensures Sealed(key + "=", i)
    decreases |key| + 1 - i
  {
    var p := key + "=";
    if i < |p| {
      if i < |key| { assert p[i] == key[i]; } else { assert p[i] == '='; }
      KeySealed(key, if p[i] == '\\' then i + 2 else i + 1);
    }
  }

  function Brackets(v: string): nat {
    if v == [] then 0 else (if v[0] == '[' then 1 else 0) + Brackets(v[1..])
  }

  /** An escaped value closes nothing, and every opening bracket in it counts. */
  lemma {:induction false} EscapedSealed(v: string)
    ensures Sealed(Escape(v), 0) && Opens(Escape(v), 0) == Brackets(v)
  {
    if v != [] {
      EscapeCons(v);
      EscapedSealed(v[1..]);
      HeadSealed(v[0]);
      JoinSealed(EscapedChar(v[0]), Escape(v[1..]), 0);
    }
  }

  function EscapedChar(c: char): string {
    if Special(c) then ['\\', c] else [c]
  }

  lemma HeadSealed(c: char)
    ensures Sealed(EscapedChar(c), 0) && Opens(EscapedChar(c), 0) == if c == '[' then 1 else 0
  {
    var p := EscapedChar(c);
    if Special(c) {
      assert |p| == 2 && p[0] == '\\' && Sealed(p, 2);
    } else {
      assert |p| == 1 && p[0] == c && Sealed(p, 1);
    }
  }

  /** The brackets the scanner counts in a key: those not behind an active backslash. */
  function KeyBrackets(key: string): nat {
    Opens(key + "=", 0)
  }

  lemma ParamSealed(key: string, value: string)
    requires GoodName(key)
    ensures Sealed(Param(key, value), 0)
    ensures Opens(Param(key, value), 0) == KeyBrackets(key) + Brackets(value)
  {
    hide Sealed, Opens, Escape, Brackets;
    var k, e := key + "=", Escape(value);
    KeySealed(key, 0);
    EscapedSealed(value);
    PlainSealed(" ", 0);
    PlainSealed("\"", 0);
    JoinSealed(" ", k, 0);
    JoinSealed(" " + k, "\"", 0);
    JoinSealed(" " + k + "\"", e, 0);
    JoinSealed(" " + k + "\"" + e, "\"", 0);
    assert " " + k + "\"" + e + "\"" == Param(key, value);
  }

  /** The unescaped opening brackets among the emitted keys and values. */
  function EmittedBrackets(fields: seq<(string, Value)>): nat {
    if fields == [] then 0
    else
      var f := fields[|fields| - 1];
      EmittedBrackets(fields[..|fields| - 1])
      + if Emitted(f) then KeyBrackets(f.0) + Brackets(ValueText(f.1).value) else 0
  }

  lemma {:induction false} ParamsSealed(fields: seq<(string, Value)>)
    ensures Sealed(Params(fields), 0) && Opens(Params(fields), 0) == EmittedBrackets(fields)
  {
    if fields != [] {
      hide Param, KeyBrackets, Brackets;
      var f, before := fields[|fields| - 1], Params(fields[..|fields| - 1]);
      ParamsSealed(fields[..|fields| - 1]);
      if Emitted(f) {
        ParamSealed(f.0, ValueText(f.1).value);
        JoinSealed(before, Param(f.0, ValueText(f.1).value), 0);
      } else {
        assert Params(fields) == before + [] == before;
      }
    }
  }

  lemma {:induction false} ScanMoves(t: string, i: nat, depth: nat)
    requires i < |t|
    ensures ScanSd(t, i, depth) > i
    decreases |t| - i
  {
    var next := if t[i] == '\\' then i + 2 else i + 1;
    if next < |t| {
      ScanMoves(t, next, if t[i] == '[' then depth + 1 else if t[i] == ']' then Minus(depth, 1) else depth);
    }
  }

  /** An element: brackets around text that closes nothing. */
  predicate Element(e: string) {
    2 <= |e| && e[0] == '[' && e[|e| - 1] == ']' && Sealed(e[1..|e| - 1], 0)
  }

  predicate Elements(es: seq<string>) {
    forall k :: 0 <= k < |es| ==> Element(es[k])
  }

  function Concat(es: seq<string>): string {
    if es == [] then [] else es[0] + Concat(es[1..])
  }

  /** The unescaped opening brackets inside the elements. */
  function InnerOpens(es: seq<string>): nat
    requires Elements(es)
  {
    if es == [] then 0
    else
      assert Element(es[0]);
      Opens(es[0][1..|es[0]| - 1], 0) + InnerOpens(es[1..])
  }

  /** The scanner passes one element and is at the next one, or at the end. */
  lemma ScanElement(pre: string, e: string, post: string, depth: nat)
    requires Element(e)
    ensures var t := pre + e + post;
      var d := depth + Opens(e[1..|e| - 1], 0);
      var next := |pre| + |e|;
      ScanSd(t, |pre|, depth) == if d == 0 && (post == [] || post[0] != '[') then next else ScanSd(t, next, d)
  {
    hide Sealed, Opens;
    var t, p := pre + e + post, e[1..|e| - 1];
    assert e == "[" + p + "]";
    assert pre + "[" + p + ("]" + post) == t;
    ScanThrough(pre + "[", p, "]" + post, 0, depth + 1);
    var k := |pre| + |e| - 1;
    assert t[|pre|] == '[' && t[k] == ']' && (post != [] ==> t[k + 1] == post[0]);
  }

  /** However many elements there are, the scanner stops exactly behind the last one if
      and only if nothing follows, or no element has an unescaped opening bracket. */
  lemma {:induction false} ScanElementsIff(pre: string, es: seq<string>, post: string, depth: nat)
    requires es != [] && Elements(es) && (post == [] || post[0] != '[')
    ensures ScanSd(pre + Concat(es) + post, |pre|, depth) == |pre| + |Concat(es)|
            <==> post == [] || (depth == 0 && InnerOpens(es) == 0)
    decreases |es|
  {
    hide ScanSd, Opens, Sealed;
    var e, rest := es[0], es[1..];
    assert Element(e);
    var more := Concat(rest) + post;
    var t := pre + e + more;
    ElementsSplit(pre, es, post);
    hide Concat, Element;
    ScanElement(pre, e, more, depth);
    var d := depth + Opens(e[1..|e| - 1], 0);
    if rest == [] {
      if post == [] { ScanEnds(t, d); } else if d != 0 { ScanMoves(t, |pre| + |e|, d); }
    } else {
      ScanElementsIff(pre + e, rest, post, d);
    }
  }

  lemma ElementsSplit(pre: string, es: seq<string>, post: string)
    requires es != [] && Elements(es)
    ensures var e, rest := es[0], es[1..];
      var more := Concat(rest) + post;
      && 2 <= |e| && |Concat(es)| == |e| + |Concat(rest)| && pre + Concat(es) + post == pre + e + more
      && (rest == [] ==> more == post)
      && (rest != [] ==> more[0] == '[' && (pre + e) + Concat(rest) + post == pre + e + more)
  {
    hide Sealed;
    assert Element(es[0]);
    Shift(pre, es[0], Concat(es[1..]), post);
    if es[1..] != [] { FirstBracket(es[1..]); } else { assert [] + post == post; }
  }

  lemma Shift(a: string, b: string, c: string, d: string)
    ensures a + (b + c) + d == a + b + (c + d) == (a + b) + c + d
  {
  }

  lemma ScanEnds(t: string, depth: nat)
    ensures ScanSd(t, |t|, depth) == |t|
  {
  }

  /** The printed element is one. */
  lemma PrintedElement(fields: seq<(string, Value)>)
    requires Params(fields) != []
    ensures var sd := StructuredData(fields);
      && Elements([sd]) && InnerOpens([sd]) == EmittedBrackets(fields) && Concat([sd]) == sd
  {
    hide Sealed, Opens, Params, EmittedBrackets;
    var params, name, sd := Params(fields), "softnix@32473", StructuredData(fields);
    assert SD_ID == "[" + name;
    assert sd[1..|sd| - 1] == name + params;
    PlainSealed(name, 0);
    ParamsSealed(fields);
    JoinSealed(name, params, 0);
    assert Concat([]) == [] && [sd][1..] == [];
  }

  /** The scanner stops exactly at the closing bracket of the printed element if
      and only if no unescaped opening bracket was emitted. */
  lemma ScannerStopsIff(fields: seq<(string, Value)>, msg: string)
    requires Params(fields) != []
    ensures var sd := StructuredData(fields);
      ScanSd(sd + " " + msg, 0, 0) == |sd| <==> EmittedBrackets(fields) == 0
  {
    hide Params, EmittedBrackets, Elements, InnerOpens, Concat, ScanSd, StructuredData;
    PrintedElement(fields);
    var sd := StructuredData(fields);
    ScanElementsIff([], [sd], " " + msg, 0);
    assert [] + sd + (" " + msg) == sd + " " + msg;
  }

  // ------------------------------------------------------------- the message

  lemma {:induction false} TrimShorter(m: string)
    ensures |TrimStart(m)| <= |m|
    ensures TrimStart(m) == m <==> m == [] || !IsSpace(m[0])
  {
    if m != [] && IsSpace(m[0]) { TrimShorter(m[1..]); }
  }

  /** What is left of a message after the space that separates it. */
  function Received(m: string): string {
    StripBom(TrimStart(" " + m))
  }

  /** That is the message without the whitespace it starts with, and without one byte
      order mark after that. */
  lemma {:induction false} ReceivedIs(m: string) returns (k: nat)
    ensures k <= |m| && (forall j :: 0 <= j < k ==> IsSpace(m[j])) && (k < |m| ==> !IsSpace(m[k]))
    ensures Received(m) == if k < |m| && m[k] as int == 0xFEFF then m[k + 1..] else m[k..]
  {
    assert (" " + m)[1..] == m;
    k := Trimmed(m);
  }

  lemma {:induction false} Trimmed(m: string) returns (k: nat)
    ensures k <= |m| && (forall j :: 0 <= j < k ==> IsSpace(m[j])) && (k < |m| ==> !IsSpace(m[k]))
    ensures TrimStart(m) == m[k..]
    decreases |m|
  {
    hide IsSpace;
    if m != [] && IsSpace(m[0]) {
      k := Trimmed(m[1..]);
      k := k + 1;
      assert m[1..][k - 1..] == m[k..];
    } else {
      k := 0;
    }
  }

  /** A message comes through unchanged if and only if it starts with neither
      whitespace nor a byte order mark. */
  lemma MessageKeptIff(m: string)
    ensures Received(m) == m <==> m == [] || (!IsSpace(m[0]) && m[0] as int != 0xFEFF)
  {
    assert (" " + m)[1..] == m;
    assert TrimStart(" " + m) == TrimStart(m);
    TrimShorter(m);
  }

  // ----------------------------------------------------------- the whole line

  /** The header words have no spaces in them. */
  predicate Wordy(ev: Event) {
    && (ev.hostname.Some? ==> SpaceFree(ev.hostname.value))
    && (ev.application.Some? ==> SpaceFree(ev.application.value))
    && (ev.processId.Some? ==> SpaceFree(ev.processId.value))
  }

  lemma Words(ts: string, host: string, app: string, pid: string, msgid: string, tail: string)
    requires SpaceFree(ts) && SpaceFree(host) && SpaceFree(app) && SpaceFree(pid) && SpaceFree(msgid)
    ensures var r5 := msgid + " " + tail;
      var r4 := pid + " " + r5;
      var r3 := app + " " + r4;
      var r2 := host + " " + r3;
      && CutAtSpace(ts + " " + r2) == Some((ts, r2))
      && CutAtSpace(r2) == Some((host, r3))
      && CutAtSpace(r3) == Some((app, r4))
      && CutAtSpace(r4) == Some((pid, r5))
      && CutAtSpace(r5) == Some((msgid, tail))
  {
    hide CutAtSpace;
    var r5 := msgid + " " + tail;
    var r4 := pid + " " + r5;
    var r3 := app + " " + r4;
    var r2 := host + " " + r3;
    CutWord(msgid, tail);
    CutWord(pid, r5);
    CutWord(app, r4);
    CutWord(host, r3);
    CutWord(ts, r2);
  }

  /** A line with any header words and whatever follows them. */
  function Line(pri: nat, ts: string, host: string, app: string, pid: string, msgid: string, tail: string): string {
    "<" + Decimal(pri) + ">"
    + ("1 " + (ts + " " + (host + " " + (app + " " + (pid + " " + (msgid + " " + tail))))))
  }

  /** What such a line says, the structured data being `sd` and the message `msg`. */
  function Said(base: Event, pri: nat, ts: string, host: string, app: string, pid: string, sd: Option<string>,
                msg: string, clock: Clock): Event
    requires pri <= 191
  {
    base.(timestamp := TimeOr(ts, base.timestamp, clock),
          facility := Some(pri / 8), severity := Some(pri % 8),
          hostname := Known(host, base.hostname),
          application := Known(app, base.application),
          processId := Known(pid, base.processId),
          fields := if sd.Some? then SetEntry(base.fields, "structured_data", String(sd.value)) else base.fields,
          message := msg)
  }

  lemma LineRead(base: Event, pri: nat, ts: string, host: string, app: string, pid: string, msgid: string, tail: string,
                 clock: Clock)
    requires pri <= 191 && SpaceFree(ts) && SpaceFree(host) && SpaceFree(app) && SpaceFree(pid) && SpaceFree(msgid)
    ensures var (sd, msg) := ParseTail(tail);
      Parse(base, Line(pri, ts, host, app, pid, msgid, tail), clock)
      == Some(Said(base, pri, ts, host, app, pid, sd, StripBom(msg), clock))
  {
    hide ParsePri, CutAtSpace, ParseTail, Decimal, StripBom, SetEntry, SpaceFree;
    var words := ts + " " + (host + " " + (app + " " + (pid + " " + (msgid + " " + tail))));
    PriRoundTrip(pri, "1 " + words);
    Words(ts, host, app, pid, msgid, tail);
    assert ("1 " + words)[2..] == words;
    assert "1 " <= "1 " + words;
  }

  function Facility(ev: Event): nat {
    Min(OrElse(ev.facility, 1), 31)
  }

  /** What a printed line carries, on top of `base`: the header up to the clamping
      of the printer and the NILVALUE, and the rest as it is found. */
  function Carried(base: Event, ev: Event, clock: Clock): Event {
    var (sd, msg) := ParseTail(StructuredData(ev.fields) + " " + ev.message);
    base.(timestamp := TimeOr(ev.timestamp, base.timestamp, clock),
          facility := Some(Facility(ev)),
          severity := Some(Min(OrElse(ev.severity, 6), 7)),
          hostname := Known(OrElse(ev.hostname, "-"), base.hostname),
          application := Known(OrElse(ev.application, "softnix-log-agent"), base.application),
          processId := Known(OrElse(ev.processId, "-"), base.processId),
          fields := if sd.Some? then SetEntry(base.fields, "structured_data", String(sd.value)) else base.fields,
          message := StripBom(msg))
  }

  lemma HeaderRead(base: Event, ev: Event, clock: Clock)
    requires SpaceFree(ev.timestamp)
    ensures Facility(ev) > 23 ==> Parse(base, Format(ev), clock) == None
    ensures Facility(ev) <= 23 && Wordy(ev) ==> Parse(base, Format(ev), clock) == Some(Carried(base, ev, clock))
  {
    hide ParsePri, CutAtSpace, ParseTail, StructuredData, Decimal, StripBom, SetEntry, SpaceFree;
    var ts, host := ev.timestamp, OrElse(ev.hostname, "-");
    var app, pid := OrElse(ev.application, "softnix-log-agent"), OrElse(ev.processId, "-");
    var tail := StructuredData(ev.fields) + " " + ev.message;
    var words := ts + " " + (host + " " + (app + " " + (pid + " " + ("-" + " " + tail))));
    FormatWords(ev, ts, host, app, pid, tail, words);
    PriRoundTrip(PriOf(ev), "1 " + words);
    if Facility(ev) <= 23 && Wordy(ev) {
      Defaults();
      LineRead(base, PriOf(ev), ts, host, app, pid, "-", tail, clock);
    }
  }

  /** An event without facility and severity is printed as user-level and informational,
      and without an application as one of the agent. */
  lemma PrintedDefaults(ev: Event)
    requires ev.facility.None? && ev.severity.None? && ev.hostname.None? && ev.application.None? && ev.processId.None?
    ensures Format(ev) == Line(14, ev.timestamp, "-", "softnix-log-agent", "-", "-",
                               StructuredData(ev.fields) + " " + ev.message)
  {
    hide StructuredData, Decimal;
    var ts, app, tail := ev.timestamp, "softnix-log-agent", StructuredData(ev.fields) + " " + ev.message;
    FormatWords(ev, ts, "-", app, "-", tail, ts + " " + ("-" + " " + (app + " " + ("-" + " " + ("-" + " " + tail)))));
  }

  lemma Defaults()
    ensures SpaceFree("-") && SpaceFree("softnix-log-agent")
  {
  }

  /** A printed line is declined if the facility is above 23; otherwise the parser
      takes from it, onto a fresh event, what it carries if and only if no
      header word has a space in it. */
  lemma HeaderRoundTripIff(base: Event, ev: Event, clock: Clock)
    requires SpaceFree(ev.timestamp)
    requires base.hostname.None? && base.application.None? && base.processId.None?
    ensures Facility(ev) > 23 ==> Parse(base, Format(ev), clock) == None
    ensures Facility(ev) <= 23 ==> (Parse(base, Format(ev), clock) == Some(Carried(base, ev, clock)) <==> Wordy(ev))
  {
    hide Parse, Format, ParseTail, StructuredData, StripBom, SetEntry, SpaceFree;
    HeaderRead(base, ev, clock);
    if Parse(base, Format(ev), clock) == Some(Carried(base, ev, clock)) {
      Defaults();
      ParsedWords(base, Format(ev), clock);
    }
  }

  lemma Regroup(a: string, host: string, app: string, pid: string, sd: string, msg: string)
    ensures a + " " + host + " " + app + " " + pid + " - " + sd + " " + msg
         == a + (" " + (host + " " + (app + " " + (pid + " " + ("-" + " " + (sd + " " + msg))))))
  {
    var r5 := "-" + " " + (sd + " " + msg);
    var r4 := pid + " " + r5;
    var r3 := app + " " + r4;
    var l3 := a + " " + host;
    var l4 := l3 + " " + app;
    var l5 := l4 + " " + pid;
    assert l5 + " - " + sd + " " + msg == l5 + (" " + r5);
    assert l5 + (" " + r5) == l4 + (" " + r4);
    assert l4 + (" " + r4) == l3 + (" " + r3);
    assert l3 + (" " + r3) == a + (" " + (host + " " + r3));
  }

  lemma FormatWords(ev: Event, ts: string, host: string, app: string, pid: string, tail: string, words: string)
    requires ts == ev.timestamp && host == OrElse(ev.hostname, "-")
    requires app == OrElse(ev.application, "softnix-log-agent") && pid == OrElse(ev.processId, "-")
    requires tail == StructuredData(ev.fields) + " " + ev.message
    requires words == ts + " " + (host + " " + (app + " " + (pid + " " + ("-" + " " + tail))))
    ensures Format(ev) == "<" + Decimal(PriOf(ev)) + ">" + ("1 " + words)
  {
    hide StructuredData, Decimal;
    var a := "<" + Decimal(PriOf(ev)) + ">1 " + ts;
    assert a == "<" + Decimal(PriOf(ev)) + ">" + "1 " + ts;
    Regroup(a, host, app, pid, StructuredData(ev.fields), ev.message);
  }

  /** Structured data and message after the header. */
  lemma TailRoundTrip(fields: seq<(string, Value)>, msg: string)
    ensures var (sd, m) := ParseTail(StructuredData(fields) + " " + msg);
      if Params(fields) == [] then sd == None && StripBom(m) == Received(msg)
      else
        && sd.Some?
        && (sd == Some(StructuredData(fields)) <==> EmittedBrackets(fields) == 0)
        && (EmittedBrackets(fields) == 0 ==> StripBom(m) == Received(msg))
  {
    hide Params, EmittedBrackets, ScanSd, TrimStart, StripBom;
    var sd := StructuredData(fields);
    var t := sd + " " + msg;
    if Params(fields) == [] {
      assert t[1..] == " " + msg;
    } else {
      ScannerStopsIff(fields, msg);
      assert SD_ID[0] == '[';
      assert t[0] == '[';
      assert t[..|sd|] == sd;
      assert t[|sd|..] == " " + msg;
    }
  }

  lemma {:induction false} SetEntryTells(fields: seq<(string, Value)>, key: string, v: Value, w: Value)
    requires SetEntry(fields, key, v) == SetEntry(fields, key, w)
    ensures v == w
  {
    if fields != [] && fields[0].0 != key && !Before(key, fields[0].0) {
      assert SetEntry(fields, key, v)[1..] == SetEntry(fields, key, w)[1..];
      SetEntryTells(fields[1..], key, v, w);
    } else {
      assert SetEntry(fields, key, v)[0] == (key, v);
    }
  }

  /** The fresh event with everything the printed one had that a line can carry,
      the structured data being kept as its exact text. */
  function Recovered(base: Event, ev: Event): Event {
    base.(timestamp := ev.timestamp,
          facility := ev.facility, severity := ev.severity, hostname := ev.hostname,
          application := ev.application, processId := ev.processId, message := ev.message,
          fields := if Params(ev.fields) == [] then base.fields
                    else SetEntry(base.fields, "structured_data", String(StructuredData(ev.fields))))
  }

  /** The timestamp reads as itself, or it is the one the fresh event has and nothing
      else is read. */
  predicate Timely(base: Event, ev: Event, clock: Clock) {
    || (ev.timestamp != "-" && clock(ev.timestamp) == Some(ev.timestamp))
    || ((ev.timestamp == "-" || clock(ev.timestamp).None?) && base.timestamp == ev.timestamp)
  }

  predicate Plain(ev: Event) {
    && ev.facility.Some? && ev.facility.value <= 23
    && ev.severity.Some? && ev.severity.value <= 7
    && ev.hostname != Some("-")
    && ev.application.Some? && ev.application.value != "-"
    && ev.processId != Some("-")
    && EmittedBrackets(ev.fields) == 0
    && (ev.message == [] || (!IsSpace(ev.message[0]) && ev.message[0] as int != 0xFEFF))
  }

  /** Round trip: printing an event and parsing the line onto a fresh one recovers
      timestamp, facility, severity, host, application, process, message and the
      exact structured-data text if and only if no header word has a space in it,
      the numbers are present and in range, the application is present, no word is
      the NILVALUE, no opening bracket is emitted unescaped, the message starts
      with neither whitespace nor a byte order mark, and the timestamp reads as itself. */
  lemma RoundTripIff(base: Event, ev: Event, clock: Clock)
    requires SpaceFree(ev.timestamp)
    requires base.hostname.None? && base.application.None? && base.processId.None?
    ensures Parse(base, Format(ev), clock) == Some(Recovered(base, ev))
            <==> Plain(ev) && Wordy(ev) && Timely(base, ev, clock)
  {
    hide Parse, Format, ParseTail, StructuredData, Params, EmittedBrackets, SetEntry, Received, StripBom, SpaceFree;
    HeaderRead(base, ev, clock);
    if Parse(base, Format(ev), clock) == Some(Recovered(base, ev)) { ParsedWords(base, Format(ev), clock); }
    if Wordy(ev) { WordyRoundTripIff(base, ev, clock); }
  }

  lemma WordyRoundTripIff(base: Event, ev: Event, clock: Clock)
    requires SpaceFree(ev.timestamp) && Wordy(ev)
    requires base.hostname.None? && base.application.None? && base.processId.None?
    ensures Parse(base, Format(ev), clock) == Some(Recovered(base, ev)) <==> Plain(ev) && Timely(base, ev, clock)
  {
    hide Parse, Format, ParseTail, StructuredData, Params, EmittedBrackets, SetEntry, Received, StripBom, SpaceFree,
      Wordy;
    HeaderRead(base, ev, clock);
    TailRoundTrip(ev.fields, ev.message);
    MessageKeptIff(ev.message);
    var (sd, m) := ParseTail(StructuredData(ev.fields) + " " + ev.message);
    if Params(ev.fields) == [] {
      BracketsNeedParams(ev.fields);
    } else if sd != Some(StructuredData(ev.fields)) && sd.Some?
              && SetEntry(base.fields, "structured_data", String(sd.value))
                 == SetEntry(base.fields, "structured_data", String(StructuredData(ev.fields))) {
      SetEntryTells(base.fields, "structured_data", String(sd.value), String(StructuredData(ev.fields)));
      assert false;
    }
  }

  // ------------------------------------------------------ lines of other senders

  /** Structured data of any number of elements, and the message behind it, are taken
      apart exactly where they meet if and only if no element has an unescaped opening
      bracket inside. */
  lemma ElementsReadIff(base: Event, pri: nat, ts: string, host: string, app: string, pid: string, msgid: string,
                        es: seq<string>, msg: string, clock: Clock)
    requires pri <= 191 && SpaceFree(ts) && SpaceFree(host) && SpaceFree(app) && SpaceFree(pid) && SpaceFree(msgid)
    requires es != [] && Elements(es)
    ensures Parse(base, Line(pri, ts, host, app, pid, msgid, Concat(es) + " " + msg), clock)
            == Some(Said(base, pri, ts, host, app, pid, Some(Concat(es)), Received(msg), clock))
            <==> InnerOpens(es) == 0
  {
    hide Parse, Line, ScanSd, SetEntry, StripBom, TrimStart, SpaceFree, TimeOr, Known, InnerOpens, Element;
    var sd := Concat(es);
    var tail := sd + " " + msg;
    LineRead(base, pri, ts, host, app, pid, msgid, tail, clock);
    ScanElementsIff([], es, " " + msg, 0);
    assert [] + sd + (" " + msg) == tail;
    FirstBracket(es);
    var idx := ScanSd(tail, 0, 0);
    if idx == |sd| {
      assert tail[..idx] == sd && tail[idx..] == " " + msg;
    } else {
      assert |tail[..idx]| != |sd|;
      if SetEntry(base.fields, "structured_data", String(tail[..idx]))
         == SetEntry(base.fields, "structured_data", String(sd)) {
        SetEntryTells(base.fields, "structured_data", String(tail[..idx]), String(sd));
      }
    }
  }

  lemma FirstBracket(es: seq<string>)
    requires es != [] && Elements(es)
    ensures Concat(es) != [] && Concat(es)[0] == '['
  {
    hide Sealed;
    assert Element(es[0]);
  }

  // ----------------------------------------------- the printed fields, read back

  /** The parameters of an element from `i` on, read by the grammar of RFC 5424,
      section 6.3: a space, a name, an equals sign, a quoted value, and so on up to the
      closing bracket. */
  function ReadParams(s: string, i: nat): Option<(seq<(string, string)>, nat)>
    decreases |s| - i
  {
    if i >= |s| then None
    else if s[i] == ']' then Some(([], i + 1))
    else if s[i] != ' ' then None
    else
      var k := Find(s, '=', i + 1);
      if k + 1 >= |s| || s[k + 1] != '"' || !PlainName(s[i + 1..k]) then None
      else
        var v := ReadValue(s, k + 2);
        if v.None? || v.value.1 < k + 2 then None
        else
          var rest := ReadParams(s, v.value.1 + 1);
          if rest.None? then None else Some(([(s[i + 1..k], v.value.0)] + rest.value.0, rest.value.1))
  }

  /** A name that cannot be mistaken for anything else in an element. */
  predicate PlainName(name: string) {
    name != [] && ' ' !in name && '"' !in name && ']' !in name
  }

  /** The names and texts that are printed: of every field with a text and a proper
      name, in order, but for the raw structured data of a parsed line. */
  function Printed(fields: seq<(string, Value)>): seq<(string, string)> {
    if fields == [] then []
    else
      var f := fields[|fields| - 1];
      Printed(fields[..|fields| - 1]) + if Emitted(f) then [(f.0, ValueText(f.1).value)] else []
  }

  /** A name and a text are printed exactly if a field has them, the text is not null, and
      the name is neither empty nor that of raw structured data, and has no control
      character, space, equals sign, bracket or quote in it. */
  lemma {:induction false} PrintedIff(fields: seq<(string, Value)>, name: string, text: string)
    ensures (name, text) in Printed(fields)
            <==> name != "structured_data" && name != []
                 && (forall c | c in name :: c !in {' ', '=', ']', '"'} && c as int >= 33)
                 && exists v: Value :: (name, v) in fields && ValueText(v) == Some(text)
  {
    hide ValueText, GoodName;
    if fields != [] {
      var f, init := fields[|fields| - 1], fields[..|fields| - 1];
      PrintedIff(init, name, text);
      GoodNameIff(name);
      assert fields == init + [f];
      assert forall v: Value :: (name, v) in fields <==> (name, v) in init || f == (name, v);
    }
  }

  lemma GoodNameIff(name: string)
    ensures GoodName(name) <==> name != [] && forall c | c in name :: c !in {' ', '=', ']', '"'} && c as int >= 33
  {
    if forall c | c in name :: c !in {' ', '=', ']', '"'} && c as int >= 33 {
      forall i | 0 <= i < |name| ensures NameChar(name[i]) {
        assert name[i] in name;
      }
    }
  }

  lemma GoodIsPlain(name: string)
    requires GoodName(name)
    ensures PlainName(name) && '=' !in name
  {
  }

  /** One more parameter in front. */
  lemma ReadParam(pre: string, key: string, value: string, post: string)
    requires GoodName(key)
    ensures var s := pre + Param(key, value) + post;
      var next := |pre| + |Param(key, value)|;
      && next <= |s|
      && ReadParams(s, |pre|)
         == if ReadParams(s, next).None? then None
            else Some(([(key, value)] + ReadParams(s, next).value.0, ReadParams(s, next).value.1))
  {
    hide Escape, ReadValue, GoodName, PlainName, Find;
    var s, e := pre + Param(key, value) + post, Escape(value);
    GoodIsPlain(key);
    var i, k := |pre|, |pre| + 1 + |key|;
    ParamLayout(pre, key, e, post);
    FindFirst(s, '=', i + 1, k);
    EscapeRoundTrip(pre + " " + key + "=\"", value, post);
  }

  lemma ParamLayout(pre: string, key: string, e: string, post: string)
    requires '=' !in key
    ensures var s := pre + (" " + key + "=\"" + e + "\"") + post;
      var i, k := |pre|, |pre| + 1 + |key|;
      && s == (pre + " " + key + "=\"") + e + "\"" + post
      && s[i] == ' ' && s[k] == '=' && s[k + 1] == '"' && s[i + 1..k] == key
      && forall j :: i + 1 <= j < k ==> s[j] != '='
  {
    var s := pre + (" " + key + "=\"" + e + "\"") + post;
    assert s == (pre + " " + key + "=\"") + e + "\"" + post;
    assert forall j :: |pre| + 1 <= j < |pre| + 1 + |key| ==> s[j] == key[j - |pre| - 1];
  }

  lemma {:induction false} ReadAllParams(pre: string, fields: seq<(string, Value)>, post: string)
    ensures var s := pre + Params(fields) + post;
      var next := |pre| + |Params(fields)|;
      && next <= |s|
      && ReadParams(s, |pre|)
         == if ReadParams(s, next).None? then None
            else Some((Printed(fields) + ReadParams(s, next).value.0, ReadParams(s, next).value.1))
    decreases |fields|
  {
    hide ReadParams, Param, GoodName;
    var s := pre + Params(fields) + post;
    if fields == [] {
      var r := ReadParams(s, |pre|);
      if r.Some? { assert [] + r.value.0 == r.value.0 && (r.value.0, r.value.1) == r.value; }
    } else {
      var f, init := fields[|fields| - 1], fields[..|fields| - 1];
      var last := if Emitted(f) then Param(f.0, ValueText(f.1).value) else [];
      assert s == pre + Params(init) + (last + post);
      ReadAllParams(pre, init, last + post);
      if Emitted(f) {
        assert s == (pre + Params(init)) + last + post;
        ReadParam(pre + Params(init), f.0, ValueText(f.1).value, post);
        var next := ReadParams(s, |pre| + |Params(fields)|);
        if next.Some? {
          assert Printed(init) + ([(f.0, ValueText(f.1).value)] + next.value.0) == Printed(fields) + next.value.0;
        }
      } else {
        assert Params(fields) == Params(init) + [] == Params(init);
        assert Printed(fields) == Printed(init) + [] == Printed(init);
      }
    }
  }

  /** A reader of the grammar finds in the printed element exactly the fields that were
      to be printed, whatever their texts hold, and ends where the element ends. */
  lemma FieldsReadBack(fields: seq<(string, Value)>, rest: string)
    requires Params(fields) != []
    ensures var sd := StructuredData(fields);
      SD_ID <= sd && ReadParams(sd + rest, |SD_ID|) == Some((Printed(fields), |sd|))
  {
    hide Params, ReadParams, Printed;
    var sd := StructuredData(fields);
    assert sd + rest == SD_ID + Params(fields) + ("]" + rest);
    ReadAllParams(SD_ID, fields, "]" + rest);
    ReadEnd(sd + rest, |SD_ID| + |Params(fields)|);
    assert Printed(fields) + [] == Printed(fields);
  }

  lemma ReadEnd(s: string, i: nat)
    requires i < |s| && s[i] == ']'
    ensures ReadParams(s, i) == Some(([], i + 1))
  {
  }

  /** And where there is nothing to print the NILVALUE stands. */
  lemma {:induction false} NothingPrintedIff(fields: seq<(string, Value)>)
    ensures Params(fields) == [] <==> Printed(fields) == []
    ensures StructuredData(fields) == "-" <==> Printed(fields) == []
  {
    if fields != [] { NothingPrintedIff(fields[..|fields| - 1]); }
  }

  lemma BracketsNeedParams(fields: seq<(string, Value)>)
    requires Params(fields) == []
    ensures EmittedBrackets(fields) == 0
  {
    ParamsSealed(fields);
    assert Opens([], 0) == 0;
  }
}
