/** The RFC 5424 line of an event: printing it, and the hand-written parser that
    reads such lines back.  Text is a sequence of characters. */
module Rfc5424 {
  import opened Naturals
  import opened Options
  import opened Events

  // ---------------------------------------------------------------- printing

  function OrElse<T>(o: Option<T>, d: T): T {
    if o.Some? then o.value else d
  }

  function PriOf(ev: Event): nat {
    Min(OrElse(ev.facility, 1), 31) * 8 + Min(OrElse(ev.severity, 6), 7)
  }

  predicate Special(c: char) {
    c == '"' || c == '\\' || c == ']'
  }

  /** Escaping of the three characters that are special inside a PARAM-VALUE. */
  function Escape(s: string): string {
    if s == [] then []
    else Escape(s[..|s| - 1]) + (if Special(s[|s| - 1]) then ['\\'] else []) + [s[|s| - 1]]
  }

  method SdEscape(s: string) returns (out: string)
    ensures out == Escape(s)
  {
    out := [];
    for i := 0 to |s|
      invariant out == Escape(s[..i])
    {
      assert s[..i + 1][..i] == s[..i];
      if s[i] == '"' || s[i] == '\\' || s[i] == ']' {
        out := out + ['\\'];
      }
      out := out + [s[i]];
    }
    assert s[..|s|] == s;
  }

  predicate NameChar(c: char) {
    c != ' ' && c != '=' && c != ']' && c != '"' && c as int >= 33
  }

  predicate GoodName(key: string) {
    key != [] && forall i :: 0 <= i < |key| ==> NameChar(key[i])
  }

  /** Whether a field becomes an SD-PARAM. */
  predicate Emitted(f: (string, Value)) {
    f.0 != "structured_data" && ValueText(f.1).Some? && GoodName(f.0)
  }

  function Param(key: string, value: string): string {
    " " + key + "=\"" + Escape(value) + "\""
  }

  function Params(fields: seq<(string, Value)>): string {
    if fields == [] then []
    else
      var f := fields[|fields| - 1];
      Params(fields[..|fields| - 1]) + if Emitted(f) then Param(f.0, ValueText(f.1).value) else []
  }

  const SD_ID := "[softnix@32473"

  function StructuredData(fields: seq<(string, Value)>): string {
    if Params(fields) == [] then "-" else SD_ID + Params(fields) + "]"
  }

  method Rfc5424StructuredData(ev: Event) returns (sd: string)
    ensures sd == StructuredData(ev.fields)
  {
    var params: string := [];
    for i := 0 to |ev.fields|
      invariant params == Params(ev.fields[..i])
    {
      var (key, val) := ev.fields[i];
      assert ev.fields[..i + 1][..i] == ev.fields[..i];
      if key == "structured_data" { continue; }
      var value := ValueText(val);
      if value.None? { continue; }
      if key == [] || exists j :: 0 <= j < |key| && !NameChar(key[j]) { continue; }
      var escaped := SdEscape(value.value);
      params := params + (" " + key + "=\"" + escaped + "\"");
    }
    assert ev.fields[..|ev.fields|] == ev.fields;
    sd := if params == [] then "-" else SD_ID + params + "]";
  }

  /** The whole line. */
  function Format(ev: Event): string {
    "<" + Decimal(PriOf(ev)) + ">1 " + ev.timestamp
    + " " + OrElse(ev.hostname, "-")
    + " " + OrElse(ev.application, "softnix-log-agent")
    + " " + OrElse(ev.processId, "-")
    + " - " + StructuredData(ev.fields) + " " + ev.message
  }

  // ----------------------------------------------------------------- parsing

  predicate IsDigit(c: char) {
    '0' <= c <= '9'
  }

  function NumberOf(s: string): nat
    requires forall i :: 0 <= i < |s| ==> IsDigit(s[i])
  {
    if s == [] then 0
    else
      assert IsDigit(s[|s| - 1]);
      NumberOf(s[..|s| - 1]) * 10 + (s[|s| - 1] as int - '0' as int)
  }

  /** Digits with an optional plus sign, as the standard integer parser takes them. */
  function ParseNumber(s: string): Option<nat> {
    var d := if s != [] && s[0] == '+' then s[1..] else s;
    if d != [] && forall i :: 0 <= i < |d| ==> IsDigit(d[i]) then Some(NumberOf(d)) else None
  }

  /** Where `c` first occurs from `i` on, or the end. */
  function Find(s: string, c: char, i: nat): (k: nat)
    requires i <= |s|
    ensures i <= k <= |s|
    decreases |s| - i
  {
    if i == |s| || s[i] == c then i else Find(s, c, i + 1)
  }

  function ParsePri(line: string): Option<(nat, nat, string)> {
    if line == [] || line[0] != '<' then None
    else
      var rest := line[1..];
      var end := Find(rest, '>', 0);
      if end == |rest| || end == 0 || end > 3 then None
      else
        var pri := ParseNumber(rest[..end]);
        if pri.None? || pri.value > 191 then None
        else Some((pri.value / 8, pri.value % 8, rest[end + 1..]))
  }

  /** The part before the first space and the part after it. */
  function CutAtSpace(s: string): Option<(string, string)> {
    var k := Find(s, ' ', 0);
    if k == |s| then None else Some((s[..k], s[k + 1..]))
  }

  predicate IsSpace(c: char) {
    var n := c as int;
    9 <= n <= 13 || n == 32 || n == 0x85 || n == 0xA0 || n == 0x1680 || 0x2000 <= n <= 0x200A
    || n == 0x2028 || n == 0x2029 || n == 0x202F || n == 0x205F || n == 0x3000
  }

  function TrimStart(s: string): string {
    if s != [] && IsSpace(s[0]) then TrimStart(s[1..]) else s
  }

  function StripBom(s: string): string {
    if s != [] && s[0] as int == 0xFEFF then s[1..] else s
  }

  /** Where the structured data ends, scanning from `i` at bracket depth `depth`. */
  function ScanSd(t: string, i: nat, depth: nat): (idx: nat)
    ensures idx <= |t|
    decreases |t| - i
  {
    if i >= |t| then |t|
    else if t[i] == '[' then ScanSd(t, i + 1, depth + 1)
    else if t[i] == ']' then
      if Minus(depth, 1) == 0 && (i + 1 >= |t| || t[i + 1] != '[') then i + 1 else ScanSd(t, i + 1, Minus(depth, 1))
    else if t[i] == '\\' then ScanSd(t, i + 2, depth)
    else ScanSd(t, i + 1, depth)
  }

  method ScanStructuredData(tail: string) returns (idx: nat)
    ensures idx == ScanSd(tail, 0, 0)
  {
    var depth, i := 0, 0;
    idx := |tail|;
    while i < |tail|
      invariant idx == |tail|
      invariant ScanSd(tail, i, depth) == ScanSd(tail, 0, 0)
      decreases |tail| - i
    {
      if tail[i] == '[' {
        depth := depth + 1;
      } else if tail[i] == ']' {
        depth := Minus(depth, 1);
        if depth == 0 && (i + 1 >= |tail| || tail[i + 1] != '[') {
          idx := i + 1;
          break;
        }
      } else if tail[i] == '\\' {
        i := i + 1;
      }
      i := i + 1;
    }
  }

  /** Structured data and message of the part after the MSGID. */
  function ParseTail(tail: string): (Option<string>, string) {
    if tail != [] && tail[0] == '-' then (None, TrimStart(tail[1..]))
    else if tail != [] && tail[0] == '[' then
      var idx := ScanSd(tail, 0, 0);
      (Some(tail[..idx]), TrimStart(tail[idx..]))
    else (None, tail)
  }

  /** Reads a timestamp, if the word is one. */
  type Clock = string -> Option<string>

  /** The timestamp stays unless another one is given. */
  function TimeOr(word: string, old_: string, clock: Clock): string {
    if word == "-" then old_ else OrElse(clock(word), old_)
  }

  /** What the parser makes of a line on top of an event; None where it declines
      and leaves the event alone. */
  function Parse(ev: Event, line: string, clock: Clock): Option<Event> {
    var p := ParsePri(line);
    if p.None? || !("1 " <= p.value.2) then None
    else
      var c1 := CutAtSpace(p.value.2[2..]);
      if c1.None? then None else
      var c2 := CutAtSpace(c1.value.1);
      if c2.None? then None else
      var c3 := CutAtSpace(c2.value.1);
      if c3.None? then None else
      var c4 := CutAtSpace(c3.value.1);
      if c4.None? then None else
      var c5 := CutAtSpace(c4.value.1);
      if c5.None? then None else
      var (sd, msg) := ParseTail(c5.value.1);
      Some(ev.(timestamp := TimeOr(c1.value.0, ev.timestamp, clock),
               facility := Some(p.value.0), severity := Some(p.value.1),
               hostname := Known(c2.value.0, ev.hostname),
               application := Known(c3.value.0, ev.application),
               processId := Known(c4.value.0, ev.processId),
               fields := if sd.Some? then SetEntry(ev.fields, "structured_data", String(sd.value)) else ev.fields,
               message := StripBom(msg)))
  }

  /** The NILVALUE leaves what was there. */
  function Known(s: string, old_: Option<string>): Option<string> {
    if s == "-" then old_ else Some(s)
  }

  /** The parser itself, filling in the event step by step. */
  method ParseRfc5424(ev: Event, line: string, clock: Clock) returns (ok: bool, out: Event)
    ensures ok == Parse(ev, line, clock).Some?
    ensures out == OrElse(Parse(ev, line, clock), ev)
  {
    ok, out := false, ev;
    var p := ParsePri(line);
    if p.None? || !("1 " <= p.value.2) { return; }
    var timestamp := CutAtSpace(p.value.2[2..]);
    if timestamp.None? { return; }
    var host := CutAtSpace(timestamp.value.1);
    if host.None? { return; }
    var app := CutAtSpace(host.value.1);
    if app.None? { return; }
    var procid := CutAtSpace(app.value.1);
    if procid.None? { return; }
    var msgid := CutAtSpace(procid.value.1);
    if msgid.None? { return; }
    var tail := msgid.value.1;
    out := out.(facility := Some(p.value.0), severity := Some(p.value.1));
    if timestamp.value.0 != "-" {
      var time := clock(timestamp.value.0);
      if time.Some? { out := out.(timestamp := time.value); }
    }
    if host.value.0 != "-" { out := out.(hostname := Some(host.value.0)); }
    if app.value.0 != "-" { out := out.(application := Some(app.value.0)); }
    if procid.value.0 != "-" { out := out.(processId := Some(procid.value.0)); }
    var msg := tail;
    if tail != [] && tail[0] == '-' {
      msg := TrimStart(tail[1..]);
    } else if tail != [] && tail[0] == '[' {
      var idx := ScanStructuredData(tail);
      out := out.(fields := SetEntry(out.fields, "structured_data", String(tail[..idx])));
      msg := TrimStart(tail[idx..]);
    }
    ok, out := true, out.(message := StripBom(msg));
  }

  // -------------------------------------------------------- words and numbers

  lemma {:induction false} DecimalIsNumber(n: nat)
    ensures forall i :: 0 <= i < |Decimal(n)| ==> IsDigit(Decimal(n)[i])
    ensures NumberOf(Decimal(n)) == n
    ensures n < 1000 ==> |Decimal(n)| <= 3
    ensures n < 100 ==> |Decimal(n)| <= 2
    ensures n < 10 ==> |Decimal(n)| == 1
  {
    var s := Decimal(n);
    if n < 10 {
      DigitValue(n);
      assert s[..0] == [];
    } else {
      DecimalIsNumber(n / 10);
      DigitValue(n % 10);
      assert s[..|s| - 1] == Decimal(n / 10);
    }
  }

  lemma DigitValue(d: nat)
    requires d < 10
    ensures IsDigit(Digit(d)) && Digit(d) as int - '0' as int == d
  {
  }

  lemma {:induction false} FindFirst(s: string, c: char, i: nat, k: nat)
    requires i <= k < |s| && s[k] == c && forall j :: i <= j < k ==> s[j] != c
    ensures Find(s, c, i) == k
    decreases k - i
  {
    if i < k { FindFirst(s, c, i + 1, k); }
  }

  predicate SpaceFree(s: string) {
    forall i :: 0 <= i < |s| ==> s[i] != ' '
  }

  lemma CutWord(word: string, rest: string)
    requires SpaceFree(word)
    ensures CutAtSpace(word + " " + rest) == Some((word, rest))
  {
    var s := word + " " + rest;
    FindFirst(s, ' ', 0, |word|);
    assert s[..|word|] == word;
    assert s[|word| + 1..] == rest;
  }

  lemma PriRoundTrip(n: nat, rest: string)
    requires n < 1000
    ensures ParsePri("<" + Decimal(n) + ">" + rest) == if n > 191 then None else Some((n / 8, n % 8, rest))
  {
    hide Decimal, NumberOf, Find;
    var d := Decimal(n);
    DecimalIsNumber(n);
    var line := "<" + d + ">" + rest;
    var r := line[1..];
    assert r == d + ">" + rest;
    assert forall j :: 0 <= j < |d| ==> IsDigit(d[j]) && r[j] == d[j];
    FindFirst(r, '>', 0, |d|);
    assert r[..|d|] == d;
    assert r[|d| + 1..] == rest;
    assert IsDigit(d[0]);
  }

  /** A priority is taken from a line exactly if one to three characters between angle
      brackets spell a number up to 191, and it is that number. */
  lemma PriTakenIff(line: string, facility: nat, severity: nat, rest: string)
    ensures ParsePri(line) == Some((facility, severity, rest))
            <==> severity < 8 && 8 * facility + severity <= 191
                 && exists d: string :: 1 <= |d| <= 3 && '>' !in d && ParseNumber(d) == Some(8 * facility + severity)
                                        && line == "<" + d + ">" + rest
  {
    hide ParseNumber;
    if ParsePri(line) == Some((facility, severity, rest)) {
      var r := line[1..];
      var end := Find(r, '>', 0);
      FoundFirst(r, '>', 0);
      FoundThere(r, '>', 0);
      assert line == "<" + r[..end] + ">" + r[end + 1..];
      assert '>' !in r[..end];
    }
    forall d: string | 1 <= |d| <= 3 && '>' !in d && ParseNumber(d) == Some(8 * facility + severity)
                       && line == "<" + d + ">" + rest && severity < 8 && 8 * facility + severity <= 191
      ensures ParsePri(line) == Some((facility, severity, rest))
    {
      var r := line[1..];
      assert r == d + ">" + rest;
      assert forall j :: 0 <= j < |d| ==> r[j] == d[j];
      FindFirst(r, '>', 0, |d|);
      assert r[..|d|] == d && r[|d| + 1..] == rest;
    }
  }

  lemma {:induction false} FoundThere(s: string, c: char, i: nat)
    requires i <= |s| && Find(s, c, i) < |s|
    ensures s[Find(s, c, i)] == c
    decreases |s| - i
  {
    if s[i] != c { FoundThere(s, c, i + 1); }
  }

  // ----------------------------------------------------- escaping round trip

  /** Reading a PARAM-VALUE up to its closing quote (RFC 5424, section 6.3.3). */
  function ReadValue(s: string, i: nat): Option<(string, nat)>
    decreases |s| - i
  {
    if i >= |s| then None
    else if s[i] == '"' then Some(([], i))
    else if s[i] == '\\' && i + 1 < |s| && Special(s[i + 1]) then
      var r := ReadValue(s, i + 2);
      if r.None? then None else Some(([s[i + 1]] + r.value.0, r.value.1))
    else
      var r := ReadValue(s, i + 1);
      if r.None? then None else Some(([s[i]] + r.value.0, r.value.1))
  }

  /** What was escaped is read back, and the reader stops at the closing quote. */
  lemma {:induction false} EscapeRoundTrip(pre: string, v: string, rest: string)
    ensures ReadValue(pre + Escape(v) + "\"" + rest, |pre|) == Some((v, |pre| + |Escape(v)|))
    decreases |v|
  {
    var s := pre + Escape(v) + "\"" + rest;
    if v == [] {
      assert s[|pre|] == '"';
    } else {
      var c, w := v[0], v[1..];
      EscapeCons(v);
      var head := if Special(c) then ['\\', c] else [c];
      assert Escape(v) == head + Escape(w);
      assert s == (pre + head) + Escape(w) + "\"" + rest;
      EscapeRoundTrip(pre + head, w, rest);
      assert s[|pre|] == head[0];
      if Special(c) { assert s[|pre| + 1] == c; }
      assert [c] + w == v;
    }
  }

  lemma {:induction false} EscapeCons(v: string)
    requires v != []
    ensures Escape(v) == (if Special(v[0]) then ['\\', v[0]] else [v[0]]) + Escape(v[1..])
  {
    if |v| == 1 {
      assert v[..0] == [];
    } else {
      var u := v[..|v| - 1];
      EscapeCons(u);
      assert v[1..][..|v| - 2] == u[1..];
    }
  }

  lemma EscapeInjective(a: string, b: string)
    requires Escape(a) == Escape(b)
    ensures a == b
  {
    EscapeRoundTrip([], a, []);
    EscapeRoundTrip([], b, []);
  }

  lemma {:induction false} FoundFirst(s: string, c: char, i: nat)
    requires i <= |s|
    ensures forall j :: i <= j < Find(s, c, i) ==> s[j] != c
    decreases |s| - i
  {
    if i < |s| && s[i] != c { FoundFirst(s, c, i + 1); }
  }

  lemma CutIsWord(s: string)
    ensures CutAtSpace(s).Some? ==> SpaceFree(CutAtSpace(s).value.0)
  {
    FoundFirst(s, ' ', 0);
  }

  /** Whatever the parser reads as a header word has no space in it. */
  lemma ParsedWords(ev: Event, line: string, clock: Clock)
    requires ev.hostname.None? && ev.application.None? && ev.processId.None?
    requires Parse(ev, line, clock).Some?
    ensures var r := Parse(ev, line, clock).value;
      && (r.hostname.Some? ==> SpaceFree(r.hostname.value))
      && (r.application.Some? ==> SpaceFree(r.application.value))
      && (r.processId.Some? ==> SpaceFree(r.processId.value))
  {
    hide CutAtSpace, SpaceFree, ParsePri, ParseTail;
    var c1 := CutAtSpace(ParsePri(line).value.2[2..]).value;
    var c2 := CutAtSpace(c1.1).value;
    var c3 := CutAtSpace(c2.1).value;
    CutIsWord(c1.1);
    CutIsWord(c2.1);
    CutIsWord(c3.1);
  }
}
