/** The event every part of the pipeline handles: its core fields and its map of
    custom fields, read by name as owned values or as borrowed text. */
module Events {
  import opened Options
  import Records

  datatype Value =
    | Null
    | Bool(b: bool)
    | Number(text: string)
    | String(s: string)
    | Json(encoded: string)     // arrays and objects, already encoded

  /** Custom fields come in the order of their keys, as the map keeps them.
      Timestamps are the tokens they print as. */
  datatype Event = Event(
    timestamp: string,
    receivedAt: string,
    hostname: Option<string>,
    source: string,
    sourceType: string,
    severity: Option<Records.Byte>,
    facility: Option<Records.Byte>,
    application: Option<string>,
    processId: Option<string>,
    message: string,
    rawMessage: Option<string>,
    collectorVersion: string,
    fields: seq<(string, Value)>)

  function Digit(d: nat): char
    requires d < 10
  {
    "0123456789"[d]
  }

  function Decimal(n: nat): (s: string)
    ensures s != []
  {
    if n < 10 then [Digit(n)] else Decimal(n / 10) + [Digit(n % 10)]
  }

  /** The natural text of a value; null has none. */
  function ValueText(v: Value): Option<string> {
    match v
    case Null => None
    case Bool(b) => Some(if b then "true" else "false")
    case Number(t) => Some(t)
    case String(s) => Some(s)
    case Json(e) => Some(e)
  }

  function Lookup(fields: seq<(string, Value)>, key: string): Option<Value> {
    if fields == [] then None
    else if fields[0].0 == key then Some(fields[0].1)
    else Lookup(fields[1..], key)
  }

  /** The order of the field map. */
  predicate Before(a: string, b: string) {
    b != [] && (a == [] || a[0] < b[0] || (a[0] == b[0] && Before(a[1..], b[1..])))
  }

  function SetEntry(fields: seq<(string, Value)>, key: string, v: Value): seq<(string, Value)> {
    if fields == [] then [(key, v)]
    else if fields[0].0 == key then [(key, v)] + fields[1..]
    else if Before(key, fields[0].0) then [(key, v)] + fields
    else [fields[0]] + SetEntry(fields[1..], key, v)
  }

  lemma {:induction false} LookupAfterSet(fields: seq<(string, Value)>, key: string, v: Value, name: string)
    ensures Lookup(SetEntry(fields, key, v), name) == if name == key then Some(v) else Lookup(fields, name)
  {
    if fields != [] && fields[0].0 != key && !Before(key, fields[0].0) {
      assert SetEntry(fields, key, v)[1..] == SetEntry(fields[1..], key, v);
      LookupAfterSet(fields[1..], key, v, name);
    } else if fields != [] && fields[0].0 == key {
      assert ([(key, v)] + fields[1..])[1..] == fields[1..];
    } else {
      assert ([(key, v)] + fields)[1..] == fields;
    }
  }

  function Text(o: Option<string>): Option<Value> {
    if o.Some? then Some(String(o.value)) else None
  }

  function Code(o: Option<Records.Byte>): Option<Value> {
    if o.Some? then Some(Number(Decimal(o.value))) else None
  }

  /** A field by name: core names first, then the custom fields. */
  function GetField(ev: Event, name: string): Option<Value> {
    match name
    case "timestamp" => Some(String(ev.timestamp))
    case "received_at" => Some(String(ev.receivedAt))
    case "hostname" => Text(ev.hostname)
    case "source" => Some(String(ev.source))
    case "source_type" => Some(String(ev.sourceType))
    case "severity" => Code(ev.severity)
    case "facility" => Code(ev.facility)
    case "application" => Text(ev.application)
    case "process_id" => Text(ev.processId)
    case "message" => Some(String(ev.message))
    case "raw_message" => Text(ev.rawMessage)
    case "collector_version" => Some(String(ev.collectorVersion))
    case other => Lookup(ev.fields, other)
  }

  /** The same as borrowed text, for the fields that are text. */
  function GetStr(ev: Event, name: string): Option<string> {
    match name
    case "message" => Some(ev.message)
    case "raw_message" => ev.rawMessage
    case "hostname" => ev.hostname
    case "application" => ev.application
    case "process_id" => ev.processId
    case "source" => Some(ev.source)
    case "source_type" => Some(ev.sourceType)
    case "timestamp" => None
    case "received_at" => None
    case "severity" => None
    case "facility" => None
    case "collector_version" => None
    case other =>
      match Lookup(ev.fields, other)
      case Some(String(s)) => Some(s)
      case _ => None
  }

  const CORE := {
    "timestamp", "received_at", "hostname", "source", "source_type", "severity", "facility",
    "application", "process_id", "message", "raw_message", "collector_version"}

  /** Custom fields are consulted for names that are not core, and for those only. */
  lemma CoreOrLookup(ev: Event, fields: seq<(string, Value)>, name: string)
    ensures name in CORE ==> GetField(ev.(fields := fields), name) == GetField(ev, name)
    ensures name !in CORE ==> GetField(ev.(fields := fields), name) == Lookup(fields, name)
  {
  }

  /** The names whose value the event formats on demand. */
  const FORMATTED := {"timestamp", "received_at", "collector_version"}

  /** Borrowing answers exactly where the owned value is a text the event already
      holds, with the same text, whatever custom fields shadow the core names. */
  lemma GetStrIff(ev: Event, name: string, s: string)
    ensures GetStr(ev, name) == Some(s) <==> GetField(ev, name) == Some(String(s)) && name !in FORMATTED
  {
  }

  // ------------------------------------------------------- setting and removing

  /** How the libraries read a code out of a value, and a timestamp out of a text. */
  datatype Readers = Readers(code: Value -> Option<Records.Byte>, time: string -> Option<string>)

  /** Set a field by name: core fields that must have a text keep theirs if the value
      has none, and the names that cannot be set go to the custom fields. */
  function SetField(ev: Event, name: string, v: Value, r: Readers): Event {
    var text := ValueText(v);
    match name
    case "hostname" => ev.(hostname := text)
    case "source" => if text.Some? then ev.(source := text.value) else ev
    case "source_type" => if text.Some? then ev.(sourceType := text.value) else ev
    case "severity" => ev.(severity := r.code(v))
    case "facility" => ev.(facility := r.code(v))
    case "application" => ev.(application := text)
    case "process_id" => ev.(processId := text)
    case "message" => if text.Some? then ev.(message := text.value) else ev
    case "raw_message" => ev.(rawMessage := text)
    case "timestamp" =>
      if text.Some? && r.time(text.value).Some? then ev.(timestamp := r.time(text.value).value) else ev
    case other => ev.(fields := SetEntry(ev.fields, other, v))
  }

  function RemoveEntry(fields: seq<(string, Value)>, key: string): seq<(string, Value)> {
    if fields == [] then []
    else if fields[0].0 == key then fields[1..]
    else [fields[0]] + RemoveEntry(fields[1..], key)
  }

  /** Remove a field by name; the core fields that must be there stay. */
  function RemoveField(ev: Event, name: string): Event {
    match name
    case "hostname" => ev.(hostname := None)
    case "severity" => ev.(severity := None)
    case "facility" => ev.(facility := None)
    case "application" => ev.(application := None)
    case "process_id" => ev.(processId := None)
    case "raw_message" => ev.(rawMessage := None)
    case other => ev.(fields := RemoveEntry(ev.fields, other))
  }

  /** Setting and removing a field changes what is read under no other name. */
  lemma SetLeavesOthers(ev: Event, name: string, v: Value, r: Readers, other: string)
    requires other != name
    ensures GetField(SetField(ev, name, v, r), other) == GetField(ev, other)
    ensures Sorted(ev.fields) ==> GetField(RemoveField(ev, name), other) == GetField(ev, other)
  {
    hide GetField, SetField, RemoveField, Lookup, Sorted;
    var e, f := SetField(ev, name, v, r), RemoveField(ev, name);
    if other in CORE {
      SetLeavesCore(ev, name, v, r, other);
      RemoveLeavesCore(ev, name, other);
    } else {
      SetFields(ev, name, v, r);
      LookupAfterSet(ev.fields, name, v, other);
      if Sorted(ev.fields) { LookupAfterRemove(ev.fields, name, other); }
      CustomField(e, other);
      CustomField(f, other);
      CustomField(ev, other);
    }
  }

  lemma CustomField(ev: Event, name: string)
    requires name !in CORE
    ensures GetField(ev, name) == Lookup(ev.fields, name)
  {
  }

  lemma SetFields(ev: Event, name: string, v: Value, r: Readers)
    ensures SetField(ev, name, v, r).fields in {ev.fields, SetEntry(ev.fields, name, v)}
    ensures RemoveField(ev, name).fields in {ev.fields, RemoveEntry(ev.fields, name)}
  {
  }

  lemma SetLeavesCore(ev: Event, name: string, v: Value, r: Readers, other: string)
    requires other in CORE && other != name
    ensures GetField(SetField(ev, name, v, r), other) == GetField(ev, other)
  {
    hide Text, Code, ValueText, SetEntry;
    match name
    case "hostname" =>
    case "source" =>
    case "source_type" =>
    case "severity" =>
    case "facility" =>
    case "application" =>
    case "process_id" =>
    case "message" =>
    case "raw_message" =>
    case "timestamp" =>
    case _ => CoreOrLookup(ev, SetEntry(ev.fields, name, v), other);
  }

  lemma RemoveLeavesCore(ev: Event, name: string, other: string)
    requires other in CORE && other != name
    ensures GetField(RemoveField(ev, name), other) == GetField(ev, other)
  {
    hide Text, Code, RemoveEntry;
    match name
    case "hostname" =>
    case "severity" =>
    case "facility" =>
    case "application" =>
    case "process_id" =>
    case "raw_message" =>
    case _ => CoreOrLookup(ev, RemoveEntry(ev.fields, name), other);
  }

  /** A text that was set is read back if and only if the name is neither one that
      cannot be set nor one that holds a code, and a timestamp reads as itself. */
  lemma TextReadBackIff(ev: Event, name: string, s: string, r: Readers)
    ensures GetField(SetField(ev, name, String(s), r), name) == Some(String(s))
            <==> match name
                 case "received_at" => ev.receivedAt == s
                 case "collector_version" => ev.collectorVersion == s
                 case "severity" => false
                 case "facility" => false
                 case "timestamp" => r.time(s) == Some(s) || (r.time(s).None? && ev.timestamp == s)
                 case _ => true
  {
    LookupAfterSet(ev.fields, name, String(s), name);
  }

  /** A code that was set is read back as its number, and under its own name. */
  lemma CodeReadBack(ev: Event, v: Value, r: Readers)
    ensures var e := SetField(ev, "severity", v, r); e.severity == r.code(v) && e == ev.(severity := e.severity)
    ensures var e := SetField(ev, "facility", v, r); e.facility == r.code(v) && e == ev.(facility := e.facility)
    ensures GetField(SetField(ev, "severity", v, r), "severity") == Code(r.code(v))
    ensures GetField(SetField(ev, "facility", v, r), "facility") == Code(r.code(v))
  {
  }

  /** What was removed is not there, unless it is a core field that must be. */
  lemma RemovedIsGoneIff(ev: Event, name: string)
    requires Sorted(ev.fields)
    ensures GetField(RemoveField(ev, name), name).None?
            <==> name !in {"timestamp", "received_at", "source", "source_type", "message", "collector_version"}
  {
    LookupAfterRemove(ev.fields, name, name);
  }

  // -------------------------------------------------------- the order of the map

  /** The entries come in the order of their keys, each key once. */
  predicate Sorted(fields: seq<(string, Value)>) {
    forall i, j :: 0 <= i < j < |fields| ==> Before(fields[i].0, fields[j].0)
  }

  lemma {:induction false} BeforeTrans(a: string, b: string, c: string)
    requires Before(a, b) && Before(b, c)
    ensures Before(a, c)
    decreases |a|
  {
    if a != [] && a[0] == b[0] && b[0] == c[0] { BeforeTrans(a[1..], b[1..], c[1..]); }
  }

  lemma {:induction false} BeforeTotal(a: string, b: string)
    ensures a != b ==> Before(a, b) || Before(b, a)
    ensures Before(a, b) ==> a != b && !Before(b, a)
    decreases |a|
  {
    if a != [] && b != [] && a[0] == b[0] {
      BeforeTotal(a[1..], b[1..]);
      assert a == [a[0]] + a[1..] && b == [b[0]] + b[1..];
    }
  }

  /** Setting an entry keeps the order of the map. */
  lemma {:induction false} SetKeepsSorted(fields: seq<(string, Value)>, key: string, v: Value)
    requires Sorted(fields)
    ensures Sorted(SetEntry(fields, key, v))
    ensures forall k :: 0 <= k < |SetEntry(fields, key, v)| ==>
              SetEntry(fields, key, v)[k].0 == key || SetEntry(fields, key, v)[k] in fields
    decreases |fields|
  {
    hide Before;
    if fields != [] {
      var f, rest := fields[0], fields[1..];
      BeforeTotal(key, f.0);
      if f.0 == key {
      } else if Before(key, f.0) {
        forall j | 0 <= j < |fields| ensures Before(key, fields[j].0) {
          if j > 0 { BeforeTrans(key, f.0, fields[j].0); }
        }
      } else {
        SetKeepsSorted(rest, key, v);
        var s := SetEntry(rest, key, v);
        forall j | 0 <= j < |s| ensures Before(f.0, s[j].0) {
          if s[j].0 != key {
            var i :| 0 <= i < |rest| && rest[i] == s[j];
            assert fields[i + 1] == s[j];
          }
        }
      }
    }
  }

  lemma {:induction false} LookupAfterRemove(fields: seq<(string, Value)>, key: string, name: string)
    requires Sorted(fields)
    ensures Lookup(RemoveEntry(fields, key), name) == if name == key then None else Lookup(fields, name)
    decreases |fields|
  {
    hide Before;
    if fields != [] {
      if fields[0].0 == key {
        forall j | 0 < j < |fields| ensures fields[j].0 != key { BeforeTotal(key, fields[j].0); }
        Absent(fields[1..], key);
      } else {
        LookupAfterRemove(fields[1..], key, name);
        assert RemoveEntry(fields, key)[1..] == RemoveEntry(fields[1..], key);
      }
    }
  }

  lemma {:induction false} Absent(fields: seq<(string, Value)>, key: string)
    requires forall j :: 0 <= j < |fields| ==> fields[j].0 != key
    ensures Lookup(fields, key) == None
  {
    if fields != [] { Absent(fields[1..], key); }
  }
}
