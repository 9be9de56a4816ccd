/** Conditions on events: what they mean, and the compiled form that answers from
    borrowed text where it can. */
module Conditions {
  import opened Options
  import opened Events

  datatype Condition = Condition(field: string, op: string, value: Option<Value>)

  type Pattern = string -> bool

  datatype Compiled = Compiled(
    field: string,
    op: string,
    value: Option<Value>,
    valueStr: Option<string>,
    regex: Option<Pattern>)

  /** What the libraries do: equality of values, compiling a pattern, reading a
      number out of a value and comparing two of them. */
  datatype Library<!F> = Library(
    same: (Value, Value) -> bool,
    pattern: string -> Option<Pattern>,
    number: Value -> Option<F>,
    less: (F, F) -> bool)

  /** A text equals only itself; nothing is asked of numbers and structures. */
  ghost predicate TextEquality<F>(lib: Library<F>) {
    forall s: string, v: Value :: lib.same(String(s), v) <==> v == String(s)
  }

  predicate Contains(a: string, b: string) {
    exists i :: 0 <= i <= |a| && b <= a[i..]
  }

  function AndThen(o: Option<Value>): Option<string> {
    if o.Some? then ValueText(o.value) else None
  }

  predicate ValuesEq<F>(lib: Library<F>, a: Value, b: Value) {
    lib.same(a, b) || (ValueText(a).Some? && ValueText(a) == ValueText(b))
  }

  // ------------------------------------------------------------------ meaning

  predicate Matches<F>(lib: Library<F>, text: string, pattern: Value) {
    pattern.String? && lib.pattern(pattern.s).Some? && lib.pattern(pattern.s).value(text)
  }

  /** What a condition says of a field that is present and a literal that is. */
  predicate Holds<F>(lib: Library<F>, op: string, a: Value, b: Value) {
    match op
    case "eq" => ValuesEq(lib, a, b)
    case "ne" => !ValuesEq(lib, a, b)
    case "contains" => ValueText(a).Some? && ValueText(b).Some? && Contains(ValueText(a).value, ValueText(b).value)
    case "matches" => ValueText(a).Some? && Matches(lib, ValueText(a).value, b)
    case "gt" => lib.number(a).Some? && lib.number(b).Some? && lib.less(lib.number(b).value, lib.number(a).value)
    case "lt" => lib.number(a).Some? && lib.number(b).Some? && lib.less(lib.number(a).value, lib.number(b).value)
    case _ => false
  }

  /** The answer of a condition, from the owned value of its field alone: a missing
      field is absent and unequal to any literal, and satisfies nothing else. */
  predicate Meaning<F>(lib: Library<F>, c: Condition, ev: Event) {
    var a := GetField(ev, c.field);
    match c.op
    case "exists" => a.Some?
    case "not_exists" => a.None?
    case op =>
      if c.value.None? then false
      else if a.None? then op == "ne"
      else Holds(lib, op, a.value, c.value.value)
  }

  // ----------------------------------------------------------------- compiled

  function Compile<F>(lib: Library<F>, c: Condition): Option<Compiled> {
    var text := AndThen(c.value);
    if c.op == "matches" && c.value.Some? && c.value.value.String? then
      var regex := lib.pattern(c.value.value.s);
      if regex.None? then None
      else Some(Compiled(c.field, c.op, c.value, text, regex))
    else Some(Compiled(c.field, c.op, c.value, text, None))
  }

  predicate FieldPresent(cond: Compiled, ev: Event) {
    GetStr(ev, cond.field).Some? || GetField(ev, cond.field).Some?
  }

  /** The answer from borrowed text, if the field can be borrowed. */
  function EvalStrOp(cond: Compiled, ev: Event): Option<bool> {
    var a := GetStr(ev, cond.field);
    if a.None? then None
    else
      match cond.op
      case "contains" => Some(cond.valueStr.Some? && Contains(a.value, cond.valueStr.value))
      case "eq" => Some(cond.valueStr.Some? && a.value == cond.valueStr.value)
      case "ne" => Some(cond.value.Some? && (cond.valueStr.Some? ==> a.value != cond.valueStr.value))
      case "matches" => Some(cond.regex.Some? && cond.regex.value(a.value))
      case _ => None
  }

  /** The answer from the owned value. */
  predicate EvalValueOp<F>(lib: Library<F>, cond: Compiled, ev: Event) {
    var a := GetField(ev, cond.field);
    match cond.op
    case "eq" => a.Some? && cond.value.Some? && ValuesEq(lib, a.value, cond.value.value)
    case "ne" => cond.value.Some? && (a.Some? ==> !ValuesEq(lib, a.value, cond.value.value))
    case "contains" =>
      var (x, y) := (AndThen(a), AndThen(cond.value));
      x.Some? && y.Some? && Contains(x.value, y.value)
    case "matches" => AndThen(a).Some? && cond.regex.Some? && cond.regex.value(AndThen(a).value)
    case _ => false
  }

  predicate EvalCondition<F>(lib: Library<F>, cond: Compiled, ev: Event) {
    if cond.op == "exists" then FieldPresent(cond, ev)
    else if cond.op == "not_exists" then !FieldPresent(cond, ev)
    else if cond.op == "eq" || cond.op == "ne" || cond.op == "contains" || cond.op == "matches" then
      var hit := EvalStrOp(cond, ev);
      if hit.Some? then hit.value else EvalValueOp(lib, cond, ev)
    else if cond.op == "gt" || cond.op == "lt" then
      var a := GetField(ev, cond.field);
      if a.None? || cond.value.None? then false
      else
        var (x, y) := (lib.number(a.value), lib.number(cond.value.value));
        if x.None? || y.None? then false
        else if cond.op == "gt" then lib.less(y.value, x.value)
        else lib.less(x.value, y.value)
    else false
  }

  // ----------------------------------------------------------------- agreement

  lemma BorrowedAgrees<F>(lib: Library<F>, c: Condition, ev: Event)
    requires TextEquality(lib) && Compile(lib, c).Some?
    requires EvalStrOp(Compile(lib, c).value, ev).Some?
    ensures EvalStrOp(Compile(lib, c).value, ev).value == EvalValueOp(lib, Compile(lib, c).value, ev)
  {
    hide GetStr, GetField, Contains, ValueText;
    var a := GetStr(ev, c.field).value;
    GetStrIff(ev, c.field, a);
    assert ValueText(String(a)) == Some(a) by { TextOfString(a); }
    if c.value.Some? {
      assert lib.same(String(a), c.value.value) <==> c.value.value == String(a);
    }
  }

  lemma TextOfString(s: string)
    ensures ValueText(String(s)) == Some(s)
  {
  }

  /** The fast path changes no answer: a compiled condition holds of an event
      exactly where the condition itself does, for every operator, literal and
      event, custom fields named like core ones included; and a condition that does
      not compile is one that no event satisfies. */
  lemma CompiledMeansTheSame<F>(lib: Library<F>, c: Condition, ev: Event)
    requires TextEquality(lib)
    ensures match Compile(lib, c)
      case Some(cond) => EvalCondition(lib, cond, ev) <==> Meaning(lib, c, ev)
      case None => !Meaning(lib, c, ev)
  {
    hide GetStr, GetField, Contains, ValueText, ValuesEq, EvalStrOp;
    if Compile(lib, c).Some? {
      var cond := Compile(lib, c).value;
      if GetStr(ev, c.field).Some? { GetStrIff(ev, c.field, GetStr(ev, c.field).value); }
      if EvalStrOp(cond, ev).Some? { BorrowedAgrees(lib, c, ev); }
    }
  }

  /** A text contains another exactly if it can be cut around it. */
  lemma ContainsIff(a: string, b: string)
    ensures Contains(a, b) <==> exists pre: string, post: string :: a == pre + b + post
  {
    if Contains(a, b) {
      var i :| 0 <= i <= |a| && b <= a[i..];
      assert a == a[..i] + b + a[i..][|b|..];
    }
    forall pre: string, post: string | a == pre + b + post ensures Contains(a, b) {
      assert a[|pre|..] == b + post;
    }
  }

  /** Whether a condition compiles and holds. */
  predicate Accepts<F>(lib: Library<F>, c: Condition, ev: Event) {
    Compile(lib, c).Some? && EvalCondition(lib, Compile(lib, c).value, ev)
  }

  /** Presence, and the two that are each other's negation where there is a literal. */
  lemma PresenceLaws<F>(lib: Library<F>, c: Condition, ev: Event)
    requires TextEquality(lib)
    ensures Accepts(lib, c.(op := "exists"), ev) <==> GetField(ev, c.field).Some?
    ensures Accepts(lib, c.(op := "not_exists"), ev) <==> GetField(ev, c.field).None?
    ensures Accepts(lib, c.(op := "ne"), ev) <==> c.value.Some? && !Accepts(lib, c.(op := "eq"), ev)
  {
    hide GetStr, GetField, Contains, ValueText, ValuesEq, EvalCondition;
    CompiledMeansTheSame(lib, c.(op := "exists"), ev);
    CompiledMeansTheSame(lib, c.(op := "not_exists"), ev);
    CompiledMeansTheSame(lib, c.(op := "ne"), ev);
    CompiledMeansTheSame(lib, c.(op := "eq"), ev);
  }

  /** Equality holds of equal values and of equal texts. */
  lemma EqualityLaw<F>(lib: Library<F>, c: Condition, ev: Event, a: Value, b: Value)
    requires TextEquality(lib) && c.op == "eq" && GetField(ev, c.field) == Some(a) && c.value == Some(b)
    ensures Accepts(lib, c, ev)
            <==> lib.same(a, b) || exists s :: ValueText(a) == Some(s) && ValueText(b) == Some(s)
  {
    hide GetStr, GetField, ValueText, EvalCondition;
    CompiledMeansTheSame(lib, c, ev);
  }

  /** A boolean field equals the literals that spell it, and a number those that do. */
  lemma SpellingLaw<F>(lib: Library<F>, c: Condition, ev: Event, s: string)
    requires TextEquality(lib) && c.op == "eq" && c.value == Some(String(s)) && GetField(ev, c.field).Some?
    requires !lib.same(GetField(ev, c.field).value, String(s))
    ensures GetField(ev, c.field) == Some(Bool(true)) ==> (Accepts(lib, c, ev) <==> s == "true")
    ensures GetField(ev, c.field) == Some(Bool(false)) ==> (Accepts(lib, c, ev) <==> s == "false")
    ensures GetField(ev, c.field) == Some(Null) ==> !Accepts(lib, c, ev)
    ensures forall n :: GetField(ev, c.field) == Some(Number(n)) ==> (Accepts(lib, c, ev) <==> s == n)
  {
    hide GetStr, GetField, EvalCondition;
    CompiledMeansTheSame(lib, c, ev);
  }

  /** A text contains the literal exactly if it can be cut around it. */
  lemma ContainsLaw<F>(lib: Library<F>, c: Condition, ev: Event, a: string, b: string)
    requires TextEquality(lib) && c.op == "contains"
    requires GetField(ev, c.field) == Some(String(a)) && c.value == Some(String(b))
    ensures Accepts(lib, c, ev) <==> exists pre: string, post: string :: a == pre + b + post
  {
    hide GetStr, GetField, Contains, EvalCondition;
    CompiledMeansTheSame(lib, c, ev);
    ContainsIff(a, b);
  }

  /** "gt" says that the field is the greater one, and "lt" the literal. */
  lemma OrderLaws<F>(lib: Library<F>, c: Condition, ev: Event, x: F, y: F)
    requires TextEquality(lib) && GetField(ev, c.field).Some? && c.value.Some?
    requires lib.number(GetField(ev, c.field).value) == Some(x) && lib.number(c.value.value) == Some(y)
    ensures Accepts(lib, c.(op := "gt"), ev) <==> lib.less(y, x)
    ensures Accepts(lib, c.(op := "lt"), ev) <==> lib.less(x, y)
  {
    hide GetStr, GetField, EvalCondition;
    CompiledMeansTheSame(lib, c.(op := "gt"), ev);
    CompiledMeansTheSame(lib, c.(op := "lt"), ev);
  }

  /** The pattern is matched against the text of the field. */
  lemma PatternLaw<F>(lib: Library<F>, c: Condition, ev: Event, a: string, p: string)
    requires TextEquality(lib) && c.op == "matches"
    requires GetField(ev, c.field) == Some(String(a)) && c.value == Some(String(p))
    ensures Accepts(lib, c, ev) <==> lib.pattern(p).Some? && lib.pattern(p).value(a)
  {
    hide GetStr, GetField, EvalCondition;
    CompiledMeansTheSame(lib, c, ev);
  }

  /** A custom field cannot shadow a core name: setting the entry `key` of the
      custom fields can change the answers of conditions on `key` alone, and not
      even those when `key` names a core field. */
  lemma ShadowingChangesNothing<F>(lib: Library<F>, c: Condition, ev: Event, key: string, v: Value)
    requires TextEquality(lib) && Compile(lib, c).Some?
    requires c.field != key || key in CORE
    ensures EvalCondition(lib, Compile(lib, c).value, ev)
       <==> EvalCondition(lib, Compile(lib, c).value, ev.(fields := SetEntry(ev.fields, key, v)))
  {
    hide Compile, EvalCondition, SetEntry, Holds;
    var changed := ev.(fields := SetEntry(ev.fields, key, v));
    CompiledMeansTheSame(lib, c, ev);
    CompiledMeansTheSame(lib, c, changed);
    LookupAfterSet(ev.fields, key, v, c.field);
    CoreOrLookup(ev, changed.fields, c.field);
    assert GetField(ev, c.field) == GetField(changed, c.field);
  }
}
