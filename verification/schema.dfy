/**
 * The part of Joi's object validation the request schemas rely on, with
 * Joi's default `abortEarly`: fields are checked in declaration order, each
 * field's checks run in order (presence, allowed values, base type, empty
 * string, then its rules), the first failure ends validation, and keys the
 * schema does not declare are reported after all declared fields passed.
 */
module Schema {
  import opened Wrappers

  /**
   * A field value as Joi sees it after its default conversion: query-string
   * numbers, booleans and ISO dates arrive already converted, anything that
   * does not convert stays text. A boolean keeps the text it was written as
   * ("true", "TRUE", "false", ...), because Joi converts it case-insensitively
   * while the controllers read the raw query string.
   */
  datatype Value = Text(text: string) | Number(number: real) | Flag(flag: bool, written: string) | IsoDate(time: int)

  /**
   * The base type of a field. `Choice` is a string restricted by `.valid(…)`;
   * `RoundedNumber(p)` is a number with `.precision(p)`, which Joi's default
   * conversion rounds to `p` decimals before its rules run.
   */
  datatype Kind =
    | StringKind(allowEmpty: bool)
    | NumberKind
    | RoundedNumber(places: nat)
    | BooleanKind
    | DateKind
    | Choice(options: seq<string>)

  /** The rules chained after the base type, checked in order. */
  datatype Rule =
    | MinLength(minLength: nat)
    | MaxLength(maxLength: nat)
    | WordChars
    | Integer
    | AtLeast(lower: int)
    | AtMost(upper: int)
    | Positive

  /** One key of an object schema with its custom messages keyed by error code. */
  datatype Field = Field(key: string, kind: Kind, required: bool, rules: seq<Rule>, messages: map<string, string>)

  /** A request body, route parameters or query string: keys in order with their values. */
  type Input = seq<(string, Value)>

  /**
   * One failure: the path to the value, Joi's error code, the custom message
   * if the schema sets one for that code (`None` stands for Joi's built-in
   * text), and the offending value, absent when the key was missing.
   */
  datatype Violation = Violation(path: seq<string>, code: string, message: Option<string>, value: Option<Value>)

  /** The value under `key`; the first occurrence wins. */
  function Lookup(input: Input, key: string): (r: Option<Value>)
    ensures r.Some? <==> exists i :: 0 <= i < |input| && input[i].0 == key
    ensures r.Some? ==> exists i :: 0 <= i < |input| && input[i] == (key, r.value)
    decreases |input|
  {
    if |input| == 0 then None
    else if input[0].0 == key then Some(input[0].1)
    else
      var r := Lookup(input[1..], key);
      assert forall i :: 1 <= i < |input| ==> input[i] == input[1..][i - 1];
      r
  }

  /** `[A-Za-z0-9-_]` */
  predicate IsWordChar(c: char) {
    ('A' <= c <= 'Z') || ('a' <= c <= 'z') || ('0' <= c <= '9') || c == '-' || c == '_'
  }

  predicate WordCharsOnly(t: string) {
    forall i :: 0 <= i < |t| ==> IsWordChar(t[i])
  }

  predicate IsWhole(x: real) {
    x.Floor as real == x
  }

  /** `Number.MAX_SAFE_INTEGER`, 2^53 - 1. */
  const MaxSafeInteger: real := 9007199254740991.0

  /** Joi rejects a number outside ±(2^53 - 1) as "number.unsafe". */
  predicate IsSafe(x: real) {
    -MaxSafeInteger <= x <= MaxSafeInteger
  }

  function Pow10(p: nat): (r: real)
    ensures r >= 1.0
  {
    if p == 0 then 1.0 else 10.0 * Pow10(p - 1)
  }

  /** `Math.round(x * 10^p) / 10^p`; `Math.round` rounds halves up. */
  function RoundTo(x: real, p: nat): (r: real)
    ensures x - 0.5 / Pow10(p) < r <= x + 0.5 / Pow10(p)
  {
    var scaled := x * Pow10(p) + 0.5;
    var r := scaled.Floor as real / Pow10(p);
    assert scaled - 1.0 < scaled.Floor as real <= scaled;
    RoundBounds(x, Pow10(p), scaled.Floor as real);
    r
  }

  lemma RoundBounds(x: real, d: real, f: real)
    requires d >= 1.0 && x * d + 0.5 - 1.0 < f <= x * d + 0.5
    ensures x - 0.5 / d < f / d <= x + 0.5 / d
  {
    assert (x * d - 0.5) / d == x - 0.5 / d;
    assert (x * d + 0.5) / d == x + 0.5 / d;
  }

  /**
   * `value.length`: JavaScript counts UTF-16 code units, so a character
   * outside the Basic Multilingual Plane counts twice.
   */
  function Utf16Length(t: string): (n: nat)
    ensures |t| <= n <= 2 * |t|
    ensures n == 0 <==> t == ""
  {
    if |t| == 0 then 0 else (if t[0] as int >= 0x1_0000 then 2 else 1) + Utf16Length(t[1..])
  }

  /** The value the rules see: `RoundedNumber` fields round their number first. */
  function Converted(kind: Kind, v: Value): (c: Value)
    ensures c.Number? <==> v.Number?
    ensures !kind.RoundedNumber? ==> c == v
  {
    if kind.RoundedNumber? && v.Number? then Number(RoundTo(v.number, kind.places)) else v
  }

  predicate RuleHolds(rule: Rule, v: Value) {
    match rule
    case MinLength(n) => v.Text? ==> Utf16Length(v.text) >= n
    case MaxLength(n) => v.Text? ==> Utf16Length(v.text) <= n
    case WordChars => v.Text? ==> WordCharsOnly(v.text)
    case Integer => v.Number? ==> IsWhole(v.number)
    case AtLeast(n) => v.Number? ==> v.number >= n as real
    case AtMost(n) => v.Number? ==> v.number <= n as real
    case Positive => v.Number? ==> v.number > 0.0
  }

  function RuleCode(rule: Rule): string {
    match rule
    case MinLength(_) => "string.min"
    case MaxLength(_) => "string.max"
    case WordChars => "string.pattern.base"
    case Integer => "number.integer"
    case AtLeast(_) => "number.min"
    case AtMost(_) => "number.max"
    case Positive => "number.positive"
  }

  /** The position of the first rule, in declaration order, that `v` breaks. */
  function FirstBrokenRule(rules: seq<Rule>, v: Value): (r: Option<nat>)
    ensures r.None? <==> forall i :: 0 <= i < |rules| ==> RuleHolds(rules[i], v)
    ensures r.Some? ==> r.value < |rules| && !RuleHolds(rules[r.value], v)
                        && forall j :: 0 <= j < r.value ==> RuleHolds(rules[j], v)
    decreases |rules|
  {
    if |rules| == 0 then None
    else if !RuleHolds(rules[0], v) then Some(0)
    else
      assert forall i :: 1 <= i < |rules| ==> rules[i] == rules[1..][i - 1];
      match FirstBrokenRule(rules[1..], v)
      case None => None
      case Some(i) => Some(i + 1)
  }

  /** The error code of a value whose base type is wrong for `kind`. */
  function TypeError(kind: Kind, v: Value): Option<string> {
    match kind
    case StringKind(_) => if v.Text? then None else Some("string.base")
    case NumberKind => if v.Number? then None else Some("number.base")
    case RoundedNumber(_) => if v.Number? then None else Some("number.base")
    case BooleanKind => if v.Flag? then None else Some("boolean.base")
    case DateKind => if v.IsoDate? then None else if v.Text? then Some("date.format") else Some("date.base")
    case Choice(options) => if v.Text? && v.text in options then None else Some("any.only")
  }

  /** A value `f` accepts, stated without the order of the checks. */
  predicate FieldAccepts(f: Field, value: Option<Value>) {
    match value
    case None => !f.required
    case Some(v) =>
      (f.kind.StringKind? && f.kind.allowEmpty && v == Text(""))
      || (TypeError(f.kind, v).None?
          && !(v.Number? && !IsSafe(v.number))
          && !(f.kind.StringKind? && v == Text(""))
          && forall i :: 0 <= i < |f.rules| ==> RuleHolds(f.rules[i], Converted(f.kind, v)))
  }

  /** The error code of the first check `value` fails under `f`, if any. */
  function CheckField(f: Field, value: Option<Value>): (r: Option<string>)
    ensures value.None? ==> (r.Some? <==> f.required)
    ensures value.Some? && f.kind.StringKind? && f.kind.allowEmpty && value.value == Text("") ==> r.None?
    ensures r.None? <==> FieldAccepts(f, value)
    ensures r != Some("object.unknown")
  {
    match value
    case None => if f.required then Some("any.required") else None
    case Some(v) =>
      if f.kind.StringKind? && f.kind.allowEmpty && v == Text("") then None
      else if TypeError(f.kind, v).Some? then TypeError(f.kind, v)
      else if v.Number? && !IsSafe(v.number) then Some("number.unsafe")
      else if f.kind.StringKind? && v == Text("") then Some("string.empty")
      else match FirstBrokenRule(f.rules, Converted(f.kind, v))
        case Some(i) => Some(RuleCode(f.rules[i]))
        case None => None
  }

  function Keys(schema: seq<Field>): (r: seq<string>)
    ensures |r| == |schema| && forall i :: 0 <= i < |schema| ==> r[i] == schema[i].key
  {
    seq(|schema|, i requires 0 <= i < |schema| => schema[i].key)
  }

  function MessageFor(f: Field, code: string): Option<string> {
    if code in f.messages then Some(f.messages[code]) else None
  }

  /** The position of the first declared field that fails, in declaration order. */
  function FirstFailingField(schema: seq<Field>, input: Input): (r: Option<nat>)
    ensures r.None? <==> forall i :: 0 <= i < |schema| ==> CheckField(schema[i], Lookup(input, schema[i].key)).None?
    ensures r.Some? ==> r.value < |schema| && CheckField(schema[r.value], Lookup(input, schema[r.value].key)).Some?
    ensures r.Some? ==> forall j :: 0 <= j < r.value ==> CheckField(schema[j], Lookup(input, schema[j].key)).None?
    decreases |schema|
  {
    if |schema| == 0 then None
    else if CheckField(schema[0], Lookup(input, schema[0].key)).Some? then Some(0)
    else
      assert forall i :: 1 <= i < |schema| ==> schema[i] == schema[1..][i - 1];
      match FirstFailingField(schema[1..], input)
      case None => None
      case Some(i) => Some(i + 1)
  }

  /** The position of the first key of the input the schema does not declare. */
  function FirstUnknownKey(keys: seq<string>, input: Input): (r: Option<nat>)
    ensures r.None? <==> forall i :: 0 <= i < |input| ==> input[i].0 in keys
    ensures r.Some? ==> r.value < |input| && input[r.value].0 !in keys
    ensures r.Some? ==> forall j :: 0 <= j < r.value ==> input[j].0 in keys
    decreases |input|
  {
    if |input| == 0 then None
    else if input[0].0 !in keys then Some(0)
    else
      assert forall i :: 1 <= i < |input| ==> input[i] == input[1..][i - 1];
      match FirstUnknownKey(keys, input[1..])
      case None => None
      case Some(i) => Some(i + 1)
  }

  /**
   * What a schema accepts, stated without the order of the checks: every
   * declared field accepts its value and every key is declared.
   */
  predicate Accepts(schema: seq<Field>, input: Input) {
    FieldsAccept(schema, input) && KeysDeclared(input, Keys(schema))
  }

  predicate FieldsAccept(schema: seq<Field>, input: Input) {
    forall i :: 0 <= i < |schema| ==> FieldAccepts(schema[i], Lookup(input, schema[i].key))
  }

  predicate KeysDeclared(input: Input, keys: seq<string>) {
    forall j :: 0 <= j < |input| ==> input[j].0 in keys
  }

  /** The violation reported for declared field `f`. */
  function FieldViolation(f: Field, value: Option<Value>): Violation
    requires CheckField(f, value).Some?
  {
    var code := CheckField(f, value).value;
    Violation([f.key], code, MessageFor(f, code), Shown(f, value, code))
  }

  /**
   * The value a violation carries: a broken rule reports the converted value
   * the rule saw; the base checks report the value as given.
   */
  function Shown(f: Field, value: Option<Value>, code: string): Option<Value> {
    if value.Some? && code != "number.unsafe" then Some(Converted(f.kind, value.value)) else value
  }

  /**
   * `schema.validate(input).error` under `abortEarly`: at most one violation,
   * the first failing declared field's, else the first undeclared key's.
   */
  function Validate(schema: seq<Field>, input: Input): (r: Option<Violation>)
    ensures r.None? <==> Accepts(schema, input)
    ensures r.Some? && r.value.code == "object.unknown" ==> FieldsAccept(schema, input)
  {
    match FirstFailingField(schema, input)
    case Some(i) =>
      Some(FieldViolation(schema[i], Lookup(input, schema[i].key)))
    case None =>
      match FirstUnknownKey(Keys(schema), input)
      case Some(j) => Some(Violation([input[j].0], "object.unknown", None, Some(input[j].1)))
      case None => None
  }

  /**
   * When the fields before position `i` accept their values and field `i`
   * does not, the reported violation is field `i`'s.
   */
  lemma ReportsFirstFailingField(schema: seq<Field>, input: Input, i: nat)
    requires i < |schema|
    requires forall j :: 0 <= j < i ==> FieldAccepts(schema[j], Lookup(input, schema[j].key))
    requires !FieldAccepts(schema[i], Lookup(input, schema[i].key))
    ensures Validate(schema, input) == Some(FieldViolation(schema[i], Lookup(input, schema[i].key)))
  {
    var k := FirstFailingField(schema, input);
    assert CheckField(schema[i], Lookup(input, schema[i].key)).Some?;
    assert k.Some?;
  }

  /**
   * When every declared field accepts its value, an undeclared key is
   * reported as "object.unknown" with Joi's built-in text.
   */
  lemma ReportsUnknownKey(schema: seq<Field>, input: Input, j: nat)
    requires FieldsAccept(schema, input)
    requires j < |input| && input[j].0 !in Keys(schema)
    requires forall k :: 0 <= k < j ==> input[k].0 in Keys(schema)
    ensures Validate(schema, input) == Some(Violation([input[j].0], "object.unknown", None, Some(input[j].1)))
  {
    var u := FirstUnknownKey(Keys(schema), input);
    assert u.Some?;
  }
}
