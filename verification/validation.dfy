/**
 * The three request-validation middlewares. Each runs an object schema on
 * one part of the request (body, route parameters or query string) and
 * either passes the request on or throws a ValidationError. Its message is
 * a prefix naming the part, then the violation messages joined with ", ".
 * Its details list one entry per violation.
 */
module ValidationMiddleware {
  import opened Wrappers
  import opened Schema
  import Errors
  import Text

  /** The part of the request a middleware validates. */
  datatype Part = Body | Params | Query

  function Prefix(part: Part): string {
    match part
    case Body => "Validation error: "
    case Params => "Invalid parameters: "
    case Query => "Invalid query parameters: "
  }

  predicate StartsWith(s: string, p: string) {
    |p| <= |s| && s[..|p|] == p
  }

  /** The part a validation message is about, read back from its prefix. */
  function PartOf(message: string): Option<Part> {
    if StartsWith(message, Prefix(Body)) then Some(Body)
    else if StartsWith(message, Prefix(Params)) then Some(Params)
    else if StartsWith(message, Prefix(Query)) then Some(Query)
    else None
  }

  /** No prefix begins another, so the prefix identifies the middleware. */
  lemma PrefixIdentifiesPart(part: Part, rest: string)
    ensures PartOf(Prefix(part) + rest) == Some(part)
  {
    var m := Prefix(part) + rest;
    assert m[..|Prefix(part)|] == Prefix(part);
    match part
    case Body =>
    case Params =>
      assert m[0] == 'I' != Prefix(Body)[0];
    case Query =>
      assert m[0] == 'I' != Prefix(Body)[0];
      assert m[8] == 'q' != Prefix(Params)[8];
  }

  /** What the middleware does with the request. */
  datatype Outcome = Next | Throw(error: Errors.ApiError)

  /**
   * `detail.message`: the schema's custom message for the violation's code,
   * else Joi's built-in text, which `builtIn` supplies.
   */
  function DetailMessage(v: Violation, builtIn: Violation -> string): string {
    if v.message.Some? then v.message.value else builtIn(v)
  }

  /** `{ field: path.join('.'), message, value }` */
  function ToDetail(v: Violation, builtIn: Violation -> string): Errors.Detail {
    Errors.Detail(Text.Join(v.path, "."), DetailMessage(v, builtIn), v.value)
  }

  function Details(vs: seq<Violation>, builtIn: Violation -> string): (r: seq<Errors.Detail>)
    ensures |r| == |vs| && forall i :: 0 <= i < |vs| ==> r[i] == ToDetail(vs[i], builtIn)
  {
    seq(|vs|, i requires 0 <= i < |vs| => ToDetail(vs[i], builtIn))
  }

  function Messages(ds: seq<Errors.Detail>): (r: seq<string>)
    ensures |r| == |ds| && forall i :: 0 <= i < |ds| ==> r[i] == ds[i].message
  {
    seq(|ds|, i requires 0 <= i < |ds| => ds[i].message)
  }

  /** The error thrown for the violations `vs` of `part`. */
  function Report(part: Part, vs: seq<Violation>, builtIn: Violation -> string): Errors.ApiError {
    var ds := Details(vs, builtIn);
    Errors.ValidationError(Prefix(part) + Text.Join(Messages(ds), ", "), Some(ds))
  }

  /**
   * `validate`, `validateParams` and `validateQuery`: the request goes on
   * exactly when the schema accepts the input; otherwise the thrown error is
   * a 400 ValidationError that names the part and carries the one violation
   * Joi reports under `abortEarly`.
   */
  function Check(part: Part, schema: seq<Field>, input: Input, builtIn: Violation -> string): (r: Outcome)
    ensures r.Next? <==> Accepts(schema, input)
    ensures r.Throw? ==>
      && r.error.ValidationError?
      && Errors.StatusCode(r.error) == 400
      && PartOf(Errors.Message(r.error)) == Some(part)
      && r.error.details.Some? && |r.error.details.value| == 1
      && Errors.Message(r.error) == Prefix(part) + r.error.details.value[0].message
      && r.error.details.value[0] == ToDetail(Validate(schema, input).value, builtIn)
  {
    match Validate(schema, input)
    case None => Next
    case Some(v) =>
      var e := Report(part, [v], builtIn);
      assert Text.Join(Messages(Details([v], builtIn)), ", ") == DetailMessage(v, builtIn);
      PrefixIdentifiesPart(part, DetailMessage(v, builtIn));
      Throw(e)
  }

  /**
   * Every violation's message appears in the thrown message, in order, after
   * the prefix; ", " separates neighbours.
   */
  lemma ReportKeepsEveryMessage(part: Part, vs: seq<Violation>, builtIn: Violation -> string, i: nat)
    requires i < |vs|
    ensures var m := Report(part, vs, builtIn).text;
      var at := |Prefix(part)| + Text.Offset(Messages(Details(vs, builtIn)), ", ", i);
      && at + |DetailMessage(vs[i], builtIn)| <= |m|
      && m[at..at + |DetailMessage(vs[i], builtIn)|] == DetailMessage(vs[i], builtIn)
  {
    var ms := Messages(Details(vs, builtIn));
    assert ms[i] == DetailMessage(vs[i], builtIn);
    Text.PrefixedJoinKeepsParts(Prefix(part), ms, ", ", i);
  }

  /** The thrown message names the part, however many violations it lists. */
  lemma ReportNamesPart(part: Part, vs: seq<Violation>, builtIn: Violation -> string)
    ensures PartOf(Errors.Message(Report(part, vs, builtIn))) == Some(part)
    ensures Errors.StatusCode(Report(part, vs, builtIn)) == 400
    ensures Report(part, vs, builtIn).details == Some(Details(vs, builtIn))
  {
    PrefixIdentifiesPart(part, Text.Join(Messages(Details(vs, builtIn)), ", "));
  }

  /**
   * A detail's `field` gives back the violation's path when split on ".",
   * provided no key on the path contains a dot.
   */
  lemma FieldGivesBackPath(v: Violation, builtIn: Violation -> string)
    requires 0 < |v.path|
    requires forall i :: 0 <= i < |v.path| ==> '.' !in v.path[i]
    ensures Text.Split(ToDetail(v, builtIn).field, '.') == v.path
  {
    Text.SplitJoin(v.path, '.');
  }

  /**
   * The three middlewares reject the same inputs with the same details; the
   * messages differ only in the prefix.
   */
  lemma PartsDifferOnlyInPrefix(a: Part, b: Part, schema: seq<Field>, input: Input, builtIn: Violation -> string)
    ensures Check(a, schema, input, builtIn).Throw? <==> Check(b, schema, input, builtIn).Throw?
    ensures Check(a, schema, input, builtIn).Throw? ==>
      var ea, eb := Check(a, schema, input, builtIn).error, Check(b, schema, input, builtIn).error;
      && ea.details == eb.details
      && Errors.Message(ea)[|Prefix(a)|..] == Errors.Message(eb)[|Prefix(b)|..]
  {
  }
}
