/** Request bodies as parsed JSON, the Joi rules the controllers'
    validation schemas are built from, and the casts Mongoose applies to
    the raw values the handlers then store. Every schema validates with Joi's
    defaults: unknown keys are rejected, `string()` refuses `""` unless
    `allow("")` is given, and `trim()` trims the value before that check. */
module Joi {
  import opened Base

  /** A JSON value. Integers stand for JSON numbers; `JOid` is an ObjectId
      as it travels inside a signed token payload. */
  datatype Json =
    | JNull
    | JBool(b: bool)
    | JNum(n: int)
    | JStr(s: string)
    | JArr(items: seq<Json>)
    | JObj(fields: map<string, Json>)
    | JOid(id: Id)

  /** `req.body` after `express.json()`: always an object. */
  type Body = map<string, Json>

  /** JavaScript truthiness, as used by `x || default` and `if (!x)`. */
  predicate Truthy(v: Json) {
    match v
    case JNull => false
    case JBool(b) => b
    case JNum(n) => n != 0
    case JStr(s) => s != []
    case _ => true
  }

  /** The value of an optional string field that validation has accepted:
      `None` when the key is absent. */
  function OptStr(body: Body, key: string): Option<string> {
    if key in body && body[key].JStr? then Some(body[key].s) else None
  }

  /** A string field that validation has accepted, or `""` when absent. */
  function StrAt(body: Body, key: string): string {
    if key in body && body[key].JStr? then body[key].s else ""
  }

  /** An array-of-strings field that validation has accepted, or `[]` when
      absent. */
  function StringsAt(body: Body, key: string): seq<string> {
    if key in body && body[key].JArr? then Strings(body[key].items) else []
  }

  function Strings(items: seq<Json>): (r: seq<string>)
    ensures |r| == |items|
    ensures forall i :: 0 <= i < |items| && items[i].JStr? ==> r[i] == items[i].s
  {
    if items == [] then []
    else [if items[0].JStr? then items[0].s else ""] + Strings(items[1..])
  }

  /** A field as sent, `JNull` standing for an absent one. */
  function ValueAt(body: Body, key: string): Json {
    if key in body then body[key] else JNull
  }

  /** `a || b` on an optional string: the default replaces an absent or
      empty value. */
  function OrElse(v: Option<string>, default: string): (r: string)
    ensures v.Some? && v.value != [] ==> r == v.value
    ensures (v.None? || v.value == []) ==> r == default
  {
    if v.Some? && v.value != [] then v.value else default
  }

  /** Mongoose's cast of a value to a `String` path: numbers and booleans
      are rendered, arrays and objects are refused (`None`, a CastError). */
  function CastString(v: Json): (r: Option<string>)
    ensures v.JStr? ==> r == Some(v.s)
    ensures (v.JArr? || v.JObj?) ==> r.None?
  {
    match v
    case JStr(s) => Some(s)
    case JNum(n) => Some(DecimalString(n))
    case JBool(b) => Some(if b then "true" else "false")
    case _ => None
  }

  /** Mongoose's cast of a value to a `Boolean` path: only `true`, `false`,
      the numbers 1 and 0 and the exact strings "true", "false", "1", "0",
      "yes", "no" are accepted. */
  function CastBoolean(v: Json): (r: Option<bool>)
    ensures v.JBool? ==> r == Some(v.b)
    ensures v.JStr? && v.s == "TRUE" ==> r.None?
  {
    match v
    case JBool(b) => Some(b)
    case JNum(n) => if n == 1 then Some(true) else if n == 0 then Some(false) else None
    case JStr(s) =>
      if s in {"true", "1", "yes"} then Some(true)
      else if s in {"false", "0", "no"} then Some(false)
      else None
    case _ => None
  }

  /** `Joi.object({...})` with its default `allowUnknown: false`. */
  predicate OnlyKeys(body: Body, allowed: set<string>) {
    body.Keys <= allowed
  }

  /** `Joi.string()`, `Joi.string().allow("")` and `Joi.string().trim()`. */
  predicate IsString(v: Json, allowEmpty: bool, trim: bool) {
    v.JStr? && (allowEmpty || (if trim then Trim(v.s) else v.s) != [])
  }

  /** `Joi.string().valid(...choices)`, optionally with `.allow("")`. */
  predicate IsOneOf(v: Json, choices: set<string>, allowEmpty: bool) {
    v.JStr? && (v.s in choices || (allowEmpty && v.s == []))
  }

  predicate IsHexDigit(c: char) {
    '0' <= c <= '9' || 'a' <= c <= 'f' || 'A' <= c <= 'F'
  }

  /** `Joi.string().hex().length(24)`: the shape of an ObjectId string. */
  predicate IsObjectIdString(v: Json) {
    v.JStr? && |v.s| == 24 && forall i :: 0 <= i < |v.s| ==> IsHexDigit(v.s[i])
  }

  /** `Joi.array().items(Joi.string().valid(...choices))`, with `.min(1)` when
      `nonEmpty`. */
  predicate IsArrayOfChoices(v: Json, choices: set<string>, nonEmpty: bool) {
    v.JArr? && (nonEmpty ==> v.items != [])
    && forall i :: 0 <= i < |v.items| ==> IsOneOf(v.items[i], choices, false)
  }

  /** `Joi.array().items(Joi.string())` (`trim` for `Joi.string().trim()`). */
  predicate IsArrayOfStrings(v: Json, trim: bool) {
    v.JArr? && forall i :: 0 <= i < |v.items| ==> IsString(v.items[i], false, trim)
  }

  /** `Joi.boolean()`: a boolean, or the strings "true"/"false" in any case. */
  predicate IsBoolean(v: Json) {
    v.JBool? || (v.JStr? && (ToLower(v.s) == "true" || ToLower(v.s) == "false"))
  }

  predicate IsDigits(s: string) {
    s != [] && forall i :: 0 <= i < |s| ==> '0' <= s[i] <= '9'
  }

  /** `Joi.number()`: a number, or a string of decimal digits. */
  predicate IsNumber(v: Json) {
    v.JNum? || (v.JStr? && IsDigits(v.s))
  }

  /** `Joi.date()`: a timestamp, or a string the JavaScript date parser
      accepts (`parsesAsDate`). */
  predicate IsDate(v: Json, parsesAsDate: string -> bool) {
    v.JNum? || (v.JStr? && parsesAsDate(v.s))
  }

  predicate IsEmailChar(c: char) {
    !IsSpace(c) && c != '@' && c != ','
  }

  /** `Joi.string().email()`: `local@domain`, a non-empty local part and a
      domain of at least two non-empty dot-separated labels. */
  predicate IsEmail(v: Json) {
    v.JStr? &&
    var s := v.s;
    var at := IndexOf(s, '@');
    0 < at < |s|
    && (forall i :: 0 <= i < |s| && i != at ==> IsEmailChar(s[i]))
    && var domain := s[at + 1..];
    IsDomain(domain)
  }

  predicate IsDomain(d: string) {
    var dot := IndexOf(d, '.');
    0 < dot < |d| - 1 && d[|d| - 1] != '.'
    && forall i :: 0 <= i < |d| - 1 ==> !(d[i] == '.' && d[i + 1] == '.')
  }

  predicate IsSchemeChar(c: char) {
    'a' <= c <= 'z' || 'A' <= c <= 'Z' || '0' <= c <= '9' || c == '+' || c == '-' || c == '.'
  }

  /** `Joi.string().uri()`: a scheme, a colon and a non-empty rest without
      white space. */
  predicate IsUri(v: Json) {
    v.JStr? &&
    var s := v.s;
    var colon := IndexOf(s, ':');
    0 < colon < |s| - 1
    && ('a' <= s[0] <= 'z' || 'A' <= s[0] <= 'Z')
    && (forall i :: 0 <= i < colon ==> IsSchemeChar(s[i]))
    && NoSpace(s)
  }
}
