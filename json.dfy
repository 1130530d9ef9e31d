/**
 * Request bodies and query strings as the handlers see them: a decoded JSON
 * value, and the `dict.get` / truthiness idioms the handlers apply to it.
 * Numbers are integers; floats are not modelled.
 */
module Json {
  import opened Common

  datatype Json =
    | JNull
    | JBool(b: bool)
    | JNum(n: int)
    | JStr(s: string)
    | JList(items: seq<Json>)
    | JObj(fields: map<string, Json>)

  /** A request body, taken to be a JSON object; an empty body reads as `{}` (`get_json() or {}`). */
  type Body = map<string, Json>

  /** Python truthiness of the decoded value. */
  predicate Truthy(j: Json) {
    match j
    case JNull => false
    case JBool(b) => b
    case JNum(n) => n != 0
    case JStr(s) => s != []
    case JList(items) => items != []
    case JObj(fields) => fields != map[]
  }

  /** `body.get(k)`: a missing key reads as None. */
  function Get(body: Body, k: string): (r: Json)
    ensures k !in body ==> r == JNull
    ensures k in body ==> r == body[k]
  {
    if k in body then body[k] else JNull
  }

  /** `body.get(k, default)`: only a missing key yields the default. */
  function GetOr(body: Body, k: string, default: Json): (r: Json)
    ensures k !in body ==> r == default
    ensures k in body ==> r == body[k]
  {
    if k in body then body[k] else default
  }

  /**
   * `(value or "")` followed by a string method: falsy values become "",
   * truthy non-strings raise.
   */
  function OrEmpty(j: Json): (r: Option<string>)
    ensures !Truthy(j) ==> r == Some("")
    ensures Truthy(j) ==> (r.Some? <==> j.JStr?)
    ensures j.JStr? ==> r == Some(j.s)
  {
    if !Truthy(j) then Some("") else if j.JStr? then Some(j.s) else None
  }

  /** `(value or "").strip()`: None when a truthy non-string raises. */
  function StripOr(j: Json): (r: Option<string>)
    ensures !Truthy(j) ==> r == Some("")
    ensures j.JStr? ==> r == Some(Strip(j.s))
    ensures r.None? <==> Truthy(j) && !j.JStr?
  {
    match OrEmpty(j)
    case None => None
    case Some(s) => Some(Strip(s))
  }

  /** `body.get(k, "").strip()`: "" for a missing key; None when the value is not a string (None included). */
  function GetStripped(body: Body, k: string): (r: Option<string>)
    ensures k !in body ==> r == Some("")
    ensures k in body && body[k].JStr? ==> r == Some(Strip(body[k].s))
    ensures r.None? <==> k in body && !body[k].JStr?
  {
    var v := GetOr(body, k, JStr(""));
    if v.JStr? then Some(Strip(v.s)) else None
  }

  /** Python's `a or b`. */
  function PyOr(a: Json, b: Json): (r: Json)
    ensures Truthy(a) ==> r == a
    ensures !Truthy(a) ==> r == b
  {
    if Truthy(a) then a else b
  }

  /** The range of a signed 64-bit SQLite INTEGER, outside which the driver raises OverflowError. */
  predicate InInt64(n: int) {
    -0x8000_0000_0000_0000 <= n <= 0x7FFF_FFFF_FFFF_FFFF
  }

  /** The driver binds every decoded value except a list, an object or an integer wider than 64 bits. */
  predicate DriverAccepts(j: Json) {
    !j.JList? && !j.JObj? && !(j.JNum? && !InInt64(j.n))
  }

  /**
   * What SQLite keeps when a decoded JSON value is written to a text
   * column: strings as they are, None as NULL, numbers and booleans as
   * their decimal text; None when the driver refuses the value, which
   * fails the commit.
   */
  function SqlText(j: Json): (r: Option<Option<string>>)
    ensures j.JStr? ==> r == Some(Some(j.s))
    ensures j.JNull? ==> r == Some(None)
    ensures j.JBool? ==> r == Some(Some(if j.b then "1" else "0"))
    ensures j.JNum? && InInt64(j.n) ==> r == Some(Some(IntToString(j.n)))
    ensures r.None? <==> !DriverAccepts(j)
  {
    match j
    case JNull => Some(None)
    case JStr(s) => Some(Some(s))
    case JBool(b) => Some(Some(if b then "1" else "0"))
    case JNum(n) => if InInt64(n) then Some(Some(IntToString(n))) else None
    case _ => None
  }

  /**
   * Comparing a JSON value with an integer id column in SQLite: numbers and
   * booleans compare as integers, digit strings are converted to integers,
   * other strings and null never match; what the driver refuses gives
   * None.
   */
  function SqlIntKey(j: Json): (r: Option<Option<int>>)
    ensures j.JNum? && InInt64(j.n) ==> r == Some(Some(j.n))
    ensures j.JBool? ==> r == Some(Some(if j.b then 1 else 0))
    ensures j.JNull? ==> r == Some(None)
    ensures j.JStr? ==> r.Some? && (r.value.Some? <==> j.s != [] && forall i :: 0 <= i < |j.s| ==> IsDigit(j.s[i]))
    ensures j.JStr? && r.Some? && r.value.Some? ==> r.value.value == ParseNat(j.s)
    ensures r.None? <==> !DriverAccepts(j)
  {
    match j
    case JNum(n) => if InInt64(n) then Some(Some(n)) else None
    case JBool(b) => Some(Some(if b then 1 else 0))
    case JStr(s) =>
      if s != [] && forall i :: 0 <= i < |s| ==> IsDigit(s[i]) then Some(Some(ParseNat(s))) else Some(None)
    case JNull => Some(None)
    case _ => None
  }

  /** The decimal text of an id, sent as a string, compares equal to that id. */
  lemma SqlIntKeyDecimal(n: nat)
    ensures SqlIntKey(JStr(NatToString(n))) == Some(Some(n))
  {
    ParseNatToString(n);
  }
}
