/** What the handlers read from a request: optional strings tested for
    JavaScript truthiness, numeric query parameters with a fallback, and
    JSON bodies. */
module Requests {
  import opened Wrappers
  import opened Strings
  import opened Schema

  /** A string that is present and non-empty, as `if (s)` tests it. */
  function Truthy(s: Option<string>): (r: Option<string>)
    ensures r.Some? <==> s.Some? && s.value != ""
    ensures r.Some? ==> r == s
  {
    if s.Some? && s.value != "" then s else None
  }

  /** `Number(q) || d`: `q` is the integer value of the query parameter,
      or `None` when `Number` gives NaN (an absent or non-numeric
      parameter). Zero and NaN are falsy and give the default. */
  function NumberOr(q: Option<int>, d: int): (r: int)
    requires d != 0
    ensures r != 0
    ensures q.Some? && q.value != 0 ==> r == q.value
    ensures q.None? || q.value == 0 ==> r == d
  {
    if q.Some? && q.value != 0 then q.value else d
  }

  /** `parseInt(q, 10) || d` for an optional query string. */
  function ParseIntOr(q: Option<string>, d: int): (r: int)
    requires d != 0
    ensures r != 0
    ensures q.None? ==> r == d
    ensures q.Some? ==> r == NumberOr(ParseInt(q.value), d)
  {
    if q.None? then d else NumberOr(ParseInt(q.value), d)
  }

  /** The JSON values a body may carry for the attributes here. */
  datatype Json = JNull | JStr(s: string)

  /** A request body: the keys that are present and their values. */
  type Body = map<string, Json>

  /** `body[key]` as an attribute of an update: left out, null, or a value. */
  function BodyField(body: Body, key: string): (f: Field<string>)
    ensures key !in body ==> f.Absent?
    ensures key in body && body[key].JNull? ==> f.Null?
    ensures key in body && body[key].JStr? ==> f == Given(body[key].s)
  {
    if key !in body then Absent
    else match body[key]
      case JNull => Null
      case JStr(s) => Given(s)
  }

  /** `body[key]` read as an optional string: absent and null are both `None`. */
  function BodyText(body: Body, key: string): (r: Option<string>)
    ensures r.Some? <==> key in body && body[key].JStr?
    ensures r.Some? ==> r.value == body[key].s
  {
    if key in body && body[key].JStr? then Some(body[key].s) else None
  }
}
