/**
 * The runtime scope: the values and headers a request carries, kept apart per asynchronous context, and the
 * text that takes them over a hop. Its texts are strings of UTF-16 code units, as in Json.
 */
module Scope {
  import opened Common
  import opened Json
  import opened Records

  const MAX_SCOPE_VALUE_LENGTH := 256

  const TRACE_ID := Ascii("traceId")
  const VALUES := Ascii("values")
  const HEADERS := Ascii("headers")
  const TRACE_HEADER := Ascii("X-Trace-Id")

  /** A scope value may be left undefined. */
  type Values = Record<Option<Str>>
  type Headers = Record<Str>

  datatype ScopeState = ScopeState(scope: Option<Values>, headers: Headers)

  const NO_SCOPE := ScopeState(None, [])

  ghost predicate WellFormed(s: ScopeState) {
    (s.scope.Some? ==> DistinctKeys(s.scope.value)) && DistinctKeys(s.headers)
  }

  function Truncate(s: Str): Str {
    if |s| <= MAX_SCOPE_VALUE_LENGTH then s else s[..MAX_SCOPE_VALUE_LENGTH]
  }

  // ---------------------------------------------------------------------------------
  // Export

  /** The defined properties, which are the ones a JSON text keeps. */
  function Defined(values: Values): Record<Str> {
    if values == [] then []
    else if values[0].value.None? then Defined(values[1..])
    else [Pair(values[0].key, values[0].value.value)] + Defined(values[1..])
  }

  function Members(r: Record<Str>): seq<Member> {
    seq(|r|, i requires 0 <= i < |r| => Member(r[i].key, Text(r[i].value)))
  }

  function ExportedValues(s: ScopeState): Record<Str> {
    Defined(Put(if s.scope.Some? then s.scope.value else [], TRACE_ID, None))
  }

  function ExportedJson(s: ScopeState): Json {
    Object([Member(VALUES, Object(Members(ExportedValues(s)))), Member(HEADERS, Object(Members(s.headers)))])
  }

  /** The scope as a text, or nothing when it has no value besides its trace id. */
  function ExportScope(s: ScopeState): Option<Str> {
    if ExportedValues(s) == [] then None else Some(Stringify(ExportedJson(s)))
  }

  // ---------------------------------------------------------------------------------
  // Import

  function TextMembers(members: seq<Member>): Record<Str> {
    if members == [] then []
    else if !members[0].value.Text? then TextMembers(members[1..])
    else [Pair(members[0].key, members[0].value.chars)] + TextMembers(members[1..])
  }

  /** A list has its indices for keys. */
  function Indexed(items: seq<Json>): seq<Member> {
    seq(|items|, i requires 0 <= i < |items| => Member(Decimal(i), items[i]))
  }

  /** The text properties of an object or a list, and none of anything else. */
  function StringRecord(input: Option<Json>): Record<Str> {
    if input.None? then [] else
      match input.value
      case Object(members) => TextMembers(members)
      case Array(items) => TextMembers(Indexed(items))
      case _ => []
  }

  function Property(v: Json, key: Str): Option<Json> {
    if v.Object? && Find(v.members, key) < |v.members| then Some(v.members[Find(v.members, key)].value) else None
  }

  datatype Payload = Payload(values: Record<Str>, headers: Headers)

  /** A missing or malformed text, or one that is `null`, is an empty payload. */
  function ParseScope(raw: Option<Str>): Payload {
    var json := Parse(if raw.Some? then raw.value else []);
    if json.None? then Payload([], [])
    else Payload(StringRecord(Property(json.value, VALUES)), StringRecord(Property(json.value, HEADERS)))
  }

  /** The declared values, truncated. */
  function Declared(headers: Headers, values: Record<Str>): Record<Str> {
    if headers == [] then []
    else
      var rest, key := Declared(headers[..|headers| - 1], values), headers[|headers| - 1].key;
      if Has(values, key) then Assign(rest, key, Truncate(Get(values, key))) else rest
  }

  function AsValues(r: Record<Str>): Values {
    seq(|r|, i requires 0 <= i < |r| => Pair(r[i].key, Some(r[i].value)))
  }

  function ImportedState(traceId: Str, raw: Option<Str>): ScopeState {
    var Payload(values, headers) := ParseScope(raw);
    ScopeState(Some(AsValues(Put(Declared(headers, values), TRACE_ID, traceId))), headers)
  }

  // ---------------------------------------------------------------------------------
  // Request headers

  /** The names every plain object answers to without having them. */
  predicate IsInherited(key: Str) {
    exists i :: 0 <= i < |INHERITED| && key == Ascii(INHERITED[i])
  }

  datatype HeaderValue = Own(text: Str) | Inherited(name: Str)

  /** `scope?.[key]` */
  function Read(scope: Option<Values>, key: Str): Option<HeaderValue> {
    if scope.None? then None
    else if Has(scope.value, key) then
      if Get(scope.value, key).Some? then Some(Own(Get(scope.value, key).value)) else None
    else if IsInherited(key) then Some(Inherited(key))
    else None
  }

  function Forwarded(scope: Option<Values>, headers: Headers, sent: Record<HeaderValue>): Record<HeaderValue> {
    if headers == [] then sent
    else
      var value := Read(scope, headers[0].key);
      Forwarded(scope, headers[1..], if value.Some? then Assign(sent, headers[0].value, value.value) else sent)
  }

  /** The headers that forward a scope; `madeUp` stands for the trace id made up when there is none. */
  function RequestHeaders(s: ScopeState, madeUp: Str): Record<HeaderValue> {
    var traceId := Read(s.scope, TRACE_ID);
    Forwarded(s.scope, s.headers, [Pair(TRACE_HEADER, if traceId.Some? then traceId.value else Own(madeUp))])
  }
}
