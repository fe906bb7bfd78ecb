/** What a scope becomes when it is exported, sent and imported, once or any number of times. */
module ScopeHops {
  import opened Common
  import opened Json
  import opened JsonRoundTrip
  import opened JsonTexts
  import opened Records
  import opened Scope

  /** One hop under the trace id `traceId`. */
  function Hop(s: ScopeState, traceId: Str): ScopeState {
    ImportedState(traceId, ExportScope(s))
  }

  function Hops(s: ScopeState, traceId: Str, n: nat): ScopeState {
    if n == 0 then s else Hop(Hops(s, traceId, n - 1), traceId)
  }

  predicate IsDeclared(s: ScopeState, key: Str) {
    Has(s.headers, key)
  }

  /** The text a scope has for a key. */
  function Value(s: ScopeState, key: Str): Option<Str> {
    if s.scope.Some? && Has(s.scope.value, key) then Get(s.scope.value, key) else None
  }

  // ---------------------------------------------------------------------------------
  // Export

  /** What is exported of a key: its value, if it is defined. */
  lemma {:induction false} DefinedHas(values: Values, key: Str)
    requires DistinctKeys(values)
    ensures DistinctKeys(Defined(values))
    ensures Has(Defined(values), key) <==> Has(values, key) && Get(values, key).Some?
    ensures Has(Defined(values), key) ==> Some(Get(Defined(values), key)) == Get(values, key)
    ensures forall i :: 0 <= i < |Defined(values)| ==> Has(values, Defined(values)[i].key)
  {
    if values != [] {
      var d, r := Defined(values), Defined(values[1..]);
      DefinedHas(values[1..], key);
      DefinedStep(values, r);
      HasCons(values, key);
      if values[0].value.Some? {
        assert d[0] == Pair(values[0].key, values[0].value.value) && d[1..] == r;
        HasCons(d, key);
      }
      hide DistinctKeys, Has, Get, IndexOf;
    }
  }

  lemma DefinedStep(values: Values, r: Record<Str>)
    requires values != [] && DistinctKeys(values) && DistinctKeys(r)
    requires forall i :: 0 <= i < |r| ==> Has(values[1..], r[i].key)
    ensures values[0].value.Some? ==> DistinctKeys([Pair(values[0].key, values[0].value.value)] + r)
    ensures forall i :: 0 <= i < |r| ==> Has(values, r[i].key) && r[i].key != values[0].key
    ensures Has(values, values[0].key) && !Has(r, values[0].key)
  {
    var rest := values[1..];
    forall i | 0 <= i < |r|
      ensures Has(values, r[i].key) && r[i].key != values[0].key
    {
      var k := IndexOf(rest, r[i].key);
      assert rest[k] == values[k + 1];
      HasKey(values, r[i].key, k + 1);
    }
  }

  lemma {:induction false} TextMembersOf(r: Record<Str>)
    ensures TextMembers(Members(r)) == r
  {
    if r != [] {
      assert Members(r)[1..] == Members(r[1..]);
      TextMembersOf(r[1..]);
    }
  }

  lemma ExportedIsJson(s: ScopeState)
    requires WellFormed(s)
    ensures IsJson(ExportedJson(s))
  {
    var scope := if s.scope.Some? then s.scope.value else [];
    PutKeeps(scope, TRACE_ID, None);
    DefinedHas(Put(scope, TRACE_ID, None), TRACE_ID);
    assert |VALUES| == 6 && |HEADERS| == 7;
    MembersAreJson(ExportedValues(s));
    MembersAreJson(s.headers);
  }

  lemma MembersAreJson(r: Record<Str>)
    requires DistinctKeys(r)
    ensures IsJson(Object(Members(r)))
  {
  }

  /** The text of an exported scope is read back as it was. */
  lemma ExportIsRead(s: ScopeState)
    requires WellFormed(s)
    ensures ExportScope(s).Some? ==> ParseScope(ExportScope(s)) == Payload(ExportedValues(s), s.headers)
    ensures ExportScope(s).None? ==> ParseScope(ExportScope(s)) == Payload([], []) && ExportedValues(s) == []
  {
    if ExportScope(s).Some? {
      ExportedIsJson(s);
      RoundTrip(ExportedJson(s));
      ExportedProperties(s);
    }
  }

  lemma ExportedProperties(s: ScopeState)
    ensures StringRecord(Property(ExportedJson(s), VALUES)) == ExportedValues(s)
    ensures StringRecord(Property(ExportedJson(s), HEADERS)) == s.headers
  {
    var values, headers := Object(Members(ExportedValues(s))), Object(Members(s.headers));
    var members := [Member(VALUES, values), Member(HEADERS, headers)];
    assert |VALUES| == 6 && |HEADERS| == 7;
    assert members[1..] == [Member(HEADERS, headers)];
    assert Find(members, VALUES) == 0 && Find(members, HEADERS) == 1;
    TextMembersOf(ExportedValues(s));
    TextMembersOf(s.headers);
  }

  // ---------------------------------------------------------------------------------
  // Import

  lemma {:induction false} DeclaredHas(headers: Headers, values: Record<Str>, key: Str)
    ensures DistinctKeys(Declared(headers, values))
    ensures Has(Declared(headers, values), key) <==> Has(headers, key) && Has(values, key) && key != PROTO
    ensures Has(Declared(headers, values), key) ==> Get(Declared(headers, values), key) == Truncate(Get(values, key))
  {
    if headers != [] {
      var rest, last := headers[..|headers| - 1], headers[|headers| - 1];
      var before := Declared(rest, values);
      DeclaredHas(rest, values, key);
      LastKey(headers, key);
      if Has(values, last.key) && last.key != PROTO {
        PutKeeps(before, last.key, Truncate(Get(values, last.key)));
      }
    }
  }

  lemma LastKey<V>(r: Record<V>, key: Str)
    requires r != []
    ensures Has(r, key) <==> Has(r[..|r| - 1], key) || r[|r| - 1].key == key
  {
    var rest := r[..|r| - 1];
    if Has(rest, key) {
      HasKey(r, key, IndexOf(rest, key));
    }
    if r[|r| - 1].key == key {
      HasKey(r, key, |r| - 1);
    }
    if Has(r, key) && r[|r| - 1].key != key {
      HasKey(rest, key, IndexOf(r, key));
    }
  }

  lemma AsValuesHas(r: Record<Str>, key: Str)
    requires DistinctKeys(r)
    ensures DistinctKeys(AsValues(r))
    ensures Has(AsValues(r), key) <==> Has(r, key)
    ensures Has(r, key) ==> Get(AsValues(r), key) == Some(Get(r, key))
  {
    var v := AsValues(r);
    if Has(r, key) {
      HasKey(v, key, IndexOf(r, key));
    }
    if Has(v, key) {
      HasKey(r, key, IndexOf(v, key));
    }
  }

  /** What an import makes of a payload. */
  lemma ImportedValue(traceId: Str, raw: Option<Str>, key: Str)
    ensures var Payload(values, headers) := ParseScope(raw); var s := ImportedState(traceId, raw);
      && s.headers == headers && s.scope.Some?
      && Value(s, key) ==
           if key == TRACE_ID then Some(traceId)
           else if Has(headers, key) && Has(values, key) && key != PROTO then Some(Truncate(Get(values, key)))
           else None
  {
    var Payload(values, headers) := ParseScope(raw);
    var declared := Declared(headers, values);
    DeclaredHas(headers, values, key);
    PutKeeps(declared, TRACE_ID, traceId);
    AsValuesHas(Put(declared, TRACE_ID, traceId), key);
  }

  /** For any text, malformed ones included: only declared keys and the trace id, cut to length. */
  lemma ImportKeepsToDeclared(traceId: Str, raw: Option<Str>, key: Str)
    ensures var s := ImportedState(traceId, raw);
      && (s.scope.Some? && Has(s.scope.value, key) ==> key == TRACE_ID || IsDeclared(s, key))
      && Value(s, TRACE_ID) == Some(traceId)
      && (key != TRACE_ID && Value(s, key).Some? ==> |Value(s, key).value| <= MAX_SCOPE_VALUE_LENGTH)
  {
    ImportedValue(traceId, raw, key);
    ImportedValue(traceId, raw, TRACE_ID);
    var Payload(values, headers) := ParseScope(raw);
    var declared := Declared(headers, values);
    DeclaredHas(headers, values, key);
    PutKeeps(declared, TRACE_ID, traceId);
    AsValuesHas(Put(declared, TRACE_ID, traceId), key);
  }

  /** The first 256 units of the text, or all of it when it has no more. */
  predicate IsCut(cut: Str, text: Str) {
    cut <= text && |cut| == if |text| < 256 then |text| else 256
  }

  /** A scope is exported, and its headers are kept, just when some value besides the trace id is defined. */
  lemma ExportsValues(s: ScopeState, traceId: Str)
    requires WellFormed(s)
    ensures ExportScope(s).Some? <==> exists key :: key != TRACE_ID && Value(s, key).Some?
    ensures (exists key :: key != TRACE_ID && Value(s, key).Some?) ==> Hop(s, traceId).headers == s.headers
    ensures (forall key :: key != TRACE_ID ==> Value(s, key).None?) ==> Hop(s, traceId).headers == []
  {
    HopRestores(s, traceId, TRACE_ID);
    if key :| key != TRACE_ID && Value(s, key).Some? {
      HopRestores(s, traceId, key);
    }
    if ExportScope(s).Some? {
      var scope := if s.scope.Some? then s.scope.value else [];
      var key := ExportedValues(s)[0].key;
      PutKeeps(scope, TRACE_ID, None);
      DefinedHas(Put(scope, TRACE_ID, None), key);
      HasKey(ExportedValues(s), key, 0);
      assert key != TRACE_ID && Value(s, key).Some?;
    }
  }

  // What a payload holds

  /** A text property of the object or the list, whose keys are its indices. */
  ghost predicate HasText(v: Json, key: Str, text: Str) {
    || (v.Object? && exists i :: 0 <= i < |v.members| && v.members[i] == Member(key, Text(text)))
    || (v.Array? && exists i :: 0 <= i < |v.items| && key == Decimal(i) && v.items[i] == Text(text))
  }

  lemma {:induction false} TextMembersAre(members: seq<Member>, p: Pair<Str>)
    ensures p in TextMembers(members) <==>
      exists i :: 0 <= i < |members| && members[i] == Member(p.key, Text(p.value))
  {
    if members != [] {
      TextMembersAre(members[1..], p);
      if i :| 0 <= i < |members| && members[i] == Member(p.key, Text(p.value)) {
        assert i > 0 ==> members[1..][i - 1] == members[i];
      }
      if i :| 0 <= i < |members[1..]| && members[1..][i] == Member(p.key, Text(p.value)) {
        assert members[i + 1] == Member(p.key, Text(p.value));
      }
    }
  }

  /** Of an object or a list the text properties are taken over, and of anything else nothing. */
  lemma StringRecordIs(v: Json, p: Pair<Str>)
    ensures p in StringRecord(Some(v)) <==> HasText(v, p.key, p.value)
    ensures StringRecord(None) == []
  {
    if v.Object? {
      TextMembersAre(v.members, p);
    } else if v.Array? {
      TextMembersAre(Indexed(v.items), p);
      if i :| 0 <= i < |v.items| && p.key == Decimal(i) && v.items[i] == Text(p.value) {
        assert Indexed(v.items)[i] == Member(p.key, Text(p.value));
      }
      if i :| 0 <= i < |Indexed(v.items)| && Indexed(v.items)[i] == Member(p.key, Text(p.value)) {
        assert p.key == Decimal(i) && v.items[i] == Text(p.value);
      }
    }
  }

  ghost predicate IsPropertyOf(v: Json, key: Str, value: Json) {
    v.Object? && exists i :: 0 <= i < |v.members| && v.members[i] == Member(key, value)
  }

  lemma PropertyIs(v: Json, key: Str, value: Json)
    requires HasDistinctKeys(v)
    ensures Property(v, key) == Some(value) <==> IsPropertyOf(v, key, value)
  {
    if v.Object? {
      var k := Find(v.members, key);
      if i :| 0 <= i < |v.members| && v.members[i] == Member(key, value) {
        assert k == i;
      }
      if k < |v.members| && v.members[k].value == value {
        assert v.members[k] == Member(key, value);
      }
    }
  }

  /**
   * What an import reads from a text: the text properties of the object under `values` and of the one under `headers`.
   * A text that is no JSON, or lacks one of them, has none.
   */
  lemma PayloadIs(raw: Str, v: Json, p: Pair<Str>)
    requires Parse(raw) == Some(v)
    ensures p in ParseScope(Some(raw)).values <==>
      exists u :: IsPropertyOf(v, Ascii("values"), u) && HasText(u, p.key, p.value)
    ensures p in ParseScope(Some(raw)).headers <==>
      exists u :: IsPropertyOf(v, Ascii("headers"), u) && HasText(u, p.key, p.value)
  {
    ParsedIsDistinct(raw);
    PropertyText(v, VALUES, p);
    PropertyText(v, HEADERS, p);
    hide Property, StringRecord, HasText, IsPropertyOf;
  }

  lemma PropertyText(v: Json, key: Str, p: Pair<Str>)
    requires HasDistinctKeys(v)
    ensures p in StringRecord(Property(v, key)) <==> exists u :: IsPropertyOf(v, key, u) && HasText(u, p.key, p.value)
  {
    if Property(v, key).Some? {
      var u := Property(v, key).value;
      PropertyIs(v, key, u);
      StringRecordIs(u, p);
    }
    if u :| IsPropertyOf(v, key, u) && HasText(u, p.key, p.value) {
      PropertyIs(v, key, u);
      StringRecordIs(u, p);
    }
  }

  lemma NoPayload(raw: Option<Str>)
    requires raw.None? || Parse(raw.value).None?
    ensures ParseScope(raw) == Payload([], [])
  {
    if raw.None? {
      assert Parse([]).None?;
    }
  }

  /**
   * A hop restores every declared, defined value, cut to length, under the new trace id, and nothing else.
   * The one key it cannot restore is `__proto__`. The headers are kept whenever a value besides the trace id is.
   */
  lemma HopRestores(s: ScopeState, traceId: Str, key: Str)
    requires WellFormed(s)
    ensures Value(Hop(s, traceId), key) ==
              if key == TRACE_ID then Some(traceId)
              else if IsDeclared(s, key) && Value(s, key).Some? && key != PROTO then Some(Truncate(Value(s, key).value))
              else None
    ensures key != TRACE_ID && key != PROTO && IsDeclared(s, key) && Value(s, key).Some? ==>
      Value(Hop(s, traceId), key).Some? && IsCut(Value(Hop(s, traceId), key).value, Value(s, key).value)
    ensures Hop(s, traceId).headers == if ExportScope(s).Some? then s.headers else []
    ensures key != TRACE_ID && Value(s, key).Some? ==> ExportScope(s).Some?
  {
    var scope := if s.scope.Some? then s.scope.value else [];
    ExportIsRead(s);
    ImportedValue(traceId, ExportScope(s), key);
    PutKeeps(scope, TRACE_ID, None);
    DefinedHas(Put(scope, TRACE_ID, None), key);
  }

  // ---------------------------------------------------------------------------------
  // Any number of hops

  /** A state as a hop leaves it: declared values in the order of the headers, and the trace id. */
  ghost predicate Settled(s: ScopeState, traceId: Str, v: Record<Str>) {
    && DistinctKeys(s.headers) && !Has(v, TRACE_ID)
    && v == Declared(s.headers, v)
    && s.scope == Some(AsValues(v + [Pair(TRACE_ID, traceId)]))
  }

  lemma TraceIdComesLast(headers: Headers, values: Record<Str>, traceId: Str)
    requires !Has(values, TRACE_ID)
    ensures !Has(Declared(headers, values), TRACE_ID)
    ensures Put(Declared(headers, values), TRACE_ID, traceId) == Declared(headers, values) + [Pair(TRACE_ID, traceId)]
  {
    DeclaredHas(headers, values, TRACE_ID);
  }

  /** The trace id is not exported. */
  lemma TraceIdStays(s: ScopeState)
    requires WellFormed(s)
    ensures !Has(ExportedValues(s), TRACE_ID)
  {
    var values := if s.scope.Some? then s.scope.value else [];
    PutKeeps(values, TRACE_ID, None);
    DefinedHas(Put(values, TRACE_ID, None), TRACE_ID);
  }

  lemma {:induction false} DeclaredAgain(headers: Headers, all: Headers, values: Record<Str>)
    requires headers <= all
    ensures Declared(headers, Declared(all, values)) == Declared(headers, values)
  {
    if headers != [] {
      var rest, last := headers[..|headers| - 1], headers[|headers| - 1];
      DeclaredAgain(rest, all, values);
      DeclaredHas(all, values, last.key);
      HasKey(all, last.key, |headers| - 1);
      assert forall x: Str :: Truncate(Truncate(x)) == Truncate(x);
    }
  }

  lemma HopSettles(s: ScopeState, traceId: Str) returns (v: Record<Str>)
    requires WellFormed(s)
    ensures Settled(Hop(s, traceId), traceId, v)
  {
    ExportIsRead(s);
    TraceIdStays(s);
    var Payload(values, headers) := ParseScope(ExportScope(s));
    v := Declared(headers, values);
    DeclaredAgain(headers, headers, values);
    TraceIdComesLast(headers, values, traceId);
  }

  lemma {:induction false} DefinedAsValues(v: Record<Str>)
    ensures Defined(AsValues(v) + [Pair(TRACE_ID, None)]) == v
  {
    if v == [] {
      assert AsValues(v) + [Pair(TRACE_ID, None)] == [Pair(TRACE_ID, None)];
    } else {
      DefinedAsValues(v[1..]);
      assert (AsValues(v) + [Pair(TRACE_ID, None)])[1..] == AsValues(v[1..]) + [Pair(TRACE_ID, None)];
    }
  }

  lemma SettledExports(s: ScopeState, traceId: Str, v: Record<Str>)
    requires Settled(s, traceId, v)
    ensures WellFormed(s) && ExportedValues(s) == v
  {
    TraceIdComesLast(s.headers, v, traceId);
    DeclaredHas(s.headers, v, TRACE_ID);
    hide Declared;
    TraceIdIsAppended(v, traceId);
    assert s.scope.value == AsValues(v + [Pair(TRACE_ID, traceId)]);
    DefinedAsValues(v);
  }

  lemma TraceIdIsAppended(v: Record<Str>, traceId: Str)
    requires DistinctKeys(v) && !Has(v, TRACE_ID)
    ensures var scope := AsValues(v + [Pair(TRACE_ID, traceId)]);
      && DistinctKeys(scope)
      && Put(scope, TRACE_ID, None) == AsValues(v) + [Pair(TRACE_ID, None)]
  {
    var scope := AsValues(v + [Pair(TRACE_ID, traceId)]);
    forall i | 0 <= i < |v|
      ensures scope[i].key == v[i].key != TRACE_ID
    {
      HasKey(v, v[i].key, i);
    }
    assert scope[|v|].key == TRACE_ID;
    assert IndexOf(scope, TRACE_ID) == |v|;
  }

  /** Nothing is forwarded but the trace id. */
  predicate OnlyTraceId(s: ScopeState, traceId: Str, madeUp: Str) {
    RequestHeaders(s, madeUp) == [Pair(TRACE_HEADER, Own(traceId))]
  }

  /** With a declared value a hop changes nothing; without one it drops the headers. */
  lemma HopKeepsSettled(s: ScopeState, traceId: Str, v: Record<Str>, madeUp: Str)
    requires Settled(s, traceId, v)
    ensures var s' := Hop(s, traceId);
      && Settled(s', traceId, v) && s'.scope == s.scope
      && (v != [] ==> s' == s)
      && (v == [] ==> OnlyTraceId(s', traceId, madeUp))
  {
    SettledExports(s, traceId, v);
    ExportIsRead(s);
    var s' := Hop(s, traceId);
    if v == [] {
      var scope := AsValues([Pair(TRACE_ID, traceId)]);
      assert v + [Pair(TRACE_ID, traceId)] == [Pair(TRACE_ID, traceId)];
      assert Put([], TRACE_ID, traceId) == [Pair(TRACE_ID, traceId)];
      assert s'.headers == [] && s'.scope == Some(scope) == s.scope;
      HasKey(scope, TRACE_ID, 0);
    } else {
      TraceIdComesLast(s.headers, v, traceId);
      assert s' == s;
    }
  }

  /** After the first hop, further ones keep everything if there are values and drop the headers if there are none. */
  lemma {:induction false} SettledHops(s: ScopeState, traceId: Str, n: nat, madeUp: Str) returns (v: Record<Str>)
    requires WellFormed(s) && n >= 1
    ensures Settled(Hops(s, traceId, 1), traceId, v) && Settled(Hops(s, traceId, n), traceId, v)
    ensures Hops(s, traceId, n).scope == Hops(s, traceId, 1).scope
    ensures n > 1 ==> (RequestHeaders(Hops(s, traceId, n), madeUp) == RequestHeaders(Hops(s, traceId, 1), madeUp) <==>
                       v != [] || OnlyTraceId(Hops(s, traceId, 1), traceId, madeUp))
    ensures n > 1 && v == [] ==> OnlyTraceId(Hops(s, traceId, n), traceId, madeUp)
    ensures v != [] ==> Hops(s, traceId, n) == Hops(s, traceId, 1)
  {
    hide Settled;
    hide Hop;
    hide RequestHeaders;
    hide WellFormed;
    if n == 1 {
      v := HopSettles(s, traceId);
      assert Hops(s, traceId, 0) == s;
    } else {
      v := SettledHops(s, traceId, n - 1, madeUp);
      HopKeepsSettled(Hops(s, traceId, n - 1), traceId, v, madeUp);
    }
  }

  // ---------------------------------------------------------------------------------
  // When the forwarded headers are stable

  /** A declared key has a value that a hop can restore. */
  ghost predicate HasDeclaredValue(s: ScopeState) {
    exists key :: IsDeclared(s, key) && key != TRACE_ID && key != PROTO && Value(s, key).Some?
  }

  /** A key that answers without a value of its own: the trace id, or a name every object answers to. */
  predicate AlwaysAnswers(key: Str) {
    key == TRACE_ID || IsInherited(key)
  }

  /** The entry writes the trace header. */
  predicate WritesTrace(p: Pair<Str>) {
    AlwaysAnswers(p.key) && p.value == TRACE_HEADER
  }

  /**
   * The keys that always answer forward nothing but the trace id: each is declared under the trace header, or
   * under `__proto__`, and the last one under the trace header is the trace id.
   */
  ghost predicate TraceIdAlone(headers: Headers) {
    && OnlyTraceHeaders(headers)
    && (forall i :: 0 <= i < |headers| && WritesTrace(headers[i]) && IsLastTrace(headers, i) ==>
          headers[i].key == TRACE_ID)
  }

  ghost predicate IsLastTrace(headers: Headers, i: nat) {
    forall j :: i < j < |headers| ==> !WritesTrace(headers[j])
  }

  /** What is written to the trace header when only the trace id has a value. */
  function Written(traceId: Str, key: Str): HeaderValue {
    if key == TRACE_ID then Own(traceId) else Inherited(key)
  }

  function LastWritten(traceId: Str, headers: Headers, w: HeaderValue): HeaderValue {
    if headers == [] then w
    else LastWritten(traceId, headers[1..], if WritesTrace(headers[0]) then Written(traceId, headers[0].key) else w)
  }

  ghost predicate OnlyTraceHeaders(headers: Headers) {
    forall i :: 0 <= i < |headers| && AlwaysAnswers(headers[i].key) ==>
      headers[i].value == TRACE_HEADER || headers[i].value == PROTO
  }

  lemma ReadsTraceId(traceId: Str, key: Str)
    ensures var scope: Values := [Pair(TRACE_ID, Some(traceId))];
      Read(Some(scope), key) == if AlwaysAnswers(key) then Some(Written(traceId, key)) else None
  {
    var scope: Values := [Pair(TRACE_ID, Some(traceId))];
    assert scope[1..] == [];
  }

  lemma AssignTrace(w: HeaderValue, w': HeaderValue, header: Str)
    ensures var sent := [Pair(TRACE_HEADER, w)];
      && (header == TRACE_HEADER ==> Assign(sent, header, w') == [Pair(TRACE_HEADER, w')])
      && (header == PROTO ==> Assign(sent, header, w') == sent)
      && (header != TRACE_HEADER && header != PROTO ==> Has(Assign(sent, header, w'), header))
  {
    var sent := [Pair(TRACE_HEADER, w)];
    TraceHeaderIsPlain();
    assert sent[1..] == [];
    if header != PROTO {
      HasKey(Put(sent, header, w'), header, IndexOf(sent, header));
    }
  }

  lemma TraceHeaderIsPlain()
    ensures TRACE_HEADER != PROTO
  {
    assert TRACE_HEADER[0] == 'X' as int && PROTO[0] == '_' as int;
  }

  lemma {:induction false} ForwardedKeeps(
    scope: Option<Values>, headers: Headers, sent: Record<HeaderValue>, header: Str
  )
    requires Has(sent, header)
    ensures Has(Forwarded(scope, headers, sent), header)
  {
    if headers != [] {
      var value := Read(scope, headers[0].key);
      var next := if value.Some? then Assign(sent, headers[0].value, value.value) else sent;
      var i := IndexOf(sent, header);
      assert next[i].key == header;
      HasKey(next, header, i);
      ForwardedKeeps(scope, headers[1..], next, header);
    }
  }

  /** With the trace id alone as a value, the headers come out as they went in but for the last trace written. */
  lemma {:induction false} ForwardedTrace(traceId: Str, headers: Headers, w: HeaderValue)
    ensures var scope: Values := [Pair(TRACE_ID, Some(traceId))];
            var sent := Forwarded(Some(scope), headers, [Pair(TRACE_HEADER, w)]);
      && (OnlyTraceHeaders(headers) ==> sent == [Pair(TRACE_HEADER, LastWritten(traceId, headers, w))])
      && (!OnlyTraceHeaders(headers) ==> forall w' :: sent != [Pair(TRACE_HEADER, w')])
  {
    if headers != [] {
      var scope: Values := [Pair(TRACE_ID, Some(traceId))];
      var key, header, rest := headers[0].key, headers[0].value, headers[1..];
      assert OnlyTraceHeaders(headers) <==>
        (AlwaysAnswers(key) ==> header == TRACE_HEADER || header == PROTO) && OnlyTraceHeaders(rest) by {
        assert forall i :: 0 <= i < |rest| ==> rest[i] == headers[i + 1];
        assert forall i :: 0 < i < |headers| ==> headers[i] == rest[i - 1];
      }
      ReadsTraceId(traceId, key);
      var written := Written(traceId, key);
      AssignTrace(w, written, header);
      TraceHeaderIsPlain();
      if AlwaysAnswers(key) && header != TRACE_HEADER && header != PROTO {
        var sent := Assign([Pair(TRACE_HEADER, w)], header, written);
        ForwardedKeeps(Some(scope), rest, sent, header);
        NotBare(Forwarded(Some(scope), rest, sent), header);
      } else {
        ForwardedTrace(traceId, rest, if WritesTrace(headers[0]) then written else w);
      }
    }
  }

  lemma NotBare(sent: Record<HeaderValue>, header: Str)
    requires Has(sent, header) && header != TRACE_HEADER
    ensures forall w :: sent != [Pair(TRACE_HEADER, w)]
  {
    forall w
      ensures sent != [Pair(TRACE_HEADER, w)]
    {
      var bare := [Pair(TRACE_HEADER, w)];
      assert bare[1..] == [];
    }
  }

  lemma {:induction false} LastWrittenIs(traceId: Str, headers: Headers, w: HeaderValue)
    ensures (forall i :: 0 <= i < |headers| ==> !WritesTrace(headers[i])) ==> LastWritten(traceId, headers, w) == w
    ensures forall i :: 0 <= i < |headers| && WritesTrace(headers[i]) && IsLastTrace(headers, i) ==>
      LastWritten(traceId, headers, w) == Written(traceId, headers[i].key)
    ensures (forall i :: 0 <= i < |headers| ==> !WritesTrace(headers[i])) ||
            (exists i :: 0 <= i < |headers| && WritesTrace(headers[i]) && IsLastTrace(headers, i))
  {
    if headers != [] {
      var rest := headers[1..];
      LastWrittenIs(traceId, rest, if WritesTrace(headers[0]) then Written(traceId, headers[0].key) else w);
      assert forall i :: 0 < i < |headers| ==> headers[i] == rest[i - 1];
      hide WritesTrace;
      forall i | 0 < i < |headers|
        ensures IsLastTrace(headers, i) <==> IsLastTrace(rest, i - 1)
      {
        LastInRest(headers, i);
      }
      if i :| 0 <= i < |rest| && WritesTrace(rest[i]) && IsLastTrace(rest, i) {
        assert IsLastTrace(headers, i + 1);
      } else if WritesTrace(headers[0]) {
        assert IsLastTrace(headers, 0);
      }
    }
  }

  lemma LastInRest(headers: Headers, i: nat)
    requires 0 < i < |headers|
    ensures IsLastTrace(headers, i) <==> IsLastTrace(headers[1..], i - 1)
  {
    hide WritesTrace;
    var rest := headers[1..];
    assert forall j :: i < j < |headers| ==> headers[j] == rest[j - 1];
    assert forall j :: i - 1 < j < |rest| ==> rest[j] == headers[j + 1];
  }

  lemma SettledIsBare(s: ScopeState, traceId: Str)
    requires Settled(s, traceId, [])
    ensures s.scope == Some([Pair(TRACE_ID, Some(traceId))])
  {
    assert [] + [Pair(TRACE_ID, traceId)] == [Pair(TRACE_ID, traceId)];
    assert AsValues([Pair(TRACE_ID, traceId)]) == [Pair(TRACE_ID, Some(traceId))];
  }

  lemma SettledForwards(s: ScopeState, traceId: Str, madeUp: Str)
    requires s.scope == Some([Pair(TRACE_ID, Some(traceId))])
    ensures OnlyTraceId(s, traceId, madeUp) <==> TraceIdAlone(s.headers)
  {
    ReadsTraceId(traceId, TRACE_ID);
    ForwardedTrace(traceId, s.headers, Own(traceId));
    LastWrittenIs(traceId, s.headers, Own(traceId));
  }

  /** The first hop restores a value just when a declared key has one. */
  lemma RestoredIsDeclared(s: ScopeState, traceId: Str, v: Record<Str>)
    requires WellFormed(s) && Settled(Hop(s, traceId), traceId, v)
    ensures v != [] <==> HasDeclaredValue(s)
  {
    var first := Hop(s, traceId);
    hide Hop, WellFormed;
    if v != [] {
      RestoredFirst(first, traceId, v);
      hide Settled;
      HopRestores(s, traceId, v[0].key);
    }
    if HasDeclaredValue(s) {
      var key :| IsDeclared(s, key) && key != TRACE_ID && key != PROTO && Value(s, key).Some?;
      HopRestores(s, traceId, key);
      if v == [] {
        SettledHasOnlyTraceId(first, traceId, key);
      }
    }
  }

  lemma RestoredFirst(s: ScopeState, traceId: Str, v: Record<Str>)
    requires Settled(s, traceId, v) && v != []
    ensures Value(s, v[0].key).Some? && v[0].key != TRACE_ID
  {
    var all := v + [Pair(TRACE_ID, traceId)];
    HasKey(v, v[0].key, 0);
    hide Declared;
    assert AsValues(all)[0] == Pair(v[0].key, Some(v[0].value));
  }

  lemma SettledHasOnlyTraceId(s: ScopeState, traceId: Str, key: Str)
    requires Settled(s, traceId, []) && key != TRACE_ID
    ensures Value(s, key).None?
  {
    SettledIsBare(s, traceId);
    hide Settled;
    var bare: Values := [Pair(TRACE_ID, Some(traceId))];
    assert bare[1..] == [];
  }

  /**
   * After any number of hops the values are those of the first hop. The forwarded headers are too if and only if
   * nothing is exported at first, or a declared key has a value to restore, or the keys that always answer forward
   * nothing but the trace id.
   */
  lemma HopsAreStable(s: ScopeState, traceId: Str, n: nat, madeUp: Str)
    requires WellFormed(s) && n > 1
    ensures Hops(s, traceId, n).scope == Hops(s, traceId, 1).scope
    ensures RequestHeaders(Hops(s, traceId, n), madeUp) == RequestHeaders(Hops(s, traceId, 1), madeUp) <==>
      ExportScope(s).None? || HasDeclaredValue(s) || TraceIdAlone(s.headers)
  {
    var first := Hop(s, traceId);
    assert Hops(s, traceId, 0) == s && Hops(s, traceId, 1) == first;
    assert TraceIdAlone([]);
    hide Hop, Hops, RequestHeaders, ExportScope, WellFormed, Settled, HasDeclaredValue, TraceIdAlone;
    HopRestores(s, traceId, TRACE_ID);
    var v := SettledHops(s, traceId, n, madeUp);
    RestoredIsDeclared(s, traceId, v);
    if v == [] {
      SettledIsBare(first, traceId);
      SettledForwards(first, traceId, madeUp);
    }
  }

  /** Neither the trace id nor a name every object answers to is a declared key. */
  ghost predicate PlainKeys(headers: Headers) {
    forall i :: 0 <= i < |headers| ==> !AlwaysAnswers(headers[i].key)
  }

  /** So with plain keys alone the forwarded headers are stable from the first hop on. */
  lemma PlainHopsAreStable(s: ScopeState, traceId: Str, n: nat, madeUp: Str)
    requires WellFormed(s) && PlainKeys(s.headers) && n >= 1
    ensures Hops(s, traceId, n).scope == Hops(s, traceId, 1).scope
    ensures RequestHeaders(Hops(s, traceId, n), madeUp) == RequestHeaders(Hops(s, traceId, 1), madeUp)
  {
    if n > 1 {
      HopsAreStable(s, traceId, n, madeUp);
    }
  }

  /**
   * A declared trace id is one that is not stable: with a value that is not declared beside it, the first hop
   * forwards it under its declared header and the second does not.
   */
  lemma DeclaredTraceIdIsNotStable(header: Str, other: Str, text: Str, traceId: Str, madeUp: Str)
    requires header != TRACE_HEADER && header != PROTO && other != TRACE_ID
    ensures var s := ScopeState(Some([Pair(other, Some(text))]), [Pair(TRACE_ID, header)]);
      WellFormed(s) && RequestHeaders(Hops(s, traceId, 2), madeUp) != RequestHeaders(Hops(s, traceId, 1), madeUp)
  {
    var s := ScopeState(Some([Pair(other, Some(text))]), [Pair(TRACE_ID, header)]);
    ExportsOther(s, other, text);
    HopsAreStable(s, traceId, 2, madeUp);
    assert s.headers[0].key == TRACE_ID && s.headers[1..] == [];
    forall key | IsDeclared(s, key)
      ensures key == TRACE_ID
    {
    }
    hide RequestHeaders, Hops;
  }

  lemma ExportsOther(s: ScopeState, other: Str, text: Str)
    requires s.scope == Some([Pair(other, Some(text))]) && other != TRACE_ID
    ensures ExportedValues(s) == [Pair(other, text)]
  {
    var values: Values := [Pair(other, Some(text))];
    assert values[1..] == [];
    assert Put(values, TRACE_ID, None) == values + [Pair(TRACE_ID, None)];
    var put: Values := values + [Pair(TRACE_ID, None)];
    var rest: Values := put[1..];
    assert rest == [Pair(TRACE_ID, None)] && rest[1..] == [];
    assert Defined(rest) == [];
    assert Defined(put) == [Pair(other, text)];
  }

  // ---------------------------------------------------------------------------------
  // What is forwarded

  /** What a key is read as: the text of its value, or the name itself when every object answers to it. */
  ghost predicate IsRead(s: ScopeState, key: Str, value: HeaderValue) {
    && s.scope.Some?
    && if Has(s.scope.value, key) then Value(s, key).Some? && value == Own(Value(s, key).value)
       else IsInherited(key) && value == Inherited(key)
  }

  /** The last key declared for the header that is read as something, and what it is read as. */
  ghost predicate IsLastFor(s: ScopeState, headers: Headers, header: Str, i: nat, value: HeaderValue) {
    && i < |headers| && headers[i].value == header && IsRead(s, headers[i].key, value)
    && forall j, w :: i < j < |headers| && headers[j].value == header ==> !IsRead(s, headers[j].key, w)
  }

  lemma ReadIs(s: ScopeState, key: Str, value: HeaderValue)
    ensures Read(s.scope, key) == Some(value) <==> IsRead(s, key, value)
  {
  }

  function SentWith(scope: Option<Values>, sent: Record<HeaderValue>, p: Pair<Str>): Record<HeaderValue> {
    if Read(scope, p.key).Some? then Assign(sent, p.value, Read(scope, p.key).value) else sent
  }

  lemma {:induction false} ForwardedLast(scope: Option<Values>, headers: Headers, sent: Record<HeaderValue>)
    requires headers != []
    ensures Forwarded(scope, headers, sent) ==
      SentWith(scope, Forwarded(scope, headers[..|headers| - 1], sent), headers[|headers| - 1])
  {
    var init := headers[..|headers| - 1];
    if init == [] {
      assert headers[1..] == [];
    } else {
      assert headers[1..][..|headers[1..]| - 1] == init[1..];
      ForwardedLast(scope, headers[1..], SentWith(scope, sent, headers[0]));
      hide Read;
    }
  }

  lemma SentIs(s: ScopeState, sent: Record<HeaderValue>, p: Pair<Str>, header: Str)
    requires DistinctKeys(sent) && header != PROTO
    ensures var all := SentWith(s.scope, sent, p);
      && DistinctKeys(all)
      && (forall value :: p.value == header && IsRead(s, p.key, value) ==>
            Has(all, header) && Get(all, header) == value)
      && (p.value != header || Read(s.scope, p.key).None? ==>
            (Has(all, header) <==> Has(sent, header)) && (Has(sent, header) ==> Get(all, header) == Get(sent, header)))
  {
    var value := Read(s.scope, p.key);
    forall w
      ensures value == Some(w) <==> IsRead(s, p.key, w)
    {
      ReadIs(s, p.key, w);
    }
    if value.Some? && p.value != PROTO {
      PutKeeps(sent, p.value, value.value);
    }
    hide IsRead, Read, Has, Get, DistinctKeys, Put;
  }

  /** A header is sent with what the last of its keys is read as, or else as it was sent before. */
  lemma {:induction false} ForwardedIs(s: ScopeState, headers: Headers, sent: Record<HeaderValue>, header: Str)
    requires DistinctKeys(sent) && header != PROTO
    ensures var all := Forwarded(s.scope, headers, sent);
      && DistinctKeys(all)
      && (forall i, value :: IsLastFor(s, headers, header, i, value) ==> Has(all, header) && Get(all, header) == value)
      && ((forall i, value :: !IsLastFor(s, headers, header, i, value)) ==>
            (Has(all, header) <==> Has(sent, header)) && (Has(sent, header) ==> Get(all, header) == Get(sent, header)))
  {
    if headers != [] {
      var init, p := headers[..|headers| - 1], headers[|headers| - 1];
      ForwardedLast(s.scope, headers, sent);
      ForwardedIs(s, init, sent, header);
      SentIs(s, Forwarded(s.scope, init, sent), p, header);
      hide Forwarded, SentWith, Has, Get, DistinctKeys, IsLastFor, Read, IsRead;
      assert init + [p] == headers;
      if p.value == header && Read(s.scope, p.key).Some? {
        var value := Read(s.scope, p.key).value;
        ReadIs(s, p.key, value);
        LastIsLast(s, init, p, value);
      } else {
        forall i: nat, value
          ensures IsLastFor(s, headers, header, i, value) <==> IsLastFor(s, init, header, i, value)
        {
          LastForInit(s, init, p, header, i, value);
        }
      }
    }
  }

  lemma LastIsLast(s: ScopeState, init: Headers, p: Pair<Str>, value: HeaderValue)
    requires IsRead(s, p.key, value)
    ensures IsLastFor(s, init + [p], p.value, |init|, value)
    ensures forall i: nat, w :: IsLastFor(s, init + [p], p.value, i, w) ==> i == |init| && w == value
  {
    var all := init + [p];
    assert all[|init|].value == p.value && IsRead(s, all[|init|].key, value);
    forall i: nat, w | IsLastFor(s, all, p.value, i, w)
      ensures i == |init| && w == value
    {
      ReadIs(s, all[i].key, w);
      ReadIs(s, p.key, value);
    }
  }

  lemma LastForInit(s: ScopeState, init: Headers, p: Pair<Str>, header: Str, i: nat, value: HeaderValue)
    requires p.value != header || Read(s.scope, p.key).None?
    ensures IsLastFor(s, init + [p], header, i, value) <==> IsLastFor(s, init, header, i, value)
  {
    forall w
      ensures Read(s.scope, p.key) == Some(w) <==> IsRead(s, p.key, w)
    {
      ReadIs(s, p.key, w);
    }
    var all := init + [p];
    assert all[|init|] == p && forall j :: 0 <= j < |init| ==> all[j] == init[j];
    hide Read, IsRead;
  }

  /**
   * The headers that forward a scope: the trace id, or one made up when there is none, and each declared header with
   * what the last of its keys is read as.
   */
  lemma RequestHeadersAre(s: ScopeState, madeUp: Str, header: Str)
    requires header != PROTO
    ensures var sent := RequestHeaders(s, madeUp);
      && (forall i, value :: IsLastFor(s, s.headers, header, i, value) ==>
            Has(sent, header) && Get(sent, header) == value)
      && ((forall i, value :: !IsLastFor(s, s.headers, header, i, value)) ==>
            && (Has(sent, header) <==> header == TRACE_HEADER)
            && (header == TRACE_HEADER ==>
                  && (forall value :: IsRead(s, TRACE_ID, value) ==> Get(sent, header) == value)
                  && ((forall value :: !IsRead(s, TRACE_ID, value)) ==> Get(sent, header) == Own(madeUp))))
  {
    var traceId := Read(s.scope, TRACE_ID);
    forall w
      ensures traceId == Some(w) <==> IsRead(s, TRACE_ID, w)
    {
      ReadIs(s, TRACE_ID, w);
    }
    var first := [Pair(TRACE_HEADER, if traceId.Some? then traceId.value else Own(madeUp))];
    assert first[1..] == [] && DistinctKeys(first);
    assert Has(first, header) <==> header == TRACE_HEADER;
    ForwardedIs(s, s.headers, first, header);
    hide Read, IsRead, IsLastFor, Forwarded, DistinctKeys;
  }
}
