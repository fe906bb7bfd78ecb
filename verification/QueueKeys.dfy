/** The keys a queue subscription claims messages and concurrency slots by. */
module QueueKeys {
  import opened Json
  import opened JsonRoundTrip

  type Message = map<Str, Json>

  /** A field the message lacks is written as `null` inside a list. */
  function FieldValue(message: Message, field: Str): Json {
    if field in message then message[field] else Null
  }

  function FieldValues(message: Message, fields: seq<Str>): (values: seq<Json>)
    ensures |values| == |fields|
    ensures forall i :: 0 <= i < |fields| ==> values[i] == FieldValue(message, fields[i])
  {
    if fields == [] then [] else [FieldValue(message, fields[0])] + FieldValues(message, fields[1..])
  }

  function IdempotencyValue(handler: Str, message: Message, fields: seq<Str>): Json {
    Array([Text(handler)] + FieldValues(message, fields))
  }

  function SlotValue(handler: Str, message: Message, fields: seq<Str>, slot: int): Json {
    Object([
      Member(Ascii("handler"), Text(handler)),
      Member(Ascii("key"), Array(FieldValues(message, fields))),
      Member(Ascii("slot"), Number(Decimal(slot)))])
  }

  function IdempotencyKey(handler: Str, message: Message, fields: seq<Str>): Str {
    Stringify(IdempotencyValue(handler, message, fields))
  }

  function ConcurrencySlotKey(handler: Str, message: Message, fields: seq<Str>, slot: int): Str {
    Stringify(SlotValue(handler, message, fields, slot))
  }

  // ---------------------------------------------------------------------------------
  // Integers

  /** What a run of digits counts to. */
  function Count(t: Str): int {
    if t == [] then 0 else Count(t[..|t| - 1]) * 10 + t[|t| - 1] - 0x30
  }

  lemma {:induction false} DecimalCounts(n: nat)
    ensures Decimal(n) != [] && Count(Decimal(n)) == n
    ensures forall i :: 0 <= i < |Decimal(n)| ==> IsDigit(Decimal(n)[i])
    ensures |Decimal(n)| > 1 ==> Decimal(n)[0] != 0x30
    ensures n > 0 ==> Decimal(n)[0] != 0x30
  {
    if n >= 10 {
      DecimalCounts(n / 10);
      var t, rest := Decimal(n), Decimal(n / 10);
      assert t[..|t| - 1] == rest;
      assert t[0] == rest[0];
    } else {
      assert Decimal(n)[..0] == [];
    }
  }

  lemma DecimalInjective(m: int, n: int)
    requires Decimal(m) == Decimal(n)
    ensures m == n
  {
    DecimalCounts(if m < 0 then -m else m);
    DecimalCounts(if n < 0 then -n else n);
    assert m < 0 ==> Decimal(m)[1..] == Decimal(-m);
    assert n < 0 ==> Decimal(n)[1..] == Decimal(-n);
  }

  lemma AllDigits(t: Str)
    requires forall i :: 0 <= i < |t| ==> IsDigit(t[i])
    ensures Digits(t) == |t|
  {
  }

  lemma DecimalIsNumber(n: int)
    ensures IsNumber(Decimal(n))
  {
    var m := if n < 0 then -n else n;
    DecimalCounts(m);
    AllDigits(Decimal(m));
    assert n < 0 ==> Decimal(n)[1..] == Decimal(m);
    assert Decimal(m)[|Decimal(m)|..] == [];
    assert IsFraction([]);
  }

  // ---------------------------------------------------------------------------------
  // Keys

  ghost predicate IsMessage(message: Message) {
    forall field :: field in message ==> IsJson(message[field])
  }

  lemma ValuesAreJson(handler: Str, message: Message, fields: seq<Str>, slot: int)
    requires IsMessage(message)
    ensures IsJson(IdempotencyValue(handler, message, fields))
    ensures IsJson(SlotValue(handler, message, fields, slot))
  {
    FieldsAreJson(message, fields);
    hide IsMessage, FieldValues, IsNumber;
    var items := [Text(handler)] + FieldValues(message, fields);
    assert forall i :: 0 <= i < |items| ==> IsJson(items[i]);
    DecimalIsNumber(slot);
    SlotIsJson(handler, Array(FieldValues(message, fields)), Decimal(slot));
    hide Decimal, IsJson;
  }

  lemma SlotIsJson(handler: Str, key: Json, slot: Str)
    requires IsJson(key) && IsNumber(slot)
    ensures IsJson(Object([
      Member(Ascii("handler"), Text(handler)), Member(Ascii("key"), key), Member(Ascii("slot"), Number(slot))]))
  {
    hide IsNumber;
    assert |Ascii("handler")| == 7 && |Ascii("key")| == 3 && |Ascii("slot")| == 4;
  }

  lemma FieldsAreJson(message: Message, fields: seq<Str>)
    requires IsMessage(message)
    ensures forall i :: 0 <= i < |fields| ==> IsJson(FieldValues(message, fields)[i])
    ensures IsJson(Array(FieldValues(message, fields)))
  {
  }

  /** The message has something other than `null` in the field. */
  predicate IsFilled(m: Message, field: Str) {
    field in m && m[field] != Null
  }

  /** Both fields are filled with the same value, or neither is filled. */
  predicate SameField(m: Message, field: Str, m': Message, field': Str) {
    && (IsFilled(m, field) <==> IsFilled(m', field'))
    && (IsFilled(m, field) ==> m[field] == m'[field'])
  }

  ghost predicate SameFields(m: Message, fs: seq<Str>, m': Message, fs': seq<Str>) {
    |fs| == |fs'| && forall i :: 0 <= i < |fs| ==> SameField(m, fs[i], m', fs'[i])
  }

  lemma SameValues(m: Message, fs: seq<Str>, m': Message, fs': seq<Str>)
    ensures FieldValues(m, fs) == FieldValues(m', fs') <==> SameFields(m, fs, m', fs')
  {
    var values, values' := FieldValues(m, fs), FieldValues(m', fs');
    if |fs| == |fs'| {
      assert forall i :: 0 <= i < |fs| ==> (values[i] == values'[i] <==> SameField(m, fs[i], m', fs'[i]));
    }
  }

  /** Two idempotency keys meet only for the same handler and the same list of field values. */
  lemma IdempotencyKeyInjective(h: Str, m: Message, fs: seq<Str>, h': Str, m': Message, fs': seq<Str>)
    requires IsMessage(m) && IsMessage(m')
    ensures IdempotencyKey(h, m, fs) == IdempotencyKey(h', m', fs') <==>
            h == h' && SameFields(m, fs, m', fs')
  {
    SameValues(m, fs, m', fs');
    ValuesAreJson(h, m, fs, 0);
    ValuesAreJson(h', m', fs', 0);
    StringifyInjective(IdempotencyValue(h, m, fs), IdempotencyValue(h', m', fs'));
    var items, items' := [Text(h)] + FieldValues(m, fs), [Text(h')] + FieldValues(m', fs');
    assert items[1..] == FieldValues(m, fs) && items'[1..] == FieldValues(m', fs');
    assert items[0] == Text(h) && items'[0] == Text(h');
  }

  /** Two slot keys meet only for the same handler, the same list of field values and the same slot. */
  lemma ConcurrencySlotKeyInjective(
    h: Str, m: Message, fs: seq<Str>, n: int, h': Str, m': Message, fs': seq<Str>, n': int
  )
    requires IsMessage(m) && IsMessage(m')
    ensures ConcurrencySlotKey(h, m, fs, n) == ConcurrencySlotKey(h', m', fs', n') <==>
            h == h' && SameFields(m, fs, m', fs') && n == n'
  {
    SameValues(m, fs, m', fs');
    ValuesAreJson(h, m, fs, n);
    ValuesAreJson(h', m', fs', n');
    var v, v' := SlotValue(h, m, fs, n), SlotValue(h', m', fs', n');
    StringifyInjective(v, v');
    if v == v' {
      assert v.members[0].value == v'.members[0].value;
      assert v.members[1].value == v'.members[1].value;
      assert v.members[2].value == v'.members[2].value;
      DecimalInjective(n, n');
    }
  }

  /** A slot key is never an idempotency key, whatever the messages hold. */
  lemma SlotKeyIsNoIdempotencyKey(h: Str, m: Message, fs: seq<Str>, n: int, h': Str, m': Message, fs': seq<Str>)
    ensures ConcurrencySlotKey(h, m, fs, n) != IdempotencyKey(h', m', fs')
  {
    assert ConcurrencySlotKey(h, m, fs, n)[0] == OPEN_BRACE;
    assert IdempotencyKey(h', m', fs')[0] == OPEN_BRACKET;
  }

  /** A message without a key field shares its key with the one that has `null` there. */
  lemma MissingFieldIsNull(h: Str, m: Message, field: Str)
    requires field !in m
    ensures IdempotencyKey(h, m, [field]) == IdempotencyKey(h, m[field := Null], [field])
  {
    assert FieldValues(m, [field]) == FieldValues(m[field := Null], [field]);
  }
}
