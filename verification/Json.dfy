/**
 * JSON texts of JSON values: `JSON.stringify` (section 25.5.2 of ECMA-262) and `JSON.parse` (section 25.5.1,
 * grammar of RFC 8259 sections 2 to 7), over strings of UTF-16 code units. A number is carried as its text.
 */
module Json {
  import opened Common

  type Unit = x: int | 0 <= x < 0x10000
  type Str = seq<Unit>

  datatype Json =
    | Null
    | Bool(flag: bool)
    | Number(text: Str)
    | Text(chars: Str)
    | Array(items: seq<Json>)
    | Object(members: seq<Member>)

  datatype Member = Member(key: Str, value: Json)

  const QUOTE: Unit := 0x22
  const COMMA: Unit := 0x2C
  const COLON: Unit := 0x3A
  const OPEN_BRACKET: Unit := 0x5B
  const BACKSLASH: Unit := 0x5C
  const CLOSE_BRACKET: Unit := 0x5D
  const OPEN_BRACE: Unit := 0x7B
  const CLOSE_BRACE: Unit := 0x7D

  const NULL: Str := [0x6E, 0x75, 0x6C, 0x6C]
  const TRUE: Str := [0x74, 0x72, 0x75, 0x65]
  const FALSE: Str := [0x66, 0x61, 0x6C, 0x73, 0x65]

  function Ascii(s: string): Str {
    seq(|s|, i requires 0 <= i < |s| => s[i] as int % 0x10000)
  }

  // ---------------------------------------------------------------------------------
  // Strings

  predicate IsLead(c: Unit) { 0xD800 <= c < 0xDC00 }

  predicate IsTrail(c: Unit) { 0xDC00 <= c < 0xE000 }

  function HexDigit(n: nat): Unit
    requires n < 16
  {
    if n < 10 then 0x30 + n else 0x61 + n - 10
  }

  function HexValue(c: Unit): Option<nat> {
    if 0x30 <= c <= 0x39 then Some(c - 0x30)
    else if 0x61 <= c <= 0x66 then Some(c - 0x61 + 10)
    else if 0x41 <= c <= 0x46 then Some(c - 0x41 + 10)
    else None
  }

  /** The letter of a short escape, or 0. */
  function ShortEscape(c: Unit): Unit {
    if c == 0x08 then 0x62 else if c == 0x09 then 0x74 else if c == 0x0A then 0x6E else if c == 0x0C then 0x66
    else if c == 0x0D then 0x72 else if c == QUOTE then QUOTE else if c == BACKSLASH then BACKSLASH else 0
  }

  function Unescape(c: Unit): Option<Unit> {
    if c == 0x62 then Some(0x08) else if c == 0x74 then Some(0x09) else if c == 0x6E then Some(0x0A)
    else if c == 0x66 then Some(0x0C) else if c == 0x72 then Some(0x0D)
    else if c == QUOTE || c == BACKSLASH || c == 0x2F then Some(c) else None
  }

  function UnicodeEscape(c: Unit): Str {
    [BACKSLASH, 0x75, HexDigit(c / 16 / 16 / 16), HexDigit(c / 16 / 16 % 16), HexDigit(c / 16 % 16), HexDigit(c % 16)]
  }

  function QuoteUnit(c: Unit): Str {
    if ShortEscape(c) != 0 then [BACKSLASH, ShortEscape(c)]
    else if c < 0x20 || IsLead(c) || IsTrail(c) then UnicodeEscape(c)
    else [c]
  }

  /** The text between the quotes: a surrogate pair stays, a lone surrogate is escaped. */
  function Quote(s: Str): Str {
    if s == [] then []
    else if |s| > 1 && IsLead(s[0]) && IsTrail(s[1]) then s[..2] + Quote(s[2..])
    else QuoteUnit(s[0]) + Quote(s[1..])
  }

  // ---------------------------------------------------------------------------------
  // Numbers

  predicate IsDigit(c: Unit) { 0x30 <= c <= 0x39 }

  predicate IsNumberUnit(c: Unit) {
    IsDigit(c) || c == 0x2D || c == 0x2B || c == 0x2E || c == 0x65 || c == 0x45
  }

  /** The text of an integer. */
  function Decimal(n: int): Str
    decreases n < 0, if n < 0 then -n else n
  {
    if n < 0 then [0x2D] + Decimal(-n)
    else if n < 10 then [0x30 + n]
    else Decimal(n / 10) + [0x30 + n % 10]
  }

  /** The length of the leading run of digits. */
  function Digits(t: Str): (n: nat)
    ensures n <= |t|
  {
    if t == [] || !IsDigit(t[0]) then 0 else 1 + Digits(t[1..])
  }

  /** number = [ minus ] int [ frac ] [ exp ], section 6 of RFC 8259 */
  predicate IsNumber(t: Str) {
    var u := if t != [] && t[0] == 0x2D then t[1..] else t;
    Digits(u) > 0 && (u[0] == 0x30 ==> Digits(u) == 1) && IsFraction(u[Digits(u)..])
  }

  predicate IsFraction(t: Str) {
    if t != [] && t[0] == 0x2E then Digits(t[1..]) > 0 && IsExponent(t[1..][Digits(t[1..])..]) else IsExponent(t)
  }

  predicate IsExponent(t: Str) {
    t == [] ||
    ((t[0] == 0x65 || t[0] == 0x45) &&
     var u := if |t| > 1 && (t[1] == 0x2B || t[1] == 0x2D) then t[2..] else t[1..];
     Digits(u) > 0 && Digits(u) == |u|)
  }

  /** The length of the leading run of characters a number may have. */
  function NumberRun(t: Str): (n: nat)
    ensures n <= |t|
    ensures forall i :: 0 <= i < n ==> IsNumberUnit(t[i])
    ensures n < |t| ==> !IsNumberUnit(t[n])
  {
    if t == [] || !IsNumberUnit(t[0]) then 0 else 1 + NumberRun(t[1..])
  }

  // ---------------------------------------------------------------------------------
  // JSON.stringify

  function Stringify(v: Json): Str
    decreases v, 0
  {
    match v
    case Null => NULL
    case Bool(b) => if b then TRUE else FALSE
    case Number(text) => text
    case Text(s) => [QUOTE] + Quote(s) + [QUOTE]
    case Array(items) => [OPEN_BRACKET] + StringifyItems(items) + [CLOSE_BRACKET]
    case Object(members) => [OPEN_BRACE] + StringifyMembers(members) + [CLOSE_BRACE]
  }

  function StringifyItems(items: seq<Json>): Str
    decreases items, 1
  {
    if items == [] then []
    else if |items| == 1 then Stringify(items[0])
    else Stringify(items[0]) + [COMMA] + StringifyItems(items[1..])
  }

  function StringifyMember(m: Member): Str
    decreases m, 1
  {
    [QUOTE] + Quote(m.key) + [QUOTE, COLON] + Stringify(m.value)
  }

  function StringifyMembers(members: seq<Member>): Str
    decreases members, 2
  {
    if members == [] then []
    else if |members| == 1 then StringifyMember(members[0])
    else StringifyMember(members[0]) + [COMMA] + StringifyMembers(members[1..])
  }

  // ---------------------------------------------------------------------------------
  // JSON.parse

  datatype Parsed<+T> = Parsed(value: T, rest: Str)

  predicate IsSpace(c: Unit) { c == 0x20 || c == 0x09 || c == 0x0A || c == 0x0D }

  function SkipSpace(t: Str): (r: Str)
    ensures |r| <= |t|
  {
    if t == [] || !IsSpace(t[0]) then t else SkipSpace(t[1..])
  }

  predicate Head(t: Str, c: Unit) { t != [] && t[0] == c }

  /** The rest of a string, after its opening quote. */
  function ParseString(t: Str): (r: Option<Parsed<Str>>)
    ensures r.Some? ==> |r.value.rest| < |t|
  {
    if t == [] then None
    else if t[0] == QUOTE then Some(Parsed([], t[1..]))
    else
      var unit := ParseUnit(t);
      if unit.None? then None else
        var more := ParseString(unit.value.rest);
        if more.None? then None else Some(Parsed([unit.value.value] + more.value.value, more.value.rest))
  }

  function ParseUnit(t: Str): (r: Option<Parsed<Unit>>)
    requires t != []
    ensures r.Some? ==> |r.value.rest| < |t|
  {
    if t[0] < 0x20 then None
    else if t[0] != BACKSLASH then Some(Parsed(t[0], t[1..]))
    else if |t| < 2 then None
    else if t[1] == 0x75 then ParseHex(t)
    else if Unescape(t[1]).None? then None
    else Some(Parsed(Unescape(t[1]).value, t[2..]))
  }

  function ParseHex(t: Str): (r: Option<Parsed<Unit>>)
    requires |t| >= 2
    ensures r.Some? ==> |r.value.rest| < |t|
  {
    if |t| < 6 then None else
      var a, b, c, d := HexValue(t[2]), HexValue(t[3]), HexValue(t[4]), HexValue(t[5]);
      if a.None? || b.None? || c.None? || d.None? then None
      else Some(Parsed(((a.value * 16 + b.value) * 16 + c.value) * 16 + d.value, t[6..]))
  }

  function ParseValue(t: Str): (r: Option<Parsed<Json>>)
    ensures r.Some? ==> |r.value.rest| < |t|
    decreases |t|, 2
  {
    var u := SkipSpace(t);
    if u == [] then None
    else if u[0] == QUOTE then ParseText(u)
    else if u[0] == OPEN_BRACKET then ParseArray(u)
    else if u[0] == OPEN_BRACE then ParseObject(u)
    else ParseWord(u)
  }

  function ParseText(t: Str): (r: Option<Parsed<Json>>)
    requires t != []
    ensures r.Some? ==> |r.value.rest| < |t|
  {
    var s := ParseString(t[1..]);
    if s.None? then None else Some(Parsed(Text(s.value.value), s.value.rest))
  }

  /** A literal or a number. */
  function ParseWord(t: Str): (r: Option<Parsed<Json>>)
    requires t != []
    ensures r.Some? ==> |r.value.rest| < |t|
  {
    if NULL <= t then Some(Parsed(Null, t[4..]))
    else if TRUE <= t then Some(Parsed(Bool(true), t[4..]))
    else if FALSE <= t then Some(Parsed(Bool(false), t[5..]))
    else
      var n := NumberRun(t);
      if n > 0 && IsNumber(t[..n]) then Some(Parsed(Number(t[..n]), t[n..])) else None
  }

  function ParseArray(t: Str): (r: Option<Parsed<Json>>)
    requires t != []
    ensures r.Some? ==> |r.value.rest| < |t|
    decreases |t|, 1
  {
    if Head(SkipSpace(t[1..]), CLOSE_BRACKET) then Some(Parsed(Array([]), SkipSpace(t[1..])[1..])) else
      var items := ParseItems(t[1..]);
      if items.None? then None else Some(Parsed(Array(items.value.value), items.value.rest))
  }

  function ParseObject(t: Str): (r: Option<Parsed<Json>>)
    requires t != []
    ensures r.Some? ==> |r.value.rest| < |t|
    decreases |t|, 1
  {
    if Head(SkipSpace(t[1..]), CLOSE_BRACE) then Some(Parsed(Object([]), SkipSpace(t[1..])[1..])) else
      var members := ParseMembers(t[1..]);
      if members.None? then None else Some(Parsed(Object(members.value.value), members.value.rest))
  }

  /** One or more items and the closing bracket. */
  function ParseItems(t: Str): (r: Option<Parsed<seq<Json>>>)
    ensures r.Some? ==> |r.value.rest| < |t|
    decreases |t|, 3
  {
    var item := ParseValue(t);
    if item.None? then None else
      var rest := SkipSpace(item.value.rest);
      if Head(rest, CLOSE_BRACKET) then Some(Parsed([item.value.value], rest[1..]))
      else if Head(rest, COMMA) then
        var more := ParseItems(rest[1..]);
        if more.None? then None else Some(Parsed([item.value.value] + more.value.value, more.value.rest))
      else None
  }

  function ParseMember(t: Str): (r: Option<Parsed<Member>>)
    ensures r.Some? ==> |r.value.rest| < |t|
    decreases |t|, 3
  {
    var u := SkipSpace(t);
    if !Head(u, QUOTE) then None else
      var key := ParseString(u[1..]);
      if key.None? || !Head(SkipSpace(key.value.rest), COLON) then None else
        var value := ParseValue(SkipSpace(key.value.rest)[1..]);
        if value.None? then None else Some(Parsed(Member(key.value.value, value.value.value), value.value.rest))
  }

  /** A repeated key keeps its first place and its last value. */
  function ParseMembers(t: Str): (r: Option<Parsed<seq<Member>>>)
    ensures r.Some? ==> |r.value.rest| < |t|
    decreases |t|, 4
  {
    var member := ParseMember(t);
    if member.None? then None else
      var rest := SkipSpace(member.value.rest);
      if Head(rest, CLOSE_BRACE) then Some(Parsed([member.value.value], rest[1..]))
      else if Head(rest, COMMA) then
        var more := ParseMembers(rest[1..]);
        if more.None? then None
        else Some(Parsed(Before(member.value.value, more.value.value), more.value.rest))
      else None
  }

  /** `m` defined before `members`: a later value of its key takes its place. */
  function Before(m: Member, members: seq<Member>): seq<Member> {
    var i := Find(members, m.key);
    if i == |members| then [m] + members else [members[i]] + members[..i] + members[i + 1..]
  }

  function Find(members: seq<Member>, key: Str): (i: nat)
    ensures i <= |members|
    ensures i < |members| ==> members[i].key == key
    ensures forall k :: 0 <= k < i ==> members[k].key != key
  {
    if members == [] || members[0].key == key then 0 else 1 + Find(members[1..], key)
  }

  function Parse(t: Str): Option<Json> {
    var v := ParseValue(t);
    if v.Some? && SkipSpace(v.value.rest) == [] then Some(v.value.value) else None
  }

  // ---------------------------------------------------------------------------------
  // The values that JSON can hold

  ghost predicate IsJson(v: Json)
    decreases v
  {
    match v
    case Number(text) => IsNumber(text)
    case Array(items) => forall i :: 0 <= i < |items| ==> IsJson(items[i])
    case Object(members) =>
      && (forall i, j :: 0 <= i < j < |members| ==> members[i].key != members[j].key)
      && (forall i :: 0 <= i < |members| ==> IsJson(members[i].value))
    case _ => true
  }
}
