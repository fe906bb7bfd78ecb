/** Parsing a JSON text gives back the value it was written from, so no two values share a text. */
module JsonRoundTrip {
  import opened Common
  import opened Json

  lemma Reassociate<T>(a: seq<T>, b: seq<T>, c: seq<T>, d: seq<T>)
    ensures a + b + c + d == a + (b + (c + d))
  {
  }

  lemma NibbleRoundTrip(n: nat)
    requires n < 16
    ensures HexValue(HexDigit(n)) == Some(n)
  {
  }

  lemma HexRoundTrip(c: Unit, r: Str)
    ensures ParseHex(UnicodeEscape(c) + r) == Some(Parsed(c, r))
  {
    NibbleRoundTrip(c / 16 / 16 / 16);
    NibbleRoundTrip(c / 16 / 16 % 16);
    NibbleRoundTrip(c / 16 % 16);
    NibbleRoundTrip(c % 16);
    hide HexDigit;
    hide HexValue;
    var t := UnicodeEscape(c) + r;
    assert t[6..] == r;
  }

  lemma UnitRoundTrip(c: Unit, r: Str)
    ensures QuoteUnit(c)[0] != QUOTE
    ensures ParseUnit(QuoteUnit(c) + r) == Some(Parsed(c, r))
  {
    var t := QuoteUnit(c) + r;
    if ShortEscape(c) != 0 {
      assert t[2..] == r;
    } else if c < 0x20 || IsLead(c) || IsTrail(c) {
      HexRoundTrip(c, r);
    } else {
      assert t[1..] == r;
    }
  }

  lemma ParseOneMore(text: Str, c: Unit, t: Str, s: Str, r: Str)
    requires text != [] && text[0] != QUOTE
    requires ParseUnit(text + t) == Some(Parsed(c, t))
    requires ParseString(t) == Some(Parsed(s, r))
    ensures ParseString(text + t) == Some(Parsed([c] + s, r))
  {
  }

  lemma {:induction false} StringRoundTrip(s: Str, r: Str)
    ensures ParseString(Quote(s) + ([QUOTE] + r)) == Some(Parsed(s, r))
    decreases |s|
  {
    var close := [QUOTE] + r;
    if s == [] {
      assert Quote(s) + close == close;
      assert close[1..] == r;
    } else if |s| > 1 && IsLead(s[0]) && IsTrail(s[1]) {
      StringRoundTrip(s[2..], r);
      ParsePair(s[0], s[1], Quote(s[2..]) + close, s[2..], r);
      PairText(s, close);
    } else {
      StringRoundTrip(s[1..], r);
      UnitRoundTrip(s[0], Quote(s[1..]) + close);
      ParseOneMore(QuoteUnit(s[0]), s[0], Quote(s[1..]) + close, s[1..], r);
      UnitText(s, close);
    }
  }

  lemma PairText(s: Str, close: Str)
    requires |s| > 1 && IsLead(s[0]) && IsTrail(s[1])
    ensures Quote(s) + close == [s[0]] + ([s[1]] + (Quote(s[2..]) + close))
    ensures [s[0], s[1]] + s[2..] == s
  {
    QuotedPair(s);
    hide Quote;
    FirstTwo(s);
    Reassociate([s[0]], [s[1]], Quote(s[2..]), close);
  }

  lemma FirstTwo(s: Str)
    requires |s| > 1
    ensures s[..2] == [s[0]] + [s[1]] && [s[0], s[1]] + s[2..] == s
  {
  }

  lemma QuotedPair(s: Str)
    requires |s| > 1 && IsLead(s[0]) && IsTrail(s[1])
    ensures Quote(s) == s[..2] + Quote(s[2..])
  {
  }

  lemma UnitText(s: Str, close: Str)
    requires s != [] && !(|s| > 1 && IsLead(s[0]) && IsTrail(s[1]))
    ensures Quote(s) + close == QuoteUnit(s[0]) + (Quote(s[1..]) + close)
    ensures [s[0]] + s[1..] == s
  {
    assert Quote(s) == QuoteUnit(s[0]) + Quote(s[1..]);
    hide Quote, QuoteUnit;
    Associates(QuoteUnit(s[0]), Quote(s[1..]), close);
  }

  lemma ParsePair(a: Unit, b: Unit, t: Str, s: Str, r: Str)
    requires IsLead(a) && IsTrail(b) && ParseString(t) == Some(Parsed(s, r))
    ensures ParseString([a] + ([b] + t)) == Some(Parsed([a, b] + s, r))
  {
    assert ([b] + t)[1..] == t;
    ParseOneMore([b], b, t, s, r);
    assert ([a] + ([b] + t))[1..] == [b] + t;
    ParseOneMore([a], a, [b] + t, [b] + s, r);
    hide ParseString;
    assert [a] + ([b] + s) == [a, b] + s;
  }

  // ---------------------------------------------------------------------------------
  // Numbers

  lemma DigitsAreDigits(t: Str)
    ensures forall i :: 0 <= i < Digits(t) ==> IsDigit(t[i])
  {
  }

  lemma ExponentUnits(t: Str)
    requires IsExponent(t)
    ensures forall i :: 0 <= i < |t| ==> IsNumberUnit(t[i])
  {
    if t != [] {
      var k := if |t| > 1 && (t[1] == 0x2B || t[1] == 0x2D) then 2 else 1;
      var u := t[k..];
      DigitsAreDigits(u);
      assert forall i :: k <= i < |t| ==> t[i] == u[i - k];
    }
  }

  lemma FractionUnits(t: Str)
    requires IsFraction(t)
    ensures forall i :: 0 <= i < |t| ==> IsNumberUnit(t[i])
  {
    if t != [] && t[0] == 0x2E {
      var u := t[1..];
      var n := Digits(u);
      DigitsAreDigits(u);
      ExponentUnits(u[n..]);
      forall i | 0 < i < |t|
        ensures IsNumberUnit(t[i])
      {
        assert t[i] == u[i - 1];
        if i - 1 >= n {
          assert t[i] == u[n..][i - 1 - n];
        }
      }
    } else {
      ExponentUnits(t);
    }
  }

  lemma NumberUnits(t: Str)
    requires IsNumber(t)
    ensures t != [] && (t[0] == 0x2D || IsDigit(t[0]))
    ensures forall i :: 0 <= i < |t| ==> IsNumberUnit(t[i])
  {
    var k := if t[0] == 0x2D then 1 else 0;
    var u := t[k..];
    var n := Digits(u);
    DigitsAreDigits(u);
    FractionUnits(u[n..]);
    forall i | k <= i < |t|
      ensures IsNumberUnit(t[i])
    {
      assert t[i] == u[i - k];
      if i - k >= n {
        assert t[i] == u[n..][i - k - n];
      }
    }
  }

  lemma RunOfNumber(text: Str, r: Str)
    requires (forall i :: 0 <= i < |text| ==> IsNumberUnit(text[i])) && (r == [] || !IsNumberUnit(r[0]))
    ensures NumberRun(text + r) == |text|
  {
    var t := text + r;
    var n := NumberRun(t);
    if r != [] {
      assert t[|text|] == r[0];
    }
    assert forall i :: 0 <= i < |text| ==> t[i] == text[i];
  }

  lemma NumberRoundTrip(text: Str, r: Str)
    requires IsNumber(text) && (r == [] || !IsNumberUnit(r[0]))
    ensures ParseValue(text + r) == Some(Parsed(Number(text), r))
  {
    NumberUnits(text);
    RunOfNumber(text, r);
    hide IsNumber, IsNumberUnit, NumberRun, ParseWord, ParseValue;
    assert (text + r)[0] == text[0];
    ValueIsWord(text + r);
    WordOfNumber(text, r);
  }

  lemma ValueIsWord(t: Str)
    requires t != [] && (t[0] == 0x2D || IsDigit(t[0]))
    ensures ParseValue(t) == ParseWord(t)
  {
    hide ParseWord, ParseText, ParseArray, ParseObject;
    assert SkipSpace(t) == t;
  }

  lemma WordOfNumber(text: Str, r: Str)
    requires IsNumber(text) && NumberRun(text + r) == |text|
    requires text != [] && (text[0] == 0x2D || IsDigit(text[0]))
    ensures ParseWord(text + r) == Some(Parsed(Number(text), r))
  {
    hide NumberRun, IsNumber;
    var t := text + r;
    assert t[0] == text[0];
    NotLiteral(t);
    assert t[..|text|] == text && t[|text|..] == r;
  }

  /** What starts like a number is no literal. */
  lemma NotLiteral(t: Str)
    ensures t != [] && (t[0] == 0x2D || IsDigit(t[0])) ==> !(NULL <= t) && !(TRUE <= t) && !(FALSE <= t)
  {
    assert NULL[0] == 'n' as int && TRUE[0] == 't' as int && FALSE[0] == 'f' as int;
  }

  // ---------------------------------------------------------------------------------
  // Values

  /** The first character of a value's text opens a value. */
  lemma StringifyHead(v: Json)
    requires IsJson(v)
    ensures var t := Stringify(v);
      t != [] && !IsSpace(t[0]) && t[0] != CLOSE_BRACKET && t[0] != CLOSE_BRACE
  {
    if v.Number? {
      NumberUnits(v.text);
    }
  }

  lemma LiteralRoundTrip(v: Json, r: Str)
    requires v.Null? || v.Bool?
    ensures ParseValue(Stringify(v) + r) == Some(Parsed(v, r))
  {
    var text := Stringify(v);
    var t := text + r;
    assert t[0] == text[0];
    assert t[|text|..] == r;
    assert ParseWord(t) == Some(Parsed(v, r));
  }

  lemma TextRoundTrip(s: Str, r: Str)
    ensures ParseValue(Stringify(Text(s)) + r) == Some(Parsed(Text(s), r))
  {
    StringRoundTrip(s, r);
    hide ParseString;
    hide Quote;
    var t := Stringify(Text(s)) + r;
    assert t[1..] == Quote(s) + ([QUOTE] + r);
    assert ParseText(t) == Some(Parsed(Text(s), r));
  }

  /** Whether `r` may follow the text of `v`. */
  predicate MayFollow(v: Json, r: Str) {
    v.Number? ==> r == [] || !IsNumberUnit(r[0])
  }

  lemma {:induction false} ValueRoundTrip(v: Json, r: Str)
    requires IsJson(v) && MayFollow(v, r)
    ensures ParseValue(Stringify(v) + r) == Some(Parsed(v, r))
    decreases v, 0
  {
    match v
    case Null => LiteralRoundTrip(v, r);
    case Bool(_) => LiteralRoundTrip(v, r);
    case Number(text) => NumberRoundTrip(text, r);
    case Text(s) => TextRoundTrip(s, r);
    case Array(items) =>
      if items != [] {
        ItemsRoundTrip(items, r);
      }
      OpenArray(items, r);
    case Object(members) =>
      if members != [] {
        MembersRoundTrip(members, r);
      }
      OpenObject(members, r);
  }

  lemma OpenArray(items: seq<Json>, r: Str)
    requires forall i :: 0 <= i < |items| ==> IsJson(items[i])
    requires items != [] ==> ParseItems(StringifyItems(items) + ([CLOSE_BRACKET] + r)) == Some(Parsed(items, r))
    ensures ParseValue(Stringify(Array(items)) + r) == Some(Parsed(Array(items), r))
  {
    ItemsHead(items, [CLOSE_BRACKET] + r);
    Reassociate([OPEN_BRACKET], StringifyItems(items), [CLOSE_BRACKET], r);
    BracketedItems(StringifyItems(items) + ([CLOSE_BRACKET] + r), items, r);
  }

  lemma BracketedItems(u: Str, items: seq<Json>, r: Str)
    requires if items == [] then u == [CLOSE_BRACKET] + r
             else Some(Parsed(items, r)) == ParseItems(u) && u != [] && !IsSpace(u[0]) && u[0] != CLOSE_BRACKET
    ensures ParseValue([OPEN_BRACKET] + u) == Some(Parsed(Array(items), r))
  {
    hide ParseItems;
    var t := [OPEN_BRACKET] + u;
    assert t[1..] == u;
    if items == [] {
      assert u[1..] == r;
    }
    assert ParseArray(t) == Some(Parsed(Array(items), r));
  }

  lemma ItemsHead(items: seq<Json>, close: Str)
    requires forall i :: 0 <= i < |items| ==> IsJson(items[i])
    ensures items == [] ==> StringifyItems(items) + close == close
    ensures items != [] ==>
      var u := StringifyItems(items) + close; u != [] && !IsSpace(u[0]) && u[0] != CLOSE_BRACKET
  {
    if items != [] {
      StringifyHead(items[0]);
      hide Stringify;
      var u := StringifyItems(items) + close;
      assert u[0] == Stringify(items[0])[0];
    }
  }

  lemma {:induction false} ItemsRoundTrip(items: seq<Json>, r: Str)
    requires items != [] && forall i :: 0 <= i < |items| ==> IsJson(items[i])
    ensures ParseItems(StringifyItems(items) + ([CLOSE_BRACKET] + r)) == Some(Parsed(items, r))
    decreases items, 1
  {
    if |items| == 1 {
      ValueRoundTrip(items[0], [CLOSE_BRACKET] + r);
      LastItem(Stringify(items[0]), items[0], r);
      assert items == [items[0]];
    } else {
      var more := StringifyItems(items[1..]) + ([CLOSE_BRACKET] + r);
      ItemsRoundTrip(items[1..], r);
      ValueRoundTrip(items[0], [COMMA] + more);
      MoreItems(Stringify(items[0]), items[0], more, items[1..], r);
      ItemsText(items, [CLOSE_BRACKET] + r);
    }
  }

  lemma ItemsText(items: seq<Json>, close: Str)
    requires |items| > 1
    ensures StringifyItems(items) + close == Stringify(items[0]) + ([COMMA] + (StringifyItems(items[1..]) + close))
    ensures [items[0]] + items[1..] == items
  {
    Reassociate(Stringify(items[0]), [COMMA], StringifyItems(items[1..]), close);
  }

  lemma LastItem(text: Str, v: Json, r: Str)
    requires ParseValue(text + ([CLOSE_BRACKET] + r)) == Some(Parsed(v, [CLOSE_BRACKET] + r))
    ensures ParseItems(text + ([CLOSE_BRACKET] + r)) == Some(Parsed([v], r))
  {
    hide ParseValue;
    assert ([CLOSE_BRACKET] + r)[1..] == r;
  }

  lemma MoreItems(text: Str, v: Json, more: Str, vs: seq<Json>, r: Str)
    requires ParseValue(text + ([COMMA] + more)) == Some(Parsed(v, [COMMA] + more))
    requires ParseItems(more) == Some(Parsed(vs, r))
    ensures ParseItems(text + ([COMMA] + more)) == Some(Parsed([v] + vs, r))
  {
    hide ParseValue;
    assert ([COMMA] + more)[1..] == more;
  }

  lemma OpenObject(members: seq<Member>, r: Str)
    requires members != [] ==> ParseMembers(StringifyMembers(members) + ([CLOSE_BRACE] + r)) == Some(Parsed(members, r))
    ensures ParseValue(Stringify(Object(members)) + r) == Some(Parsed(Object(members), r))
  {
    MembersHead(members, [CLOSE_BRACE] + r);
    hide ParseMembers;
    hide StringifyMembers;
    var t, u := Stringify(Object(members)) + r, StringifyMembers(members) + ([CLOSE_BRACE] + r);
    assert t[1..] == u;
    if members == [] {
      assert u[1..] == r;
    }
    assert ParseObject(t) == Some(Parsed(Object(members), r));
  }

  lemma MembersHead(members: seq<Member>, close: Str)
    ensures members == [] ==> StringifyMembers(members) + close == close
    ensures members != [] ==> Head(StringifyMembers(members) + close, QUOTE)
  {
    hide Stringify;
    hide Quote;
  }

  lemma MemberRoundTrip(m: Member, r: Str)
    requires ParseValue(Stringify(m.value) + r) == Some(Parsed(m.value, r))
    ensures ParseMember(StringifyMember(m) + r) == Some(Parsed(m, r))
  {
    var value := [COLON] + (Stringify(m.value) + r);
    StringRoundTrip(m.key, value);
    hide ParseValue;
    hide ParseString;
    hide Stringify;
    hide Quote;
    var t := StringifyMember(m) + r;
    assert t[1..] == Quote(m.key) + ([QUOTE] + value);
    assert value[1..] == Stringify(m.value) + r;
  }

  lemma LastMember(text: Str, m: Member, r: Str)
    requires ParseMember(text + ([CLOSE_BRACE] + r)) == Some(Parsed(m, [CLOSE_BRACE] + r))
    ensures ParseMembers(text + ([CLOSE_BRACE] + r)) == Some(Parsed([m], r))
  {
    hide ParseMember;
    assert ([CLOSE_BRACE] + r)[1..] == r;
  }

  lemma MoreMembers(text: Str, m: Member, more: Str, ms: seq<Member>, r: Str)
    requires ParseMember(text + ([COMMA] + more)) == Some(Parsed(m, [COMMA] + more))
    requires ParseMembers(more) == Some(Parsed(ms, r))
    requires forall i :: 0 <= i < |ms| ==> ms[i].key != m.key
    ensures ParseMembers(text + ([COMMA] + more)) == Some(Parsed([m] + ms, r))
  {
    hide ParseMember;
    assert ([COMMA] + more)[1..] == more;
    assert Find(ms, m.key) == |ms|;
  }

  lemma {:induction false} MembersRoundTrip(members: seq<Member>, r: Str)
    requires members != [] && IsJson(Object(members))
    ensures ParseMembers(StringifyMembers(members) + ([CLOSE_BRACE] + r)) == Some(Parsed(members, r))
    decreases members, 1
  {
    var m := members[0];
    FirstMember(members);
    if |members| == 1 {
      assert members == [m] && StringifyMembers(members) == StringifyMember(m);
      hide ParseMembers, ParseMember, StringifyMembers, StringifyMember, IsJson, ParseValue;
      ValueRoundTrip(m.value, [CLOSE_BRACE] + r);
      MemberRoundTrip(m, [CLOSE_BRACE] + r);
      LastMember(StringifyMember(m), m, r);
    } else {
      var rest := members[1..];
      var more := StringifyMembers(rest) + ([CLOSE_BRACE] + r);
      MembersText(members, [CLOSE_BRACE] + r);
      hide ParseMembers, ParseMember, StringifyMembers, StringifyMember, IsJson, ParseValue;
      MembersRoundTrip(rest, r);
      ValueRoundTrip(m.value, [COMMA] + more);
      MemberRoundTrip(m, [COMMA] + more);
      MoreMembers(StringifyMember(m), m, more, rest, r);
    }
  }

  /** The members of an object are JSON, and so is the object without the first. */
  lemma FirstMember(members: seq<Member>)
    requires members != [] && IsJson(Object(members))
    ensures IsJson(members[0].value) && IsJson(Object(members[1..]))
    ensures forall k :: 0 <= k < |members[1..]| ==> members[1..][k].key != members[0].key
  {
    assert forall k :: 0 <= k < |members[1..]| ==> members[1..][k] == members[k + 1];
  }

  lemma MembersText(members: seq<Member>, close: Str)
    requires |members| > 1
    ensures StringifyMembers(members) + close
         == StringifyMember(members[0]) + ([COMMA] + (StringifyMembers(members[1..]) + close))
    ensures [members[0]] + members[1..] == members
  {
    Reassociate(StringifyMember(members[0]), [COMMA], StringifyMembers(members[1..]), close);
  }

  /** `JSON.parse(JSON.stringify(v))` is `v`. */
  lemma RoundTrip(v: Json)
    requires IsJson(v)
    ensures Parse(Stringify(v)) == Some(v)
  {
    ValueRoundTrip(v, []);
    assert Stringify(v) + [] == Stringify(v);
  }

  /** No two JSON values have the same text. */
  lemma StringifyInjective(v: Json, w: Json)
    requires IsJson(v) && IsJson(w)
    ensures Stringify(v) == Stringify(w) <==> v == w
  {
    RoundTrip(v);
    RoundTrip(w);
  }
}
