/** What `JSON.stringify` writes, unit by unit (section 25.5.2 of ECMA-262). */
module JsonTexts {
  import opened Common
  import opened Json

  // ---------------------------------------------------------------------------------
  // What the text of a value is

  /** The texts, with a comma between each two and nothing else. */
  function WithCommas(texts: seq<Str>): Str {
    if texts == [] then []
    else if |texts| == 1 then texts[0]
    else WithCommas(texts[..|texts| - 1]) + [0x2C] + texts[|texts| - 1]
  }

  /** The texts of the items, or of the members. */
  ghost predicate AreItems(texts: seq<Str>, items: seq<Json>) {
    |texts| == |items| && forall i :: 0 <= i < |items| ==> texts[i] == Stringify(items[i])
  }

  ghost predicate AreMembers(texts: seq<Str>, members: seq<Member>) {
    |texts| == |members| && forall i :: 0 <= i < |members| ==>
      texts[i] == [0x22] + Quote(members[i].key) + [0x22, 0x3A] + Stringify(members[i].value)
  }

  lemma {:induction false} CommaFirst(texts: seq<Str>)
    requires |texts| > 1
    ensures WithCommas(texts) == texts[0] + [0x2C] + WithCommas(texts[1..])
  {
    var init, last := texts[..|texts| - 1], texts[|texts| - 1];
    if |init| == 1 {
      assert texts[1..] == [last];
    } else {
      CommaFirst(init);
      assert init[1..] == texts[1..][..|texts[1..]| - 1];
      assert WithCommas(texts[1..]) == WithCommas(init[1..]) + [0x2C] + last;
      hide WithCommas;
      Associates(texts[0] + [0x2C], WithCommas(init[1..]), [0x2C]);
      Associates(texts[0] + [0x2C], WithCommas(init[1..]) + [0x2C], last);
    }
  }

  lemma {:induction false} ItemsText(items: seq<Json>) returns (texts: seq<Str>)
    ensures AreItems(texts, items) && StringifyItems(items) == WithCommas(texts)
  {
    texts := [];
    if items != [] {
      var rest := ItemsText(items[1..]);
      texts := [Stringify(items[0])] + rest;
      assert texts[1..] == rest;
      if |items| > 1 {
        CommaFirst(texts);
      }
      hide Stringify, WithCommas;
    }
  }

  lemma {:induction false} MembersText(members: seq<Member>) returns (texts: seq<Str>)
    ensures AreMembers(texts, members) && StringifyMembers(members) == WithCommas(texts)
  {
    texts := [];
    if members != [] {
      var rest := MembersText(members[1..]);
      texts := [StringifyMember(members[0])] + rest;
      assert texts[1..] == rest;
      if |members| > 1 {
        CommaFirst(texts);
      }
      hide Stringify, WithCommas, Quote;
    }
  }

  /** The text of a value has no character more than its parts and what stands between them. */
  lemma StringifyIs(v: Json) returns (texts: seq<Str>)
    ensures v.Null? ==> Stringify(v) == Ascii("null")
    ensures v.Bool? ==> Stringify(v) == Ascii(if v.flag then "true" else "false")
    ensures v.Number? ==> Stringify(v) == v.text
    ensures v.Text? ==> Stringify(v) == [0x22] + Quote(v.chars) + [0x22]
    ensures v.Array? ==> AreItems(texts, v.items) && Stringify(v) == [0x5B] + WithCommas(texts) + [0x5D]
    ensures v.Object? ==> AreMembers(texts, v.members) && Stringify(v) == [0x7B] + WithCommas(texts) + [0x7D]
  {
    texts := [];
    match v
    case Array(items) =>
      texts := ItemsText(items);
    case Object(members) =>
      texts := MembersText(members);
    case _ =>
      assert NULL == Ascii("null") && TRUE == Ascii("true") && FALSE == Ascii("false");
  }

  /** Four hexadecimal digits, small letters, of the value `n`. */
  predicate AreHexDigits(h: Str, n: int) {
    && |h| == 4 && (forall i :: 0 <= i < 4 ==> 0x30 <= h[i] <= 0x39 || 0x61 <= h[i] <= 0x66)
    && n == ((Digit(h[0]) * 16 + Digit(h[1])) * 16 + Digit(h[2])) * 16 + Digit(h[3])
  }

  function Digit(c: int): int {
    if c <= 0x39 then c - 0x30 else c - 0x61 + 10
  }

  /** The units with a short escape, and the letters of those: quote, backslash, `b`, `t`, `n`, `f` and `r`. */
  const SHORT: map<int, int> := map[
    0x22 := 0x22, 0x5C := 0x5C, 0x08 := 0x62, 0x09 := 0x74, 0x0A := 0x6E, 0x0C := 0x66, 0x0D := 0x72]

  /**
   * A unit by itself: it has a short escape, or else a control character or a surrogate is escaped by its digits, and
   * anything else stands for itself.
   */
  lemma QuotedUnit(c: Unit)
    ensures c in SHORT ==> Quote([c]) == [0x5C, SHORT[c]]
    ensures c !in SHORT && (c < 0x20 || 0xD800 <= c < 0xE000) ==>
      |Quote([c])| == 6 && Quote([c])[..2] == [0x5C, 0x75] && AreHexDigits(Quote([c])[2..], c)
    ensures c !in SHORT && c >= 0x20 && !(0xD800 <= c < 0xE000) ==> Quote([c]) == [c]
  {
    assert [c][1..] == [] && Quote([c]) == QuoteUnit(c) + Quote([]) && Quote([]) == [];
    hide Quote;
    assert QuoteUnit(c) + [] == QuoteUnit(c);
    ShortIs(c);
    hide ShortEscape, AreHexDigits;
    DigitsAre(c);
    hide UnicodeEscape;
  }

  lemma ShortIs(c: Unit)
    ensures c in SHORT <==> ShortEscape(c) != 0
    ensures c in SHORT ==> ShortEscape(c) == SHORT[c]
  {
  }

  lemma DigitsAre(c: Unit)
    ensures |UnicodeEscape(c)| == 6 && UnicodeEscape(c)[..2] == [0x5C, 0x75] && AreHexDigits(UnicodeEscape(c)[2..], c)
  {
    forall n: nat | n < 16
      ensures Digit(HexDigit(n)) == n && (0x30 <= HexDigit(n) <= 0x39 || 0x61 <= HexDigit(n) <= 0x66)
    {
    }
    hide Digit, HexDigit;
  }

  lemma QuoteStep(s: Str, k: nat)
    requires s != [] && k == if |s| > 1 && IsLead(s[0]) && IsTrail(s[1]) then 2 else 1
    ensures Quote(s) == (if k == 2 then s[..2] else QuoteUnit(s[0])) + Quote(s[k..])
  {
  }

  /** Each unit is quoted by itself, but for a surrogate pair, which stays. */
  lemma {:induction false} QuoteOf(s: Str, t: Str)
    requires s != [] && t != [] && IsLead(s[|s| - 1]) ==> !IsTrail(t[0])
    ensures Quote(s + t) == Quote(s) + Quote(t)
    decreases |s|
  {
    if s == [] {
      assert s + t == t && Quote(s) == [] && [] + Quote(t) == Quote(t);
    } else {
      var k := if |s| > 1 && IsLead(s[0]) && IsTrail(s[1]) then 2 else 1;
      assert (s + t)[..k] == s[..k] && (s + t)[k..] == s[k..] + t && (s + t)[0] == s[0];
      assert |s| == 1 && |s + t| > 1 ==> (s + t)[1] == t[0];
      QuoteStep(s, k);
      QuoteStep(s + t, k);
      hide Quote, QuoteUnit;
      QuoteOf(s[k..], t);
      Associates(if k == 2 then s[..2] else QuoteUnit(s[0]), Quote(s[k..]), Quote(t));
    }
  }

  lemma PairStays(lead: Unit, trail: Unit)
    requires IsLead(lead) && IsTrail(trail)
    ensures Quote([lead, trail]) == [lead, trail]
  {
    assert [lead, trail][2..] == [] && [lead, trail][..2] == [lead, trail];
  }

  // ---------------------------------------------------------------------------------
  // The members of a parsed object

  ghost predicate HasDistinctKeys(v: Json) {
    v.Object? ==> forall i, j :: 0 <= i < j < |v.members| ==> v.members[i].key != v.members[j].key
  }

  lemma BeforeIsDistinct(m: Member, members: seq<Member>)
    requires HasDistinctKeys(Object(members))
    ensures HasDistinctKeys(Object(Before(m, members)))
  {
    var i := Find(members, m.key);
    if i < |members| {
      var rest := members[..i] + members[i + 1..];
      forall k | 0 <= k < |rest|
        ensures rest[k] == members[if k < i then k else k + 1] && rest[k].key != members[i].key
      {
      }
    }
  }

  lemma {:induction false} MembersAreDistinct(t: Str)
    ensures ParseMembers(t).Some? ==> HasDistinctKeys(Object(ParseMembers(t).value.value))
    decreases |t|
  {
    var member := ParseMember(t);
    if member.Some? && Head(SkipSpace(member.value.rest), COMMA) {
      var more := ParseMembers(SkipSpace(member.value.rest)[1..]);
      MembersAreDistinct(SkipSpace(member.value.rest)[1..]);
      if more.Some? {
        BeforeIsDistinct(member.value.value, more.value.value);
      }
    }
  }

  lemma ObjectIsDistinct(u: Str)
    requires u != []
    ensures ParseObject(u).Some? ==> HasDistinctKeys(ParseObject(u).value.value)
  {
    MembersAreDistinct(u[1..]);
    hide ParseMembers;
  }

  lemma OnlyObjects(u: Str)
    requires u != []
    ensures ParseText(u).Some? ==> !ParseText(u).value.value.Object?
    ensures ParseArray(u).Some? ==> !ParseArray(u).value.value.Object?
    ensures ParseWord(u).Some? ==> !ParseWord(u).value.value.Object?
  {
    hide ParseItems, ParseString, IsNumber, NumberRun;
  }

  /** An object is never parsed with the same key twice. */
  lemma ParsedIsDistinct(t: Str)
    ensures Parse(t).Some? ==> HasDistinctKeys(Parse(t).value)
  {
    var u := SkipSpace(t);
    if u != [] {
      ObjectIsDistinct(u);
      OnlyObjects(u);
    }
    hide ParseObject, ParseText, ParseArray, ParseWord, SkipSpace;
  }
}
