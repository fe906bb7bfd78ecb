/** A compiled rewrite pattern matches exactly the paths its glob denotes. */
module RewriteCorrectness {
  import opened Common
  import opened Text
  import opened Regex
  import opened Rewrite

  // ---------------------------------------------------------------------------------
  // The expression each part of a pattern is read as

  const STAR := Capture(Cat(Plus(Dot), Empty))

  function OneRe(c: char): Re {
    if c == '*' then STAR else Chr(c)
  }

  function OptionRe(option: string): Re {
    if option == "" then Empty else Cat(OneRe(option[0]), OptionRe(option[1..]))
  }

  function GroupRe(options: seq<string>): Re {
    if options == [] then Empty
    else if |options| == 1 then OptionRe(options[0])
    else Alt(OptionRe(options[0]), GroupRe(options[1..]))
  }

  function ItemRe(item: Item): Re {
    match item
    case One(c) => OneRe(c)
    case Group(options) => GroupRe(options)
  }

  function ItemsRe(items: seq<Item>, tail: Re): Re {
    if items == [] then tail else Cat(ItemRe(items[0]), ItemsRe(items[1..], tail))
  }

  function SegmentRe(segment: Segment, finalize: bool, tail: Re): Re {
    if segment.negated then
      Cat(NotAhead(ItemsRe(segment.items, Cat(if finalize then End else Chr('/'), Empty))),
          Cat(Capture(Cat(Plus(if finalize then Dot else NotChr('/')), Empty)), tail))
    else
      ItemsRe(segment.items, tail)
  }

  function PathRe(segments: seq<Segment>): Re
    requires segments != []
  {
    if |segments| == 1 then SegmentRe(segments[0], true, Cat(End, Empty))
    else SegmentRe(segments[0], false, Cat(Chr('/'), PathRe(segments[1..])))
  }

  // ---------------------------------------------------------------------------------
  // The compiled text is read back as that expression

  /** `t` is read as `re`, leaving `rest`, and does not start with a quantifier. */
  ghost predicate Reads(t: string, re: Re, rest: string) {
    ParseAlternative(t) == Some(Parsed(re, rest)) && !Head(t, '+')
  }

  lemma ReadTerm(text: string, re: Re, t: string, tail: Re, rest: string)
    requires text != "" && text[0] != '|' && text[0] != ')' && text[0] != '+'
    requires ParseTerm(text + t) == Some(Parsed(re, t))
    requires Reads(t, tail, rest)
    ensures Reads(text + t, Cat(re, tail), rest)
  {
  }

  lemma ParseStar(t: string)
    requires !Head(t, '+')
    ensures ParseTerm("(.+)" + t) == Some(Parsed(STAR, t))
  {
    var u := "(.+)" + t;
    assert u[1..] == ".+)" + t;
    var v := u[1..];
    assert v[1..] == "+)" + t;
    assert v[1..][1..] == ")" + t;
    assert ParseTerm(v) == Some(Parsed(Plus(Dot), ")" + t));
    assert ParseAlternative(")" + t) == Some(Parsed(Empty, ")" + t));
    assert ParseAlternative(v) == Some(Parsed(Cat(Plus(Dot), Empty), ")" + t));
    assert (")" + t)[1..] == t;
    assert ParseDisjunction(v) == Some(Parsed(Cat(Plus(Dot), Empty), ")" + t));
    assert ParseBody(u, 1) == Some(Parsed(Cat(Plus(Dot), Empty), t));
  }

  lemma ParseChar(c: char, t: string)
    requires !Head(t, '+')
    ensures ParseTerm(EscapeChar(c) + t) == Some(Parsed(Chr(c), t))
  {
    var u := EscapeChar(c) + t;
    if IsSyntax(c) {
      assert u[2..] == t;
    } else {
      assert u[1..] == t;
    }
  }

  lemma ReadOne(c: char, t: string, tail: Re, rest: string)
    requires Reads(t, tail, rest)
    ensures Reads(Token(c) + t, Cat(OneRe(c), tail), rest)
  {
    if c == '*' {
      ParseStar(t);
    } else {
      ParseChar(c, t);
    }
    ReadTerm(Token(c), OneRe(c), t, tail, rest);
  }

  lemma {:induction false} ReadOption(option: string, t: string)
    requires t != "" && (t[0] == '|' || t[0] == ')')
    ensures Reads(Tokens(option) + t, OptionRe(option), t)
  {
    if option == "" {
      assert Tokens(option) + t == t;
    } else {
      ReadOption(option[1..], t);
      ReadOne(option[0], Tokens(option[1..]) + t, OptionRe(option[1..]), t);
      assert Token(option[0]) + (Tokens(option[1..]) + t) == Tokens(option) + t;
    }
  }

  lemma ReadAlternatives(text: string, a: Re, more: string, b: Re, t: string)
    requires ParseAlternative(text + "|" + more) == Some(Parsed(a, "|" + more))
    requires ParseDisjunction(more) == Some(Parsed(b, t))
    ensures ParseDisjunction(text + "|" + more) == Some(Parsed(Alt(a, b), t))
  {
    assert ("|" + more)[1..] == more;
  }

  lemma {:induction false} ReadGroup(options: seq<string>, t: string)
    requires Head(t, ')')
    ensures ParseDisjunction(Join(MapTokens(options), "|") + t) == Some(Parsed(GroupRe(options), t))
  {
    if options == [] {
      assert "" + t == t;
    } else if |options| == 1 {
      assert MapTokens(options[1..]) == [];
      ReadOption(options[0], t);
    } else {
      ReadGroup(options[1..], t);
      ReadMore(options[0], Join(MapTokens(options[1..]), "|") + t, GroupRe(options[1..]), t);
      JoinTokens(options, t);
    }
  }

  lemma ReadMore(option: string, more: string, re: Re, t: string)
    requires ParseDisjunction(more) == Some(Parsed(re, t))
    ensures ParseDisjunction(Tokens(option) + "|" + more) == Some(Parsed(Alt(OptionRe(option), re), t))
  {
    ReadOption(option, "|" + more);
    assert Tokens(option) + ("|" + more) == Tokens(option) + "|" + more;
    ReadAlternatives(Tokens(option), OptionRe(option), more, re, t);
  }

  lemma JoinTokens(options: seq<string>, t: string)
    requires |options| > 1
    ensures Join(MapTokens(options), "|") + t
         == Tokens(options[0]) + "|" + (Join(MapTokens(options[1..]), "|") + t)
  {
    assert MapTokens(options)[1..] == MapTokens(options[1..]);
    hide Tokens;
  }

  lemma ReadBrackets(inner: string, re: Re, t: string)
    requires ParseDisjunction(inner + (")" + t)) == Some(Parsed(re, ")" + t)) && !Head(t, '+')
    ensures ParseTerm("(?:" + inner + ")" + t) == Some(Parsed(re, t))
  {
    var u := "(?:" + inner + ")" + t;
    BracketText(inner, t);
    assert ParseBody(u, 3) == Some(Parsed(re, t)) by {
      hide ParseDisjunction;
    }
    hide ParseBody, ParseDisjunction;
    assert ParseAtom(u) == Some(Parsed(re, t));
    hide ParseAtom;
  }

  lemma BracketText(inner: string, t: string)
    ensures
      var u := "(?:" + inner + ")" + t;
      && |u| > 3 && u[0] == '(' && u[1] == '?' && u[2] == ':' && u[3..] == inner + (")" + t)
    ensures (")" + t)[0] == ')' && (")" + t)[1..] == t
  {
  }

  lemma ReadItem(item: Item, t: string, tail: Re, rest: string)
    requires Reads(t, tail, rest)
    ensures Reads(EmitItem(item) + t, Cat(ItemRe(item), tail), rest)
  {
    match item
    case One(c) =>
      ReadOne(c, t, tail, rest);
    case Group(options) =>
      ReadGroup(options, ")" + t);
      hide Join;
      ReadBrackets(Join(MapTokens(options), "|"), GroupRe(options), t);
      ReadTerm(EmitItem(item), GroupRe(options), t, tail, rest);
  }

  lemma {:induction false} ReadItems(items: seq<Item>, t: string, tail: Re, rest: string)
    requires Reads(t, tail, rest)
    ensures Reads(Emit(items) + t, ItemsRe(items, tail), rest)
  {
    if items == [] {
      assert Emit(items) + t == t;
    } else {
      var first, others := EmitItem(items[0]), Emit(items[1..]);
      var re := ItemsRe(items[1..], tail);
      assert Emit(items) == first + others && ItemsRe(items, tail) == Cat(ItemRe(items[0]), re);
      hide Reads, Emit, EmitItem, ItemRe, ItemsRe;
      ReadItems(items[1..], t, tail, rest);
      ReadItem(items[0], others + t, re, rest);
      Associates(first, others, t);
    }
  }

  /** What a segment is compiled to, in terms of its items. */
  function EmitSegment(segment: Segment, finalize: bool): string {
    if segment.negated then
      "(?!" + Emit(segment.items) + (if finalize then "$" else "/") + ")(" + (if finalize then "." else "[^/]") + "+)"
    else
      Emit(segment.items)
  }

  lemma SegmentAligned(text: string, finalize: bool)
    ensures CompileSegment(text, finalize) == EmitSegment(SegmentOf(text), finalize)
  {
    PassesAligned(if Head(text, '!') then text[1..] else text);
  }

  lemma ReadAssertion(finalize: bool, close: string)
    requires Head(close, ')')
    ensures Reads((if finalize then "$" else "/") + close, Cat(if finalize then End else Chr('/'), Empty), close)
  {
    var mark, re := if finalize then "$" else "/", if finalize then End else Chr('/');
    assert (mark + close)[1..] == close;
    ReadTerm(mark, re, close, Empty, close);
  }

  lemma ReadLookahead(items: seq<Item>, finalize: bool, t: string)
    ensures ParseTerm("(?!" + Emit(items) + (if finalize then "$" else "/") + ")" + t)
         == Some(Parsed(NotAhead(ItemsRe(items, Cat(if finalize then End else Chr('/'), Empty))), t))
  {
    var mark, re := if finalize then "$" else "/", if finalize then End else Chr('/');
    var close := ")" + t;
    ReadAssertion(finalize, close);
    ReadItems(items, mark + close, Cat(re, Empty), close);
    assert "(?!" + (Emit(items) + (mark + close)) == "(?!" + Emit(items) + mark + ")" + t;
    LookaheadOf(Emit(items) + (mark + close), ItemsRe(items, Cat(re, Empty)), t);
  }

  lemma LookaheadOf(body: string, re: Re, t: string)
    requires Reads(body, re, ")" + t)
    ensures ParseTerm("(?!" + body) == Some(Parsed(NotAhead(re), t))
  {
    var u := "(?!" + body;
    assert u[3..] == body;
    assert (")" + t)[1..] == t;
    assert ParseBody(u, 3) == Some(Parsed(re, t));
  }

  lemma ParseSegmentCapture(t: string)
    requires !Head(t, '+')
    ensures ParseTerm("([^/]+)" + t) == Some(Parsed(Capture(Cat(Plus(NotChr('/')), Empty)), t))
  {
    var u := "([^/]+)" + t;
    var v := u[1..];
    assert v == "[^/]+)" + t;
    assert v[4..] == "+)" + t;
    assert v[4..][1..] == ")" + t;
    assert (")" + t)[1..] == t;
    assert ParseTerm(v) == Some(Parsed(Plus(NotChr('/')), ")" + t));
    assert ParseAlternative(")" + t) == Some(Parsed(Empty, ")" + t));
    assert ParseAlternative(v) == Some(Parsed(Cat(Plus(NotChr('/')), Empty), ")" + t));
    assert ParseBody(u, 1) == Some(Parsed(Cat(Plus(NotChr('/')), Empty), t));
  }

  function CaptureRe(finalize: bool): Re {
    Capture(Cat(Plus(if finalize then Dot else NotChr('/')), Empty))
  }

  lemma ReadCapture(finalize: bool, t: string, tail: Re, rest: string)
    requires Reads(t, tail, rest)
    ensures Reads("(" + (if finalize then "." else "[^/]") + "+)" + t, Cat(CaptureRe(finalize), tail), rest)
  {
    if finalize {
      ParseStar(t);
      ReadTerm("(.+)", CaptureRe(finalize), t, tail, rest);
      assert "(" + "." + "+)" + t == "(.+)" + t;
    } else {
      ParseSegmentCapture(t);
      ReadTerm("([^/]+)", CaptureRe(finalize), t, tail, rest);
      assert "(" + "[^/]" + "+)" + t == "([^/]+)" + t;
    }
  }

  lemma ReadSegment(segment: Segment, finalize: bool, t: string, tail: Re, rest: string)
    requires Reads(t, tail, rest)
    ensures Reads(EmitSegment(segment, finalize) + t, SegmentRe(segment, finalize, tail), rest)
  {
    hide Emit;
    hide ItemsRe;
    hide ParseAlternative;
    if segment.negated {
      var mark, any := if finalize then "$" else "/", if finalize then "." else "[^/]";
      var look, capture := "(?!" + Emit(segment.items) + mark + ")", "(" + any + "+)" + t;
      ReadCapture(finalize, t, tail, rest);
      ReadLookahead(segment.items, finalize, capture);
      ReadTerm(look, NotAhead(ItemsRe(segment.items, Cat(if finalize then End else Chr('/'), Empty))),
               capture, Cat(CaptureRe(finalize), tail), rest);
      assert EmitSegment(segment, finalize) + t == look + capture;
    } else {
      ReadItems(segment.items, t, tail, rest);
    }
  }

  lemma {:induction false} ReadPath(parts: seq<string>)
    requires parts != []
    ensures Reads(Join(CompileSegments(parts), "/") + "$", PathRe(Segments(parts)), "")
  {
    SegmentAligned(parts[0], |parts| == 1);
    if |parts| == 1 {
      ReadLast(SegmentOf(parts[0]));
    } else {
      ReadPath(parts[1..]);
      ReadInner(SegmentOf(parts[0]), Join(CompileSegments(parts[1..]), "/") + "$", PathRe(Segments(parts[1..])));
      JoinSegments(parts);
    }
  }

  lemma ReadLast(segment: Segment)
    ensures Reads(EmitSegment(segment, true) + "$", SegmentRe(segment, true, Cat(End, Empty)), "")
  {
    assert ParseTerm("$" + "") == Some(Parsed(End, ""));
    ReadTerm("$", End, "", Empty, "");
    ReadSegment(segment, true, "$", Cat(End, Empty), "");
  }

  lemma ReadInner(segment: Segment, more: string, tail: Re)
    requires Reads(more, tail, "")
    ensures Reads(EmitSegment(segment, false) + "/" + more, SegmentRe(segment, false, Cat(Chr('/'), tail)), "")
  {
    hide ParseAlternative;
    ParseChar('/', more);
    ReadTerm("/", Chr('/'), more, tail, "");
    ReadSegment(segment, false, "/" + more, Cat(Chr('/'), tail), "");
    assert EmitSegment(segment, false) + ("/" + more) == EmitSegment(segment, false) + "/" + more;
  }

  lemma JoinSegments(parts: seq<string>)
    requires |parts| > 1
    ensures Join(CompileSegments(parts), "/") + "$"
         == CompileSegment(parts[0], false) + "/" + (Join(CompileSegments(parts[1..]), "/") + "$")
  {
    hide CompileSegment;
    assert CompileSegments(parts)[1..] == CompileSegments(parts[1..]);
  }

  /** Every compiled pattern is a regular expression, read as the pattern is written. */
  lemma CompiledParses(pattern: string)
    ensures ParsePattern(Compile(pattern)) == Some(Cat(Start, PathRe(Segments(Split(pattern, '/')))))
  {
    var parts := Split(pattern, '/');
    var t := Join(CompileSegments(parts), "/") + "$";
    ReadPath(parts);
    assert Compile(pattern) == "^" + t;
    hide Compile;
    hide Join;
    hide Split;
    hide PathRe;
    ReadStart(t, PathRe(Segments(parts)));
  }

  lemma ReadStart(t: string, re: Re)
    requires Reads(t, re, "")
    ensures ParsePattern("^" + t) == Some(Cat(Start, re))
  {
    assert ("^" + t)[1..] == t;
    assert ParseTerm("^" + t) == Some(Parsed(Start, t));
    ReadTerm("^", Start, t, re, "");
    hide ParseAlternative;
  }

  // ---------------------------------------------------------------------------------
  // The expression matches what the glob denotes

  lemma CatSplit(a: Re, b: Re, s: string, i: nat, j: nat) returns (m: nat)
    requires i <= j <= |s| && Matches(Cat(a, b), s, i, j)
    ensures i <= m <= j && Matches(a, s, i, m) && Matches(b, s, m, j)
  {
    m :| i <= m <= j && Matches(a, s, i, m) && Matches(b, s, m, j);
  }

  lemma CatJoin(a: Re, b: Re, s: string, i: nat, m: nat, j: nat)
    requires i <= m <= j <= |s| && Matches(a, s, i, m) && Matches(b, s, m, j)
    ensures Matches(Cat(a, b), s, i, j)
  {
  }

  /** `body` is a class of characters that `c` belongs to. */
  predicate Takes(body: Re, c: char) {
    (body.Dot? && !IsLineTerminator(c)) || (body.NotChr? && c != body.c)
  }

  lemma {:induction false} PlusMatches(body: Re, s: string, i: nat, j: nat)
    requires i <= j <= |s| && (body.Dot? || body.NotChr?)
    ensures Matches(Cat(Plus(body), Empty), s, i, j) <==> Matches(Plus(body), s, i, j)
    ensures Matches(Plus(body), s, i, j) <==> i < j && forall k: nat :: i <= k < j ==> Takes(body, s[k])
    decreases j - i
  {
    if i < j {
      PlusMatches(body, s, i + 1, j);
      assert Matches(body, s, i, i + 1) <==> Takes(body, s[i]);
      if i + 1 < j {
        assert Matches(Plus(body), s, i, j) <==> Matches(body, s, i, i + 1) && Matches(Plus(body), s, i + 1, j);
      } else {
        assert Matches(Plus(body), s, i, j) <==> Matches(body, s, i, j);
      }
    }
  }

  lemma OneMatches(c: char, s: string, i: nat, j: nat)
    requires i <= j <= |s|
    ensures Matches(OneRe(c), s, i, j) <==> OneDenotes(c, s[i..j])
  {
    if c == '*' {
      PlusMatches(Dot, s, i, j);
      assert Matches(OneRe(c), s, i, j) <==> Matches(Cat(Plus(Dot), Empty), s, i, j);
      var w := s[i..j];
      assert forall k: nat :: i <= k < j ==> w[k - i] == s[k];
      assert forall k: nat :: k < |w| ==> w[k] == s[i + k];
    }
  }

  lemma Slices(s: string, i: nat, m: nat, j: nat)
    requires i <= m <= j <= |s|
    ensures s[i..j][..m - i] == s[i..m] && s[i..j][m - i..] == s[m..j]
  {
  }

  lemma OptionJoins(option: string, s: string, i: nat, m: nat, j: nat)
    requires option != "" && i <= m <= j <= |s|
    requires OneDenotes(option[0], s[i..m]) && OptionDenotes(option[1..], s[m..j])
    ensures OptionDenotes(option, s[i..j])
  {
    hide OneDenotes;
    Slices(s, i, m, j);
    assert Cut(s[i..j], m - i);
  }

  lemma OptionSplits(option: string, s: string, i: nat, j: nat) returns (m: nat)
    requires option != "" && i <= j <= |s| && OptionDenotes(option, s[i..j])
    ensures i <= m <= j && OneDenotes(option[0], s[i..m]) && OptionDenotes(option[1..], s[m..j])
  {
    hide OneDenotes;
    var w := s[i..j];
    var k: nat :| Cut(w, k) && OneDenotes(option[0], w[..k]) && OptionDenotes(option[1..], w[k..]);
    m := i + k;
    Slices(s, i, m, j);
  }

  lemma {:induction false} OptionMatches(option: string, s: string, i: nat, j: nat)
    requires i <= j <= |s|
    ensures Matches(OptionRe(option), s, i, j) <==> OptionDenotes(option, s[i..j])
    decreases |option|
  {
    if option == "" {
      assert Matches(Empty, s, i, j) <==> i == j;
    } else {
      var one, others := OneRe(option[0]), OptionRe(option[1..]);
      assert OptionRe(option) == Cat(one, others);
      hide Matches, OneRe, OptionRe, OneDenotes, OptionDenotes;
      if Matches(Cat(one, others), s, i, j) {
        var m := CatSplit(one, others, s, i, j);
        OneMatches(option[0], s, i, m);
        OptionMatches(option[1..], s, m, j);
        OptionJoins(option, s, i, m, j);
      }
      if OptionDenotes(option, s[i..j]) {
        var m := OptionSplits(option, s, i, j);
        OneMatches(option[0], s, i, m);
        OptionMatches(option[1..], s, m, j);
        CatJoin(one, others, s, i, m, j);
      }
    }
  }

  lemma {:induction false} GroupMatches(options: seq<string>, s: string, i: nat, j: nat)
    requires i <= j <= |s|
    ensures Matches(GroupRe(options), s, i, j) <==> GroupDenotes(options, s[i..j])
    decreases |options|
  {
    if options != [] {
      OptionMatches(options[0], s, i, j);
      if |options| == 1 {
        assert options == [options[0]];
      } else {
        GroupMatches(options[1..], s, i, j);
        assert forall o :: o in options <==> o == options[0] || o in options[1..];
      }
    }
  }

  lemma ItemMatches(item: Item, s: string, i: nat, j: nat)
    requires i <= j <= |s|
    ensures Matches(ItemRe(item), s, i, j) <==> ItemDenotes(item, s[i..j])
  {
    match item
    case One(c) => OneMatches(c, s, i, j);
    case Group(options) => GroupMatches(options, s, i, j);
  }

  /** The items take a text they denote, and the rest of the expression what follows it. */
  ghost predicate Splits(items: seq<Item>, tail: Re, s: string, i: nat, m: nat, j: nat) {
    i <= m <= j <= |s| && Denotes(items, s[i..m]) && Matches(tail, s, m, j)
  }

  lemma {:induction false} ItemsMatch(items: seq<Item>, tail: Re, s: string, i: nat, j: nat) returns (m: nat)
    requires i <= j <= |s| && Matches(ItemsRe(items, tail), s, i, j)
    ensures Splits(items, tail, s, i, m, j)
    decreases |items|
  {
    if items == [] {
      m := i;
      assert s[i..i] == "";
    } else {
      hide Matches;
      hide ItemRe;
      hide ItemDenotes;
      var rest := items[1..];
      var k := CatSplit(ItemRe(items[0]), ItemsRe(rest, tail), s, i, j);
      ItemMatches(items[0], s, i, k);
      m := ItemsMatch(rest, tail, s, k, j);
      Slices(s, i, k, m);
      assert Cut(s[i..m], k - i);
    }
  }

  lemma FirstItem(items: seq<Item>, s: string, i: nat, m: nat) returns (k: nat)
    requires items != [] && i <= m <= |s| && Denotes(items, s[i..m])
    ensures i <= k <= m && ItemDenotes(items[0], s[i..k]) && Denotes(items[1..], s[k..m])
  {
    hide ItemDenotes;
    var w, rest := s[i..m], items[1..];
    var c: nat :| Cut(w, c) && ItemDenotes(items[0], w[..c]) && Denotes(rest, w[c..]);
    k := i + c;
    Slices(s, i, k, m);
  }

  lemma {:induction false} ItemsMatched(items: seq<Item>, tail: Re, s: string, i: nat, m: nat, j: nat)
    requires Splits(items, tail, s, i, m, j)
    ensures Matches(ItemsRe(items, tail), s, i, j)
    decreases |items|
  {
    if items == [] {
      assert i == m;
    } else {
      var re := ItemsRe(items[1..], tail);
      assert ItemsRe(items, tail) == Cat(ItemRe(items[0]), re);
      hide Matches, ItemRe, ItemsRe, ItemDenotes, Denotes;
      var k := FirstItem(items, s, i, m);
      ItemMatches(items[0], s, i, k);
      ItemsMatched(items[1..], tail, s, k, m, j);
      CatJoin(ItemRe(items[0]), re, s, i, k, j);
    }
  }

  lemma CatEmpty(re: Re, s: string, i: nat, j: nat)
    requires i <= j <= |s|
    ensures Matches(Cat(re, Empty), s, i, j) <==> Matches(re, s, i, j)
  {
    if Matches(Cat(re, Empty), s, i, j) {
      var m := CatSplit(re, Empty, s, i, j);
    }
    if Matches(re, s, i, j) {
      CatJoin(re, Empty, s, i, j, j);
    }
  }

  lemma EndLookahead(items: seq<Item>, s: string, i: nat)
    requires i <= |s|
    ensures Matches(NotAhead(ItemsRe(items, Cat(End, Empty))), s, i, i) <==> !Denotes(items, s[i..])
  {
    hide Denotes;
    hide ItemsRe;
    var w := s[i..];
    assert s[i..|s|] == w;
    if j: nat :| i <= j <= |s| && Matches(ItemsRe(items, Cat(End, Empty)), s, i, j) {
      var m := ItemsMatch(items, Cat(End, Empty), s, i, j);
      CatEmpty(End, s, m, j);
    }
    if Denotes(items, w) {
      CatEmpty(End, s, |s|, |s|);
      ItemsMatched(items, Cat(End, Empty), s, i, |s|, |s|);
    }
  }

  lemma SlashAhead(items: seq<Item>, s: string, i: nat, j: nat) returns (k: nat)
    requires i <= j <= |s| && Matches(ItemsRe(items, Cat(Chr('/'), Empty)), s, i, j)
    ensures i + k < |s| && s[i..][k] == '/' && Denotes(items, s[i..][..k])
  {
    var m := ItemsMatch(items, Cat(Chr('/'), Empty), s, i, j);
    hide Denotes;
    CatEmpty(Chr('/'), s, m, j);
    k := m - i;
    assert s[i..][..k] == s[i..m];
  }

  lemma SlashIsAhead(items: seq<Item>, s: string, i: nat, k: nat)
    requires i + k < |s| && s[i + k] == '/' && Denotes(items, s[i..i + k])
    ensures Matches(ItemsRe(items, Cat(Chr('/'), Empty)), s, i, i + k + 1)
  {
    hide Denotes;
    CatEmpty(Chr('/'), s, i + k, i + k + 1);
    ItemsMatched(items, Cat(Chr('/'), Empty), s, i, i + k, i + k + 1);
  }

  lemma SlashLookahead(items: seq<Item>, s: string, i: nat)
    requires i <= |s|
    ensures Matches(NotAhead(ItemsRe(items, Cat(Chr('/'), Empty))), s, i, i) <==> NoPrefixDenoted(items, s[i..])
  {
    hide Denotes;
    hide ItemsRe;
    if j: nat :| i <= j <= |s| && Matches(ItemsRe(items, Cat(Chr('/'), Empty)), s, i, j) {
      var k := SlashAhead(items, s, i, j);
    }
    if k: nat :| k < |s[i..]| && s[i..][k] == '/' && Denotes(items, s[i..][..k]) {
      assert s[i..i + k] == s[i..][..k];
      SlashIsAhead(items, s, i, k);
    }
  }

  lemma CaptureMatches(finalize: bool, s: string, i: nat, m: nat)
    requires i <= m <= |s|
    ensures Matches(CaptureRe(finalize), s, i, m) <==>
            if finalize then OneDenotes('*', s[i..m]) else i < m && '/' !in s[i..m]
  {
    if finalize {
      OneMatches('*', s, i, m);
    } else {
      PlusMatches(NotChr('/'), s, i, m);
      assert Matches(CaptureRe(finalize), s, i, m) <==> Matches(Cat(Plus(NotChr('/')), Empty), s, i, m);
      var w := s[i..m];
      assert forall k: nat :: i <= k < m ==> w[k - i] == s[k];
      assert forall k: nat :: k < |w| ==> w[k] == s[i + k];
    }
  }

  /** A compiled segment, with what follows it. */
  lemma LastMatches(segment: Segment, s: string, i: nat, j: nat)
    requires i <= j <= |s|
    ensures Matches(SegmentRe(segment, true, Cat(End, Empty)), s, i, j) <==> j == |s| && PathDenotes([segment], s[i..])
  {
    var Segment(negated, items) := segment;
    var re := SegmentRe(segment, true, Cat(End, Empty));
    if negated {
      var look := NotAhead(ItemsRe(items, Cat(End, Empty)));
      EndLookahead(items, s, i);
      if Matches(re, s, i, j) {
        var m := CatSplit(look, Cat(CaptureRe(true), Cat(End, Empty)), s, i, j);
        var n := CatSplit(CaptureRe(true), Cat(End, Empty), s, i, j);
        CatEmpty(End, s, n, j);
        CaptureMatches(true, s, i, j);
        assert s[i..j] == s[i..];
      }
      if j == |s| && PathDenotes([segment], s[i..]) {
        assert s[i..j] == s[i..];
        CaptureMatches(true, s, i, j);
        CatEmpty(End, s, j, j);
        CatJoin(CaptureRe(true), Cat(End, Empty), s, i, j, j);
        CatJoin(look, Cat(CaptureRe(true), Cat(End, Empty)), s, i, i, j);
      }
    } else {
      if Matches(re, s, i, j) {
        var m := ItemsMatch(items, Cat(End, Empty), s, i, j);
        CatEmpty(End, s, m, j);
        assert s[i..m] == s[i..];
      }
      if j == |s| && Denotes(items, s[i..]) {
        assert s[i..j] == s[i..];
        CatEmpty(End, s, j, j);
        ItemsMatched(items, Cat(End, Empty), s, i, j, j);
      }
    }
  }

  lemma SlashThen(tail: Re, s: string, i: nat, j: nat)
    requires i <= j <= |s|
    ensures Matches(Cat(Chr('/'), tail), s, i, j) <==> i < j && s[i] == '/' && Matches(tail, s, i + 1, j)
  {
    if Matches(Cat(Chr('/'), tail), s, i, j) {
      var m := CatSplit(Chr('/'), tail, s, i, j);
    }
    if i < j && s[i] == '/' && Matches(tail, s, i + 1, j) {
      CatJoin(Chr('/'), tail, s, i, i + 1, j);
    }
  }

  /** An inner segment ends at a `/` and the rest of the expression matches after it. */
  ghost predicate InnerSplits(segment: Segment, tail: Re, s: string, i: nat, m: nat, j: nat) {
    i <= m < j <= |s| && s[m] == '/' && InnerDenotes(segment, s[i..], m - i) && Matches(tail, s, m + 1, j)
  }

  lemma InnerMatch(segment: Segment, tail: Re, s: string, i: nat, j: nat) returns (m: nat)
    requires i <= j <= |s| && Matches(SegmentRe(segment, false, Cat(Chr('/'), tail)), s, i, j)
    ensures InnerSplits(segment, tail, s, i, m, j)
  {
    hide Denotes;
    var Segment(negated, items) := segment;
    var slash := Cat(Chr('/'), tail);
    if negated {
      m := NegatedMatch(items, slash, s, i, j);
    } else {
      hide Matches;
      m := ItemsMatch(items, slash, s, i, j);
    }
    hide Matches, ItemsRe, NoPrefixDenoted;
    SlashThen(tail, s, m, j);
    assert s[i..][..m - i] == s[i..m];
  }

  /** A negated segment takes a text without a slash, of which no prefix that a slash follows is denoted. */
  lemma NegatedMatch(items: seq<Item>, slash: Re, s: string, i: nat, j: nat) returns (m: nat)
    requires i <= j <= |s|
    requires Matches(Cat(NotAhead(ItemsRe(items, Cat(Chr('/'), Empty))), Cat(CaptureRe(false), slash)), s, i, j)
    ensures i <= m <= j && Matches(slash, s, m, j)
    ensures NoPrefixDenoted(items, s[i..]) && i < m && forall k :: i <= k < m ==> s[k] != '/'
  {
    hide Denotes;
    var look := NotAhead(ItemsRe(items, Cat(Chr('/'), Empty)));
    var l := CatSplit(look, Cat(CaptureRe(false), slash), s, i, j);
    assert l == i;
    m := CatSplit(CaptureRe(false), slash, s, i, j);
    SlashLookahead(items, s, i);
    CaptureMatches(false, s, i, m);
  }

  lemma InnerMatched(segment: Segment, tail: Re, s: string, i: nat, m: nat, j: nat)
    requires InnerSplits(segment, tail, s, i, m, j)
    ensures Matches(SegmentRe(segment, false, Cat(Chr('/'), tail)), s, i, j)
  {
    var Segment(negated, items) := segment;
    var slash := Cat(Chr('/'), tail);
    SlashThen(tail, s, m, j);
    assert s[i..][..m - i] == s[i..m];
    if negated {
      var look := NotAhead(ItemsRe(items, Cat(Chr('/'), Empty)));
      SlashLookahead(items, s, i);
      CaptureMatches(false, s, i, m);
      CatJoin(CaptureRe(false), slash, s, i, m, j);
      CatJoin(look, Cat(CaptureRe(false), slash), s, i, i, j);
    } else {
      ItemsMatched(items, slash, s, i, m, j);
    }
  }

  lemma {:induction false} PathMatch(segments: seq<Segment>, s: string, i: nat, j: nat)
    requires segments != [] && i <= j <= |s| && Matches(PathRe(segments), s, i, j)
    ensures j == |s| && PathDenotes(segments, s[i..])
    decreases |segments|
  {
    hide Matches;
    hide InnerDenotes;
    if |segments| == 1 {
      assert segments == [segments[0]];
      LastMatches(segments[0], s, i, j);
    } else {
      var w := s[i..];
      var m := InnerMatch(segments[0], PathRe(segments[1..]), s, i, j);
      PathMatch(segments[1..], s, m + 1, j);
      assert w[m - i + 1..] == s[m + 1..] && w[m - i] == '/';
    }
  }

  lemma TailSlice(s: string, i: nat, k: nat)
    requires i + k <= |s|
    ensures s[i..][k..] == s[i + k..]
  {
  }

  lemma InnerOf(segments: seq<Segment>, s: string, i: nat) returns (m: nat)
    requires |segments| > 1 && i <= |s| && PathDenotes(segments, s[i..])
    ensures i <= m < |s| && s[m] == '/' && InnerDenotes(segments[0], s[i..], m - i)
    ensures PathDenotes(segments[1..], s[m + 1..])
  {
    hide InnerDenotes, PathDenotes;
    var k := InnerEnd(segments, s[i..]);
    TailSlice(s, i, k + 1);
    m := i + k;
  }

  lemma InnerEnd(segments: seq<Segment>, w: string) returns (k: nat)
    requires |segments| > 1 && PathDenotes(segments, w)
    ensures k < |w| && w[k] == '/' && InnerDenotes(segments[0], w, k) && PathDenotes(segments[1..], w[k + 1..])
  {
    hide InnerDenotes;
    k :| k < |w| && w[k] == '/' && InnerDenotes(segments[0], w, k) && PathDenotes(segments[1..], w[k + 1..]);
  }

  lemma PathReOf(segments: seq<Segment>)
    requires segments != []
    ensures PathRe(segments) ==
      if |segments| == 1 then SegmentRe(segments[0], true, Cat(End, Empty))
      else SegmentRe(segments[0], false, Cat(Chr('/'), PathRe(segments[1..])))
  {
  }

  lemma {:induction false} PathMatched(segments: seq<Segment>, s: string, i: nat)
    requires segments != [] && i <= |s| && PathDenotes(segments, s[i..])
    ensures Matches(PathRe(segments), s, i, |s|)
    decreases |segments|
  {
    hide Matches, InnerDenotes, PathRe, SegmentRe;
    PathReOf(segments);
    if |segments| == 1 {
      LastMatches(segments[0], s, i, |s|);
    } else {
      hide PathDenotes;
      var m := InnerOf(segments, s, i);
      PathMatched(segments[1..], s, m + 1);
      InnerMatched(segments[0], PathRe(segments[1..]), s, i, m, |s|);
    }
  }

  /** For every pattern and every path: the regular expression matches the path just when the glob denotes it. */
  lemma CompileCorrect(pattern: string, path: string)
    ensures Exec(Compile(pattern), path) <==> PatternDenotes(pattern, path)
  {
    var segments := Segments(Split(pattern, '/'));
    var re := Cat(Start, PathRe(segments));
    CompiledParses(pattern);
    assert path[0..] == path;
    if i: nat, j: nat :| i <= j <= |path| && Matches(re, path, i, j) {
      var m := CatSplit(Start, PathRe(segments), path, i, j);
      PathMatch(segments, path, 0, j);
    }
    if PatternDenotes(pattern, path) {
      PathMatched(segments, path, 0);
      CatJoin(Start, PathRe(segments), path, 0, 0, |path|);
    }
  }
}
