/** Scoping the rewrite rules of an origin under its path, and what the scoped rules can match. */
module OriginRules {
  import opened Common
  import opened Text
  import opened Regex
  import opened Rewrite
  import opened RewriteCorrectness

  function FormatUri(path: string): string {
    if Head(path, '/') then path else "/" + path
  }

  predicate EndsWithSlash(path: string) {
    path != "" && path[|path| - 1] == '/'
  }

  /** `substring` swaps its bounds when they are crossed, so a lone `/` stays. */
  function TrimSlashes(path: string): string {
    if Head(path, '/') && EndsWithSlash(path) then
      if |path| == 1 then path else path[1..|path| - 1]
    else if EndsWithSlash(path) then path[..|path| - 1]
    else if Head(path, '/') then path[1..]
    else path
  }

  function MapTrim(paths: seq<string>): seq<string> {
    if paths == [] then [] else [TrimSlashes(paths[0])] + MapTrim(paths[1..])
  }

  function CombineUri(paths: seq<string>): string {
    "/" + Join(MapTrim(paths), "/")
  }

  /** The part of an origin's path before its first star, as a path. */
  function BaseUri(pathPattern: Option<string>): string {
    FormatUri(Split(if pathPattern.Some? then pathPattern.value else "/", '*')[0])
  }

  function Scope(base: string, source: string): string {
    if base <= source then source else CombineUri([base, source])
  }

  lemma CombineTwo(base: string, source: string)
    ensures CombineUri([base, source]) == "/" + TrimSlashes(base) + "/" + TrimSlashes(source)
  {
    hide TrimSlashes;
    assert [base, source][1..] == [source];
    assert MapTrim([source]) == [TrimSlashes(source)];
    var trimmed := [TrimSlashes(base), TrimSlashes(source)];
    assert MapTrim([base, source]) == trimmed;
    assert trimmed[1..] == [TrimSlashes(source)];
    assert Join(trimmed, "/") == TrimSlashes(base) + "/" + TrimSlashes(source);
    assert "/" + (TrimSlashes(base) + "/" + TrimSlashes(source)) == "/" + TrimSlashes(base) + "/" + TrimSlashes(source);
  }

  /** A scoped rule starts with the base of its origin, and scoping it again changes nothing. */
  lemma ScopedUnderBase(base: string, source: string)
    requires Head(base, '/')
    ensures base <= Scope(base, source)
    ensures Scope(base, Scope(base, source)) == Scope(base, source)
  {
    if !(base <= source) {
      CombineTwo(base, source);
      var trimmed := TrimSlashes(base);
      if |base| == 1 {
        assert base == "/";
      } else if EndsWithSlash(base) {
        assert base == "/" + trimmed + "/";
      } else {
        assert base == "/" + trimmed;
      }
    }
  }

  class RewriteRule {
    var source: string
    var pattern: string

    constructor (source: string)
      ensures this.source == source
    {
      this.source := source;
      pattern := "";
    }
  }

  /** Scopes one rule and compiles it, in place. */
  method ScopeRule(rule: RewriteRule, baseUri: string)
    modifies rule
    ensures rule.source == Scope(baseUri, old(rule.source))
    ensures Head(baseUri, '/') ==> IsScoped(baseUri, old(rule.source), rule.source)
    ensures rule.pattern == Compile(rule.source)
  {
    if Head(baseUri, '/') {
      ScopeIs(baseUri, rule.source);
    }
    hide IsScoped, Compile;
    if !(baseUri <= rule.source) {
      rule.source := CombineUri([baseUri, rule.source]);
    }
    rule.pattern := Compile(rule.source);
  }

  /** The part of the text before its first star. */
  predicate IsBeforeStar(text: string, first: string) {
    first <= text && '*' !in first && (|first| < |text| ==> text[|first|] == '*')
  }

  /** The part of the origin's path before its first star, with a slash in front if it has none. */
  ghost predicate IsBase(pathPattern: Option<string>, base: string) {
    exists first ::
      && IsBeforeStar(if pathPattern.Some? then pathPattern.value else "/", first)
      && base == if Head(first, '/') then first else "/" + first
  }

  lemma {:induction false} SplitBeforeStar(path: string)
    ensures IsBeforeStar(path, Split(path, '*')[0])
  {
    if path != "" && path[0] != '*' {
      SplitBeforeStar(path[1..]);
      BeforeStarNext(path, Split(path[1..], '*')[0]);
    }
  }

  lemma BeforeStarNext(path: string, first: string)
    requires path != "" && path[0] != '*' && IsBeforeStar(path[1..], first)
    ensures IsBeforeStar(path, [path[0]] + first)
  {
    assert path == [path[0]] + path[1..];
  }

  lemma BaseIs(pathPattern: Option<string>)
    ensures IsBase(pathPattern, BaseUri(pathPattern))
  {
    var path := if pathPattern.Some? then pathPattern.value else "/";
    SplitBeforeStar(path);
    hide Split, IsBeforeStar;
  }

  lemma BaseStartsWithSlash(pathPattern: Option<string>)
    ensures Head(BaseUri(pathPattern), '/')
  {
  }

  /** Scopes every rule and compiles it. A rule listed twice is scoped as if listed once. */
  method ApplyRewriteBaseUri(rules: seq<RewriteRule>, pathPattern: Option<string>)
    modifies rules
    ensures IsBase(pathPattern, BaseUri(pathPattern))
    ensures forall r :: r in rules ==> r.source == Scope(BaseUri(pathPattern), old(r.source))
    ensures forall r :: r in rules ==> IsScoped(BaseUri(pathPattern), old(r.source), r.source)
    ensures forall r :: r in rules ==> r.pattern == Compile(r.source)
    ensures Literal(BaseUri(pathPattern)) ==> forall r, uri :: r in rules ==>
      (Exec(r.pattern, uri) <==> IsRuleMatch(BaseUri(pathPattern), old(r.source), uri))
  {
    var baseUri := BaseUri(pathPattern);
    BaseStartsWithSlash(pathPattern);
    BaseIs(pathPattern);
    hide Scope, Compile, BaseUri, Head, IsBase, IsScoped, Literal, Exec, IsRuleMatch;
    for i := 0 to |rules|
      invariant forall k :: 0 <= k < i ==> rules[k].source == Scope(baseUri, old(rules[k].source))
      invariant forall k :: 0 <= k < i ==> rules[k].pattern == Compile(rules[k].source)
      invariant forall r :: r in rules ==> r.source == old(r.source) || r.source == Scope(baseUri, old(r.source))
    {
      ScopedUnderBase(baseUri, old(rules[i].source));
      ScopeRule(rules[i], baseUri);
    }
    forall r | r in rules
      ensures IsScoped(baseUri, old(r.source), r.source)
    {
      ScopeIs(baseUri, old(r.source));
    }
    if Literal(baseUri) {
      forall r, uri | r in rules
        ensures Exec(r.pattern, uri) <==> IsRuleMatch(baseUri, old(r.source), uri)
      {
        RuleMatches(baseUri, old(r.source), r.source, uri);
      }
    }
  }

  // ---------------------------------------------------------------------------------
  // A literal base

  /** No star, no group, and no negated segment. */
  ghost predicate Literal(base: string) {
    && (forall i :: 0 <= i < |base| ==> base[i] != '*' && base[i] != '{')
    && (forall i :: 0 < i < |base| && base[i] == '!' ==> base[i - 1] != '/')
  }

  lemma StripItem(c: char, items: seq<Item>, w: string)
    requires c != '*' && Denotes([One(c)] + items, w)
    ensures w != "" && w[0] == c && Denotes(items, w[1..])
  {
    assert ([One(c)] + items)[1..] == items;
    var k: nat :| Cut(w, k) && ItemDenotes(One(c), w[..k]) && Denotes(items, w[k..]);
    assert k == |w[..k]| == 1;
    assert w[0] == w[..k][0];
  }

  lemma StripChar(c: char, items: seq<Item>, rest: seq<Segment>, w: string)
    requires c != '*' && c != '/' && PathDenotes([Segment(false, [One(c)] + items)] + rest, w)
    ensures w != "" && w[0] == c && PathDenotes([Segment(false, items)] + rest, w[1..])
  {
    var head, head' := Segment(false, [One(c)] + items), Segment(false, items);
    if rest == [] {
      StripItem(c, items, w);
    } else {
      assert ([head] + rest)[1..] == rest && ([head'] + rest)[1..] == rest;
      var k: nat :| k < |w| && w[k] == '/' && InnerDenotes(head, w, k) && PathDenotes(rest, w[k + 1..]);
      StripItem(c, items, w[..k]);
      assert w[1..][..k - 1] == w[..k][1..] && w[1..][k..] == w[k + 1..];
      assert InnerDenotes(head', w[1..], k - 1);
    }
  }

  lemma StripSlash(rest: seq<Segment>, w: string)
    requires rest != [] && PathDenotes([Segment(false, [])] + rest, w)
    ensures w != "" && w[0] == '/' && PathDenotes(rest, w[1..])
  {
    assert ([Segment(false, [])] + rest)[1..] == rest;
    var k: nat :| k < |w| && w[k] == '/' && InnerDenotes(Segment(false, []), w, k) && PathDenotes(rest, w[k + 1..]);
    assert k == |w[..k]| == 0;
  }

  lemma LiteralTail(prefix: string)
    requires Literal(prefix) && prefix != ""
    ensures Literal(prefix[1..])
  {
    var rest := prefix[1..];
    forall i | 0 <= i < |rest|
      ensures rest[i] != '*' && rest[i] != '{'
      ensures i > 0 && rest[i] == '!' ==> rest[i - 1] != '/'
    {
      assert rest[i] == prefix[i + 1];
      assert i > 0 ==> rest[i - 1] == prefix[i];
    }
  }

  /** What a pattern denotes starts with its literal prefix. */
  lemma {:induction false} LiteralPrefix(prefix: string, segment: string, parts: seq<string>, w: string)
    requires Literal(prefix) && prefix <= Join([segment] + parts, "/") && '/' !in segment
    requires forall p :: p in parts ==> '/' !in p
    requires PathDenotes([Segment(false, Items(segment))] + Segments(parts), w)
    ensures prefix <= w
    decreases |prefix|
  {
    if prefix != "" {
      LiteralTail(prefix);
      var rest := prefix[1..];
      if segment != "" {
        FirstOfSegment(prefix, segment, parts, w);
        hide Join, PathDenotes, Items, Segments, Literal;
        LiteralPrefix(rest, segment[1..], parts, w[1..]);
      } else {
        FirstIsSlash(prefix, parts, w);
        if rest != "" {
          SlashThenSegment(prefix, parts, w);
          hide Join, PathDenotes, Items, Segments, Literal;
          LiteralPrefix(rest, parts[0], parts[1..], w[1..]);
        }
      }
    }
  }

  lemma FirstOfSegment(prefix: string, segment: string, parts: seq<string>, w: string)
    requires Literal(prefix) && prefix != "" && segment != "" && '/' !in segment
    requires prefix <= Join([segment] + parts, "/")
    requires PathDenotes([Segment(false, Items(segment))] + Segments(parts), w)
    ensures w != "" && w[0] == prefix[0] && prefix[1..] <= Join([segment[1..]] + parts, "/")
    ensures PathDenotes([Segment(false, Items(segment[1..]))] + Segments(parts), w[1..])
  {
    var c, text := segment[0], Join([segment] + parts, "/");
    JoinStrip(segment, parts);
    assert text[0] == c && text[1..] == Join([segment[1..]] + parts, "/");
    assert prefix[0] == c && c != '*' && c != '{' && c != '/';
    assert Items(segment) == [One(c)] + Items(segment[1..]);
    hide Join, PathDenotes, Segments, Items;
    StripChar(c, Items(segment[1..]), Segments(parts), w);
  }

  lemma FirstIsSlash(prefix: string, parts: seq<string>, w: string)
    requires prefix != "" && prefix <= Join([""] + parts, "/")
    requires PathDenotes([Segment(false, Items(""))] + Segments(parts), w)
    ensures parts != [] && prefix[0] == '/' && prefix[1..] <= Join(parts, "/")
    ensures w != "" && w[0] == '/' && PathDenotes(Segments(parts), w[1..])
  {
    hide PathDenotes;
    JoinEmpty(parts);
    hide Join;
    StripSlash(Segments(parts), w);
  }

  lemma JoinEmpty(parts: seq<string>)
    ensures parts == [] ==> Join([""] + parts, "/") == ""
    ensures parts != [] ==> Join([""] + parts, "/") == "/" + Join(parts, "/")
  {
    assert parts != [] ==> ([""] + parts)[1..] == parts;
  }

  lemma SlashThenSegment(prefix: string, parts: seq<string>, w: string)
    requires Literal(prefix) && |prefix| > 1 && prefix[0] == '/' && parts != [] && prefix[1..] <= Join(parts, "/")
    requires (forall p :: p in parts ==> '/' !in p) && w != "" && PathDenotes(Segments(parts), w[1..])
    ensures parts == [parts[0]] + parts[1..]
    ensures PathDenotes([Segment(false, Items(parts[0]))] + Segments(parts[1..]), w[1..])
  {
    hide Join, PathDenotes, Items;
    JoinFirst(parts);
    assert prefix[1..][0] == prefix[1] == Join(parts, "/")[0];
    FirstSegment(parts);
  }

  lemma JoinFirst(parts: seq<string>)
    requires parts != []
    ensures parts[0] != "" ==> Join(parts, "/") != "" && Join(parts, "/")[0] == parts[0][0]
  {
  }

  lemma FirstSegment(parts: seq<string>)
    requires parts != [] && !(parts[0] != "" && parts[0][0] == '!')
    ensures Segments(parts) == [Segment(false, Items(parts[0]))] + Segments(parts[1..])
    ensures parts == [parts[0]] + parts[1..]
  {
    hide Items;
  }

  lemma JoinStrip(segment: string, parts: seq<string>)
    requires segment != ""
    ensures Join([segment] + parts, "/") == [segment[0]] + Join([segment[1..]] + parts, "/")
  {
    assert ([segment] + parts)[1..] == parts == ([segment[1..]] + parts)[1..];
    assert segment == [segment[0]] + segment[1..];
  }

  /** Every path a scoped rule matches lies under the base of its origin, when the base is literal. */
  lemma MatchedUnderBase(pathPattern: Option<string>, source: string, uri: string)
    requires Literal(BaseUri(pathPattern))
    requires Exec(Compile(Scope(BaseUri(pathPattern), source)), uri)
    ensures BaseUri(pathPattern) <= uri
  {
    var base := BaseUri(pathPattern);
    var pattern := Scope(base, source);
    CompileCorrect(pattern, uri);
    ScopedUnderBase(base, source);
    var parts := Split(pattern, '/');
    assert pattern[0] == '/';
    assert parts[0] == "";
    assert parts == [""] + parts[1..];
    assert Segments(parts) == [Segment(false, Items(""))] + Segments(parts[1..]);
    LiteralPrefix(base, "", parts[1..], uri);
  }

  // ---------------------------------------------------------------------------------
  // What a scoped rule matches

  /** What stands before the rule's own text. The base `/` is not trimmed, so two more slashes come with it. */
  function Leading(base: string): string {
    if base == "/" then "///" else if EndsWithSlash(base) then base else base + "/"
  }

  /** The text of a rule without the slashes around it, but for a lone slash. */
  ghost predicate IsOwnText(source: string, own: string) {
    if source == "/" then own == "/"
    else source == (if Head(source, '/') then "/" else "") + own + if EndsWithSlash(source) then "/" else ""
  }

  /** A rule under the base stays, any other one comes to stand under it. */
  ghost predicate IsScoped(base: string, source: string, scoped: string) {
    if base <= source then scoped == source
    else exists own :: IsOwnText(source, own) && scoped == Leading(base) + own
  }

  /** The path is one the rule's own text denotes, under the leading text. */
  ghost predicate MatchesUnder(leading: string, source: string, uri: string) {
    exists own, rest :: IsOwnText(source, own) && uri == leading + rest && PatternDenotes(own, rest)
  }

  lemma TrimmedIsOwn(source: string)
    ensures forall own :: IsOwnText(source, own) <==> own == TrimSlashes(source)
  {
    var own := TrimSlashes(source);
    assert IsOwnText(source, own);
    forall other | IsOwnText(source, other)
      ensures other == own
    {
      if source != "/" {
        var lead, trail := if Head(source, '/') then "/" else "", if EndsWithSlash(source) then "/" else "";
        assert source == lead + other + trail == lead + own + trail;
        assert |other| == |own|;
        assert other == source[|lead|..|lead| + |other|] && own == source[|lead|..|lead| + |own|];
      }
    }
  }

  lemma ScopeIs(base: string, source: string)
    requires Head(base, '/')
    ensures IsScoped(base, source, Scope(base, source))
  {
    if !(base <= source) {
      CombineTwo(base, source);
      TrimmedIsOwn(source);
      LeadingIs(base);
      hide TrimSlashes, IsOwnText, Leading;
      assert Scope(base, source) == Leading(base) + TrimSlashes(source);
    }
  }

  lemma LeadingIs(base: string)
    requires Head(base, '/')
    ensures "/" + TrimSlashes(base) + "/" == Leading(base)
  {
    if base != "/" {
      if EndsWithSlash(base) {
        assert base == "/" + base[1..|base| - 1] + "/";
      } else {
        assert base == "/" + base[1..];
      }
    }
  }

  lemma ItemOne(c: char, items: seq<Item>, w: string)
    requires c != '*'
    ensures Denotes([One(c)] + items, w) <==> w != "" && w[0] == c && Denotes(items, w[1..])
  {
    assert ([One(c)] + items)[1..] == items;
    if Denotes([One(c)] + items, w) {
      StripItem(c, items, w);
    }
    if w != "" && w[0] == c && Denotes(items, w[1..]) {
      assert w[..1] == [c];
      assert Cut(w, 1) && ItemDenotes(One(c), w[..1]);
    }
  }

  /** The first character of a segment, when it stands for itself. */
  lemma CharOfPath(c: char, items: seq<Item>, rest: seq<Segment>, w: string)
    requires c != '*' && c != '/'
    ensures PathDenotes([Segment(false, [One(c)] + items)] + rest, w) <==>
      w != "" && w[0] == c && PathDenotes([Segment(false, items)] + rest, w[1..])
  {
    if PathDenotes([Segment(false, [One(c)] + items)] + rest, w) {
      StripChar(c, items, rest, w);
    }
    if w != "" && w[0] == c && PathDenotes([Segment(false, items)] + rest, w[1..]) {
      AddChar(c, items, rest, w);
    }
  }

  lemma AddChar(c: char, items: seq<Item>, rest: seq<Segment>, w: string)
    requires c != '*' && c != '/' && w != "" && w[0] == c && PathDenotes([Segment(false, items)] + rest, w[1..])
    ensures PathDenotes([Segment(false, [One(c)] + items)] + rest, w)
  {
    var head, head' := Segment(false, [One(c)] + items), Segment(false, items);
    hide Denotes;
    if rest == [] {
      ItemOne(c, items, w);
    } else {
      assert ([head] + rest)[1..] == rest && ([head'] + rest)[1..] == rest;
      var u := w[1..];
      var k: nat :| k < |u| && u[k] == '/' && InnerDenotes(head', u, k) && PathDenotes(rest, u[k + 1..]);
      assert w[..k + 1][1..] == u[..k] && w[k + 1 + 1..] == u[k + 1..];
      ItemOne(c, items, w[..k + 1]);
      assert InnerDenotes(head, w, k + 1);
    }
  }

  lemma SlashOfPath(rest: seq<Segment>, w: string)
    requires rest != []
    ensures PathDenotes([Segment(false, [])] + rest, w) <==> w != "" && w[0] == '/' && PathDenotes(rest, w[1..])
  {
    if PathDenotes([Segment(false, [])] + rest, w) {
      StripSlash(rest, w);
    }
    if w != "" && w[0] == '/' && PathDenotes(rest, w[1..]) {
      assert ([Segment(false, [])] + rest)[1..] == rest;
      assert w[..0] == "";
      assert InnerDenotes(Segment(false, []), w, 0);
    }
  }

  lemma SplitChar(c: char, rest: string)
    requires c != '/'
    ensures Split([c] + rest, '/') == [[c] + Split(rest, '/')[0]] + Split(rest, '/')[1..]
  {
    assert ([c] + rest)[1..] == rest;
  }

  lemma SplitSlash(rest: string)
    ensures Split("/" + rest, '/') == [""] + Split(rest, '/')
  {
    assert ("/" + rest)[1..] == rest;
  }

  lemma {:induction false} SplitSegment(segment: string, parts: seq<string>)
    requires '/' !in segment && forall p :: p in parts ==> '/' !in p
    ensures Split(Join([segment] + parts, "/"), '/') == [segment] + parts
    decreases |parts|, |segment|
  {
    if segment == "" {
      JoinEmpty(parts);
      if parts == [] {
        assert [segment] + parts == [""] && Split("", '/') == [""];
      } else {
        assert parts == [parts[0]] + parts[1..];
        hide Join, Split;
        SplitSegment(parts[0], parts[1..]);
        SplitSlash(Join(parts, "/"));
      }
    } else {
      JoinStrip(segment, parts);
      hide Join, Split;
      SplitSegment(segment[1..], parts);
      SplitChar(segment[0], Join([segment[1..]] + parts, "/"));
      assert [segment[0]] + segment[1..] == segment;
      assert ([segment[1..]] + parts)[1..] == parts;
    }
  }

  /** Literal text up to a slash stands for itself, and the rest of the pattern for the rest of the path. */
  lemma {:induction false} LiteralThenRest(prefix: string, segment: string, parts: seq<string>, w: string)
    requires Literal(prefix) && EndsWithSlash(prefix) && prefix <= Join([segment] + parts, "/") && '/' !in segment
    requires forall p :: p in parts ==> '/' !in p
    ensures PathDenotes([Segment(false, Items(segment))] + Segments(parts), w) <==>
      prefix <= w && PatternDenotes(Join([segment] + parts, "/")[|prefix|..], w[|prefix|..])
    decreases |prefix|
  {
    var text, rest := Join([segment] + parts, "/"), prefix[1..];
    LiteralTail(prefix);
    PrefixSteps(prefix, w, text);
    if segment != "" {
      CharThenRest(prefix, segment, parts, w);
      hide Join, PathDenotes, Items, Segments, Literal, PatternDenotes;
      if w != "" {
        LiteralThenRest(rest, segment[1..], parts, w[1..]);
      }
    } else {
      EmptyThenRest(prefix, parts, w);
      hide PathDenotes, Items, Segments, Literal, PatternDenotes;
      if rest != "" && w != "" {
        NextSegment(prefix, parts);
        hide Join;
        LiteralThenRest(rest, parts[0], parts[1..], w[1..]);
      }
    }
  }

  lemma PrefixSteps(prefix: string, w: string, text: string)
    requires prefix != "" && prefix <= text
    ensures prefix <= w <==> w != "" && w[0] == prefix[0] && prefix[1..] <= w[1..]
    ensures text[|prefix|..] == text[1..][|prefix[1..]|..]
    ensures w != "" && prefix <= w ==> w[|prefix|..] == w[1..][|prefix[1..]|..]
    ensures EndsWithSlash(prefix) ==> prefix[1..] == "" || EndsWithSlash(prefix[1..])
  {
    if w != "" && w[0] == prefix[0] && prefix[1..] <= w[1..] {
      assert prefix == [prefix[0]] + prefix[1..] && w == [w[0]] + w[1..];
    }
  }

  lemma CharThenRest(prefix: string, segment: string, parts: seq<string>, w: string)
    requires Literal(prefix) && prefix != "" && segment != "" && '/' !in segment
    requires prefix <= Join([segment] + parts, "/")
    ensures Join([segment] + parts, "/")[1..] == Join([segment[1..]] + parts, "/")
    ensures prefix[1..] <= Join([segment[1..]] + parts, "/")
    ensures prefix[0] != '/'
    ensures PathDenotes([Segment(false, Items(segment))] + Segments(parts), w) <==>
      w != "" && w[0] == prefix[0] && PathDenotes([Segment(false, Items(segment[1..]))] + Segments(parts), w[1..])
  {
    var c := segment[0];
    JoinStrip(segment, parts);
    assert prefix[0] == c && c != '*' && c != '{' && c != '/';
    assert Items(segment) == [One(c)] + Items(segment[1..]);
    hide Join, PathDenotes, Segments, Items;
    CharOfPath(c, Items(segment[1..]), Segments(parts), w);
  }

  lemma EmptyThenRest(prefix: string, parts: seq<string>, w: string)
    requires prefix != "" && prefix <= Join([""] + parts, "/") && forall p :: p in parts ==> '/' !in p
    ensures parts != [] && prefix[0] == '/' && Join([""] + parts, "/")[1..] == Join(parts, "/")
    ensures prefix[1..] <= Join(parts, "/")
    ensures PathDenotes([Segment(false, Items(""))] + Segments(parts), w) <==>
      w != "" && w[0] == '/' && PathDenotes(Segments(parts), w[1..])
    ensures PatternDenotes(Join(parts, "/"), if w == "" then w else w[1..]) <==>
      PathDenotes(Segments(parts), if w == "" then w else w[1..])
  {
    JoinEmpty(parts);
    assert parts == [parts[0]] + parts[1..];
    SplitSegment(parts[0], parts[1..]);
    hide Join, PathDenotes;
    SlashOfPath(Segments(parts), w);
  }

  lemma NextSegment(prefix: string, parts: seq<string>)
    requires Literal(prefix) && |prefix| > 1 && prefix[0] == '/' && parts != [] && prefix[1..] <= Join(parts, "/")
    requires forall p :: p in parts ==> '/' !in p
    ensures parts == [parts[0]] + parts[1..]
    ensures Segments(parts) == [Segment(false, Items(parts[0]))] + Segments(parts[1..])
  {
    hide Join, Items;
    JoinFirst(parts);
    assert prefix[1..][0] == prefix[1] == Join(parts, "/")[0];
    FirstSegment(parts);
  }

  lemma LeadingIsLiteral(base: string)
    requires Head(base, '/') && Literal(base)
    ensures Literal(Leading(base)) && EndsWithSlash(Leading(base)) && Head(Leading(base), '/')
  {
  }

  lemma LeadingThenOwn(leading: string, own: string, uri: string)
    requires Literal(leading) && EndsWithSlash(leading) && Head(leading, '/')
    ensures PatternDenotes(leading + own, uri) <==> leading <= uri && PatternDenotes(own, uri[|leading|..])
  {
    var text := leading + own;
    hide Literal, Items, PathDenotes, Segments;
    SplitAtSlash(text);
    var parts := Split(text, '/')[1..];
    assert Join([""] + parts, "/") == text && text[|leading|..] == own;
    hide Split, Join;
    LiteralThenRest(leading, "", parts, uri);
  }

  /** Under a literal base, a scoped rule matches what its own text denotes, after the leading text. */
  lemma ScopedMatches(base: string, source: string, scoped: string, uri: string)
    requires Head(base, '/') && Literal(base) && !(base <= source) && IsScoped(base, source, scoped)
    ensures Exec(Compile(scoped), uri) <==> MatchesUnder(Leading(base), source, uri)
  {
    var own :| IsOwnText(source, own) && scoped == Leading(base) + own;
    LeadingIsLiteral(base);
    TrimmedIsOwn(source);
    CompileCorrect(scoped, uri);
    hide Literal, IsOwnText, PatternDenotes, TrimSlashes, Compile, Exec, Leading, Scope;
    LeadingThenOwn(Leading(base), own, uri);
    UnderLeading(Leading(base), source, own, uri);
  }

  lemma UnderLeading(leading: string, source: string, own: string, uri: string)
    requires IsOwnText(source, own) && forall other :: IsOwnText(source, other) ==> other == own
    ensures MatchesUnder(leading, source, uri) <==> leading <= uri && PatternDenotes(own, uri[|leading|..])
  {
    hide IsOwnText, PatternDenotes;
    if leading <= uri {
      assert uri == leading + uri[|leading|..];
    }
    if other, rest :| IsOwnText(source, other) && uri == leading + rest && PatternDenotes(other, rest) {
      assert uri[|leading|..] == rest;
    }
  }

  lemma SplitAtSlash(text: string)
    requires Head(text, '/')
    ensures Split(text, '/') == [""] + Split(text, '/')[1..]
    ensures Segments(Split(text, '/')) == [Segment(false, Items(""))] + Segments(Split(text, '/')[1..])
  {
    assert Split(text, '/')[0] == "";
  }

  /** What a rule matches under a literal base: its own paths if it is under the base, or else those scoped to it. */
  ghost predicate IsRuleMatch(base: string, source: string, uri: string) {
    if base <= source then PatternDenotes(source, uri) else MatchesUnder(Leading(base), source, uri)
  }

  lemma RuleMatches(base: string, source: string, scoped: string, uri: string)
    requires Head(base, '/') && Literal(base) && IsScoped(base, source, scoped)
    ensures Exec(Compile(scoped), uri) <==> IsRuleMatch(base, source, uri)
  {
    hide PatternDenotes, Compile, Exec, MatchesUnder, Leading;
    if base <= source {
      CompileCorrect(source, uri);
    } else {
      ScopedMatches(base, source, scoped, uri);
    }
  }

  /** The path is the base without its last slash, a slash, and what the rule's own text denotes. */
  ghost predicate IsUnderBase(base: string, source: string, uri: string) {
    MatchesUnder((if EndsWithSlash(base) then base[..|base| - 1] else base) + "/", source, uri)
  }

  /**
   * Under a literal base, a scoped rule matches just the paths of its own under the base if and only if the base is
   * not `/` alone, which is not trimmed, or the rule's own text denotes nothing.
   */
  lemma ScopedIsUnderBase(base: string, source: string, scoped: string)
    requires Head(base, '/') && Literal(base) && !(base <= source) && IsScoped(base, source, scoped)
    ensures (forall uri :: Exec(Compile(scoped), uri) <==> IsUnderBase(base, source, uri)) <==>
      base != "/" || forall own, rest :: IsOwnText(source, own) ==> !PatternDenotes(own, rest)
  {
    forall uri
      ensures Exec(Compile(scoped), uri) <==> MatchesUnder(Leading(base), source, uri)
    {
      ScopedMatches(base, source, scoped, uri);
    }
    hide Literal, IsScoped, IsOwnText, PatternDenotes, Compile, Exec;
    if base == "/" {
      if forall uri :: Exec(Compile(scoped), uri) <==> IsUnderBase(base, source, uri) {
        forall own, rest | IsOwnText(source, own)
          ensures !PatternDenotes(own, rest)
        {
          TrimmedIsOwn(source);
          NothingUnderRoot(source, own, rest);
        }
      }
    } else if EndsWithSlash(base) {
      assert base[..|base| - 1] + "/" == base;
    }
  }

  lemma {:induction false} NothingUnderRoot(source: string, own: string, rest: string)
    requires IsOwnText(source, own) && forall other :: IsOwnText(source, other) ==> other == own
    requires forall uri :: MatchesUnder("///", source, uri) <==> IsUnderBase("/", source, uri)
    ensures !PatternDenotes(own, rest)
    decreases |rest|
  {
    hide IsOwnText, PatternDenotes;
    if PatternDenotes(own, rest) {
      assert "/"[..0] + "/" == "/";
      assert MatchesUnder("/", source, "/" + rest) && IsUnderBase("/", source, "/" + rest);
      var other, shorter :| IsOwnText(source, other) && "/" + rest == "///" + shorter && PatternDenotes(other, shorter);
      assert ("/" + rest)[1..] == rest && |rest| == |shorter| + 2;
      NothingUnderRoot(source, own, shorter);
    }
  }

  lemma {:induction false} PlainDenotesItself(t: string)
    requires forall i :: 0 <= i < |t| ==> t[i] != '*' && t[i] != '{'
    ensures Denotes(Items(t), t)
  {
    if t != "" {
      PlainDenotesItself(t[1..]);
      assert Items(t) == [One(t[0])] + Items(t[1..]);
      hide Items, Denotes;
      ItemOne(t[0], Items(t[1..]), t);
    }
  }

  lemma PlainPattern(own: string)
    requires own != "" && own[0] != '!'
    requires forall i :: 0 <= i < |own| ==> own[i] != '*' && own[i] != '{' && own[i] != '/'
    ensures PatternDenotes(own, own)
  {
    PlainDenotesItself(own);
    SplitSegment(own, []);
    assert [own] + [] == [own] && Join([own], "/") == own;
    hide Items, Denotes, Split;
    assert Segments([own]) == [Segment(false, Items(own))];
  }

  lemma UsersUnderRoot()
    ensures BaseUri(None) == "/" && IsScoped("/", "users", "///users")
  {
    assert Split("/", '*') == ["/"];
    assert IsOwnText("users", "users") && "///users" == Leading("/") + "users";
    assert !("/" <= "users");
    hide IsOwnText, Leading;
  }

  lemma OnlyBehind(leading: string, own: string)
    requires Literal(leading) && EndsWithSlash(leading) && Head(leading, '/') && |leading| > 1
    requires own != "" && own[0] != leading[1] && PatternDenotes(own, own)
    ensures PatternDenotes(leading + own, leading + own) && !PatternDenotes(leading + own, "/" + own)
  {
    hide PatternDenotes, Literal;
    LeadingThenOwn(leading, own, leading + own);
    LeadingThenOwn(leading, own, "/" + own);
    assert (leading + own)[|leading|..] == own;
    assert ("/" + own)[1] == own[0];
  }

  /** A rule without a slash under an origin without a path matches behind three slashes, and not behind one. */
  lemma RootIsNotTrimmed()
    ensures BaseUri(None) == "/" && IsScoped("/", "users", "///users")
    ensures Exec(Compile("///users"), "///users") && !Exec(Compile("///users"), "/users")
  {
    hide PatternDenotes, Compile, Exec, BaseUri, IsScoped;
    UsersUnderRoot();
    PlainPattern("users");
    OnlyBehind("///", "users");
    assert "///" + "users" == "///users" && "/" + "users" == "/users";
    CompileCorrect("///users", "///users");
    CompileCorrect("///users", "/users");
  }
}
