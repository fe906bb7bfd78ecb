/**
 * The rewrite-pattern compiler: the glob language of a rule's `from`, and the regular expression text it is
 * turned into by three substitutions over the whole text of each path segment.
 */
module Rewrite {
  import opened Text
  import opened Regex

  // ---------------------------------------------------------------------------------
  // The substitutions

  /** `replaceAll(/[.*+?^${}()|[\]\\]/g, '\\$&')` */
  function Escape(t: string): string {
    if t == "" then "" else EscapeChar(t[0]) + Escape(t[1..])
  }

  function EscapeChar(c: char): string {
    if IsSyntax(c) then ['\\', c] else [c]
  }

  /** A backslash and `c` stand at `i`. */
  predicate EscapedAt(t: string, i: nat, c: char) {
    i + 1 < |t| && t[i] == '\\' && t[i + 1] == c
  }

  predicate Escaped(t: string, c: char) {
    EscapedAt(t, 0, c)
  }

  // `replaceAll` of an escaped star by `(.+)`.
  function CapturePass(t: string): string {
    if t == "" then ""
    else if Escaped(t, '*') then "(.+)" + CapturePass(t[2..])
    else [t[0]] + CapturePass(t[1..])
  }

  /** `replaceAll(/\\\{([^}]+)\\\}/g, ...)`, with the alternatives of the group split, filtered and joined. */
  function OptionsPass(t: string): string {
    if t == "" then ""
    else
      var g := if Escaped(t, '{') then GroupLength(t, IndexOf(t[2..], '}')) else 0;
      if g > 0 then
        "(?:" + Join(NonEmpty(SplitBar(t[2..2 + g])), "|") + ")" + OptionsPass(t[2 + g + 2..])
      else
        [t[0]] + OptionsPass(t[1..])
  }

  /** Greedy `[^}]+` after `\{`, giving back characters until `\}` follows; 0 when nothing matches. */
  function GroupLength(t: string, g: nat): (r: nat)
    ensures r <= g
    ensures r > 0 ==> EscapedAt(t, 2 + r, '}')
  {
    if g == 0 then 0
    else if EscapedAt(t, 2 + g, '}') then g
    else GroupLength(t, g - 1)
  }

  /** `group.split('\\|')` */
  function SplitBar(t: string): (parts: seq<string>)
    ensures |parts| >= 1
  {
    if t == "" then [""]
    else if Escaped(t, '|') then [""] + SplitBar(t[2..])
    else
      var rest := SplitBar(t[1..]);
      [[t[0]] + rest[0]] + rest[1..]
  }

  function CompileSegment(segment: string, finalize: bool): string {
    var negation := Head(segment, '!');
    var body := if negation then segment[1..] else segment;
    var pathRegex := OptionsPass(CapturePass(Escape(body)));
    if negation then
      "(?!" + pathRegex + (if finalize then "$" else "/") + ")(" + (if finalize then "." else "[^/]") + "+)"
    else
      pathRegex
  }

  function CompileSegments(parts: seq<string>): seq<string> {
    if parts == [] then [] else [CompileSegment(parts[0], |parts| == 1)] + CompileSegments(parts[1..])
  }

  /** `compileRewritePattern` */
  function Compile(pattern: string): string {
    "^" + Join(CompileSegments(Split(pattern, '/')), "/") + "$"
  }

  // ---------------------------------------------------------------------------------
  // The glob language

  /** `One('*')` is a star, any other `One(c)` is the character itself. */
  datatype Item = One(c: char) | Group(options: seq<string>)

  datatype Segment = Segment(negated: bool, items: seq<Item>)

  /** A `{` opens a group when something stands between it and the next `}`; otherwise it is literal. */
  function Items(t: string): seq<Item>
    decreases |t|
  {
    if t == "" then []
    else
      var e := IndexOf(t, '}');
      if t[0] == '{' && 1 < e < |t| then
        [Group(NonEmpty(Split(t[1..e], '|')))] + Items(t[e + 1..])
      else
        [One(t[0])] + Items(t[1..])
  }

  function SegmentOf(t: string): Segment {
    if Head(t, '!') then Segment(true, Items(t[1..])) else Segment(false, Items(t))
  }

  function Segments(parts: seq<string>): seq<Segment> {
    if parts == [] then [] else [SegmentOf(parts[0])] + Segments(parts[1..])
  }

  /** A star is one or more characters of one line, `/` included. */
  ghost predicate OneDenotes(c: char, w: string) {
    if c == '*' then w != "" && forall i :: 0 <= i < |w| ==> !IsLineTerminator(w[i]) else w == [c]
  }

  predicate Cut(w: string, k: nat) {
    k <= |w|
  }

  ghost predicate OptionDenotes(option: string, w: string) {
    if option == "" then w == ""
    else exists k: nat {:trigger Cut(w, k)} ::
      Cut(w, k) && OneDenotes(option[0], w[..k]) && OptionDenotes(option[1..], w[k..])
  }

  /** A group is any of its alternatives; one without alternatives is the empty text. */
  ghost predicate GroupDenotes(options: seq<string>, w: string) {
    if options == [] then w == "" else exists o :: o in options && OptionDenotes(o, w)
  }

  ghost predicate ItemDenotes(item: Item, w: string) {
    match item
    case One(c) => OneDenotes(c, w)
    case Group(options) => GroupDenotes(options, w)
  }

  ghost predicate Denotes(items: seq<Item>, w: string)
    decreases |items|
  {
    if items == [] then w == ""
    else exists k: nat {:trigger Cut(w, k)} ::
      Cut(w, k) && ItemDenotes(items[0], w[..k]) && Denotes(items[1..], w[k..])
  }

  /** No prefix of `w` that `/` follows is in the language of `items`. */
  ghost predicate NoPrefixDenoted(items: seq<Item>, w: string) {
    forall k: nat :: k < |w| && w[k] == '/' ==> !Denotes(items, w[..k])
  }

  /**
   * The paths a pattern denotes. A negated last segment is any one-line text outside its language; a negated
   * inner one is free of `/`, and what is left of the path has no prefix in its language that `/` follows.
   */
  ghost predicate PathDenotes(segments: seq<Segment>, w: string)
    requires segments != []
    decreases |segments|
  {
    var Segment(negated, items) := segments[0];
    if |segments| == 1 then
      if negated then OneDenotes('*', w) && !Denotes(items, w) else Denotes(items, w)
    else
      exists k: nat ::
        k < |w| && w[k] == '/' && InnerDenotes(segments[0], w, k) && PathDenotes(segments[1..], w[k + 1..])
  }

  ghost predicate InnerDenotes(segment: Segment, w: string, k: nat)
    requires k < |w|
  {
    if segment.negated then k > 0 && '/' !in w[..k] && NoPrefixDenoted(segment.items, w)
    else Denotes(segment.items, w[..k])
  }

  /** The language of a rewrite pattern. */
  ghost predicate PatternDenotes(pattern: string, path: string) {
    PathDenotes(Segments(Split(pattern, '/')), path)
  }

  // ---------------------------------------------------------------------------------
  // The substitutions are one translation, token by token

  function Token(c: char): string {
    if c == '*' then "(.+)" else EscapeChar(c)
  }

  function Tokens(t: string): string {
    if t == "" then "" else Token(t[0]) + Tokens(t[1..])
  }

  function MapTokens(options: seq<string>): seq<string> {
    if options == [] then [] else [Tokens(options[0])] + MapTokens(options[1..])
  }

  function Emit(items: seq<Item>): string {
    if items == [] then "" else EmitItem(items[0]) + Emit(items[1..])
  }

  function EmitItem(item: Item): string {
    match item
    case One(c) => Token(c)
    case Group(options) => "(?:" + Join(MapTokens(options), "|") + ")"
  }

  /** An escaped text never starts with an unescaped syntax character. */
  lemma EscapeHead(t: string)
    ensures Escape(t) == "" <==> t == ""
    ensures Escape(t) != "" ==> Escape(t)[0] == '\\' || !IsSyntax(Escape(t)[0])
  {
  }

  lemma TokensHead(t: string)
    ensures Tokens(t) == "" <==> t == ""
    ensures Tokens(t) != "" ==> Tokens(t)[0] == '\\' || Tokens(t)[0] == '(' || !IsSyntax(Tokens(t)[0])
  {
  }

  lemma {:induction false} CaptureAligned(t: string)
    ensures CapturePass(Escape(t)) == Tokens(t)
  {
    if t != "" {
      var c, rest := t[0], Escape(t[1..]);
      EscapeHead(t[1..]);
      CaptureAligned(t[1..]);
      hide Escape, Tokens;
      if c == '*' {
        assert (EscapeChar(c) + rest)[2..] == rest;
      } else if IsSyntax(c) {
        CaptureSyntax(c, rest);
      } else {
        assert (EscapeChar(c) + rest)[1..] == rest;
      }
    }
  }

  /** An escaped character other than a star stays. */
  lemma CaptureSyntax(c: char, rest: string)
    requires IsSyntax(c) && c != '*' && (rest != "" ==> rest[0] == '\\' || !IsSyntax(rest[0]))
    ensures CapturePass(EscapeChar(c) + rest) == EscapeChar(c) + CapturePass(rest)
  {
    assert !Escaped([c] + rest, '*');
    CaptureOne(c, rest);
    CaptureOne('\\', [c] + rest);
    hide CapturePass, IsSyntax;
    assert EscapeChar(c) + rest == ['\\'] + ([c] + rest);
    assert EscapeChar(c) + CapturePass(rest) == ['\\'] + ([c] + CapturePass(rest));
  }

  lemma CaptureOne(c: char, rest: string)
    requires !Escaped([c] + rest, '*')
    ensures CapturePass([c] + rest) == [c] + CapturePass(rest)
  {
    assert ([c] + rest)[1..] == rest;
  }

  function Prepend(prefix: string, parts: seq<string>): seq<string>
    requires parts != []
  {
    [prefix + parts[0]] + parts[1..]
  }

  /** No backslash of `prefix` is followed by `c` in `prefix + rest`. */
  ghost predicate NoneEscapes(prefix: string, rest: string, c: char) {
    forall i :: 0 <= i < |prefix| && prefix[i] == '\\' && i + 1 < |prefix + rest| ==> (prefix + rest)[i + 1] != c
  }

  lemma NoneEscapesTail(prefix: string, rest: string, c: char)
    requires prefix != "" && NoneEscapes(prefix, rest, c)
    ensures (prefix + rest)[1..] == prefix[1..] + rest
    ensures NoneEscapes(prefix[1..], rest, c)
    ensures !Escaped(prefix + rest, c)
  {
    var t := prefix + rest;
    assert t[1..] == prefix[1..] + rest;
    forall i | 0 <= i < |prefix[1..]| && prefix[1..][i] == '\\' && i + 1 < |prefix[1..] + rest|
      ensures (prefix[1..] + rest)[i + 1] != c
    {
      assert prefix[i + 1] == '\\' && t[i + 2] != c;
    }
  }

  /** No token but the escaped `c` itself reads as an escaped `c`, whatever token follows. */
  lemma TokenEscapesItself(d: char, rest: string, c: char)
    requires d != c && (c == '{' || c == '|')
    ensures NoneEscapes(Token(d), Tokens(rest), c)
  {
    TokensHead(rest);
  }

  lemma {:induction false} SplitBarSkips(prefix: string, rest: string)
    requires NoneEscapes(prefix, rest, '|')
    ensures SplitBar(prefix + rest) == Prepend(prefix, SplitBar(rest))
  {
    if prefix == "" {
      assert prefix + rest == rest;
      assert "" + SplitBar(rest)[0] == SplitBar(rest)[0];
    } else {
      NoneEscapesTail(prefix, rest, '|');
      SplitBarSkips(prefix[1..], rest);
      assert [prefix[0]] + (prefix[1..] + SplitBar(rest)[0]) == prefix + SplitBar(rest)[0];
    }
  }

  lemma {:induction false} SplitAligned(t: string)
    ensures SplitBar(Tokens(t)) == MapTokens(Split(t, '|'))
  {
    if t != "" {
      var c, rest := t[0], Tokens(t[1..]);
      TokensHead(t[1..]);
      SplitAligned(t[1..]);
      if c == '|' {
        assert (Token(c) + rest)[2..] == rest;
      } else {
        TokenEscapesItself(c, t[1..], '|');
        SplitBarSkips(Token(c), rest);
      }
    }
  }

  lemma {:induction false} NonEmptyAligned(options: seq<string>)
    ensures NonEmpty(MapTokens(options)) == MapTokens(NonEmpty(options))
  {
    if options != [] {
      TokensHead(options[0]);
      NonEmptyAligned(options[1..]);
      assert MapTokens(options)[1..] == MapTokens(options[1..]);
    }
  }

  lemma {:induction false} OptionsPassSkips(prefix: string, rest: string)
    requires NoneEscapes(prefix, rest, '{')
    ensures OptionsPass(prefix + rest) == prefix + OptionsPass(rest)
  {
    if prefix == "" {
      assert prefix + rest == rest;
    } else {
      NoneEscapesTail(prefix, rest, '{');
      OptionsPassSkips(prefix[1..], rest);
      assert [prefix[0]] + (prefix[1..] + OptionsPass(rest)) == prefix + OptionsPass(rest);
    }
  }

  lemma {:induction false} TokensOfConcat(a: string, b: string)
    ensures Tokens(a + b) == Tokens(a) + Tokens(b)
  {
    hide Token;
    if a == "" {
      assert a + b == b;
    } else {
      assert (a + b)[1..] == a[1..] + b;
      TokensOfConcat(a[1..], b);
      assert Token(a[0]) + (Tokens(a[1..]) + Tokens(b)) == (Token(a[0]) + Tokens(a[1..])) + Tokens(b);
    }
  }

  lemma {:induction false} TokensKeepOut(t: string)
    requires '}' !in t
    ensures '}' !in Tokens(t)
  {
    if t != "" {
      TokensKeepOut(t[1..]);
    }
  }

  /** The group after `\{` is what stands before the next closing brace, when something does. */
  lemma GroupFound(tt: string, n: nat)
    requires n > 0 && EscapedAt(tt, 2 + n, '}') && '}' !in tt[2..2 + n]
    ensures GroupLength(tt, IndexOf(tt[2..], '}')) == n
  {
    CloseFound(tt[2..], n);
    assert !EscapedAt(tt, 2 + (n + 1), '}');
  }

  lemma CloseFound(u: string, n: nat)
    requires EscapedAt(u, n, '}') && '}' !in u[..n]
    ensures IndexOf(u, '}') == n + 1
  {
    assert u[..n + 1] == u[..n] + ['\\'];
    IndexOfIs(u, '}', n + 1);
  }

  lemma {:induction false} TokensAt(t: string, e: nat)
    requires e < |t|
    ensures Tokens(t) == Tokens(t[..e]) + Token(t[e]) + Tokens(t[e + 1..])
  {
    hide Token;
    if e == 0 {
      assert Tokens("") + Token(t[0]) == Token(t[0]);
      assert t[..0] == "";
    } else {
      TokensAt(t[1..], e - 1);
      assert t[1..][..e - 1] == t[..e][1..];
      assert t[1..][e..] == t[e + 1..];
    }
  }

  lemma GroupMissing(t: string)
    requires t != "" && t[0] == '{' && !(1 < IndexOf(t, '}') < |t|)
    ensures GroupLength(Tokens(t), IndexOf(Tokens(t)[2..], '}')) == 0
  {
    var e, tt, rest := IndexOf(t, '}'), Tokens(t), Tokens(t[1..]);
    assert tt == "\\{" + rest;
    assert tt[2..] == rest;
    if e < |t| {
      var after := t[1..];
      assert after[0] == '}';
      assert rest == "\\}" + Tokens(after[1..]);
      IndexOfIs(rest, '}', 1);
      assert !EscapedAt(tt, 2 + 1, '}');
    } else {
      TokensKeepOut(t);
      NoGroup(tt, IndexOf(rest, '}'));
    }
  }

  lemma {:induction false} IndexOfIs(s: string, c: char, k: nat)
    requires k <= |s| && c !in s[..k] && (k < |s| ==> s[k] == c)
    ensures IndexOf(s, c) == k
  {
    if k > 0 {
      assert s[0] in s[..k];
      assert s[1..][..k - 1] == s[..k][1..];
      IndexOfIs(s[1..], c, k - 1);
    }
  }

  lemma {:induction false} NoGroup(t: string, g: nat)
    requires '}' !in t
    ensures GroupLength(t, g) == 0
  {
    if g > 0 {
      NoGroup(t, g - 1);
    }
  }

  lemma {:induction false} OptionsAligned(t: string)
    ensures OptionsPass(Tokens(t)) == Emit(Items(t))
    decreases |t|
  {
    if t != "" {
      var e := IndexOf(t, '}');
      if t[0] == '{' && 1 < e < |t| {
        OptionsAligned(t[e + 1..]);
        GroupStep(t, e);
      } else {
        OptionsAligned(t[1..]);
        OneStep(t);
      }
    }
  }

  lemma GroupStep(t: string, e: nat)
    requires t != "" && t[0] == '{' && e == IndexOf(t, '}') && 1 < e < |t|
    ensures OptionsPass(Tokens(t)) == EmitItem(Group(NonEmpty(Split(t[1..e], '|')))) + OptionsPass(Tokens(t[e + 1..]))
  {
    GroupText(t, e);
    TokensHead(t[1..e]);
    TokensKeepOut(t[1..e]);
    SplitAligned(t[1..e]);
    NonEmptyAligned(Split(t[1..e], '|'));
    GroupPass(Tokens(t[1..e]), Tokens(t[e + 1..]));
  }

  /** A group of any text is replaced as a whole. */
  lemma GroupPass(inner: string, after: string)
    requires inner != "" && '}' !in inner
    ensures OptionsPass("\\{" + inner + "\\}" + after)
         == "(?:" + Join(NonEmpty(SplitBar(inner)), "|") + ")" + OptionsPass(after)
  {
    var t, n := "\\{" + inner + "\\}" + after, |inner|;
    assert t[2..2 + n] == inner;
    assert EscapedAt(t, 2 + n, '}');
    assert t[2 + n + 2..] == after;
    GroupFound(t, n);
    OptionsPassGroup(t, n);
  }

  lemma OptionsPassGroup(t: string, n: nat)
    requires Escaped(t, '{') && n > 0 && GroupLength(t, IndexOf(t[2..], '}')) == n
    ensures OptionsPass(t) == "(?:" + Join(NonEmpty(SplitBar(t[2..2 + n])), "|") + ")" + OptionsPass(t[2 + n + 2..])
  {
  }

  lemma OptionsPassOne(t: string)
    requires t != "" && (Escaped(t, '{') ==> GroupLength(t, IndexOf(t[2..], '}')) == 0)
    ensures OptionsPass(t) == [t[0]] + OptionsPass(t[1..])
  {
  }

  lemma GroupText(t: string, e: nat)
    requires 1 < e < |t| && t[0] == '{' && t[e] == '}'
    ensures Tokens(t) == "\\{" + Tokens(t[1..e]) + "\\}" + Tokens(t[e + 1..])
  {
    TokensAt(t, e);
    assert t[..e][1..] == t[1..e];
  }

  lemma OneStep(t: string)
    requires t != "" && !(t[0] == '{' && 1 < IndexOf(t, '}') < |t|)
    ensures OptionsPass(Tokens(t)) == Token(t[0]) + OptionsPass(Tokens(t[1..]))
  {
    if t[0] == '{' {
      UnclosedStep(t);
    } else {
      TokenEscapesItself(t[0], t[1..], '{');
      hide OptionsPass;
      hide Token;
      OptionsPassSkips(Token(t[0]), Tokens(t[1..]));
    }
  }

  lemma UnclosedStep(t: string)
    requires t != "" && t[0] == '{' && !(1 < IndexOf(t, '}') < |t|)
    ensures OptionsPass(Tokens(t)) == Token(t[0]) + OptionsPass(Tokens(t[1..]))
  {
    GroupMissing(t);
    assert Tokens(t) == "\\{" + Tokens(t[1..]);
    hide OptionsPass;
    hide Tokens;
    hide GroupLength;
    hide IndexOf;
    UnclosedPass(Tokens(t[1..]));
  }

  lemma UnclosedPass(rest: string)
    requires GroupLength("\\{" + rest, IndexOf(("\\{" + rest)[2..], '}')) == 0
    ensures OptionsPass("\\{" + rest) == "\\{" + OptionsPass(rest)
  {
    hide OptionsPass;
    hide GroupLength;
    hide IndexOf;
    OptionsPassOne("\\{" + rest);
    OptionsPassSkips("{", rest);
    BackslashBrace(rest);
    BackslashBrace(OptionsPass(rest));
  }

  lemma BackslashBrace(rest: string)
    ensures ("\\{" + rest)[0] == '\\' && ("\\{" + rest)[1..] == "{" + rest
    ensures ['\\'] + ("{" + rest) == "\\{" + rest
  {
  }

  /** The three passes over a whole segment are the translation of its items, one by one. */
  lemma PassesAligned(t: string)
    ensures OptionsPass(CapturePass(Escape(t))) == Emit(Items(t))
  {
    CaptureAligned(t);
    OptionsAligned(t);
  }
}
