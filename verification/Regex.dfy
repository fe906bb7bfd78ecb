/**
 * The fragment of ECMAScript regular expressions that rewrite patterns are written in: a parser of the
 * pattern text (section 22.2.1 of ECMA-262) and what it means to match (section 22.2.2), without flags.
 * A text outside the fragment does not parse. A character stands for one UTF-16 code unit.
 */
module Regex {
  import opened Common

  datatype Re =
    | Empty
    | Cat(first: Re, rest: Re)
    | Alt(left: Re, right: Re)
    | Start
    | End
    | Chr(c: char)
    | Dot
    | NotChr(c: char)
    | Plus(body: Re)
    | Capture(body: Re)
    | NotAhead(body: Re)

  predicate IsLineTerminator(c: char) {
    c == '\n' || c == '\r' || c == '\U{2028}' || c == '\U{2029}'
  }

  predicate IsSyntax(c: char) {
    || c == '^' || c == '$' || c == '\\' || c == '.' || c == '*' || c == '+' || c == '?'
    || c == '(' || c == ')' || c == '[' || c == ']' || c == '{' || c == '}' || c == '|'
  }

  // ---------------------------------------------------------------------------------
  // Pattern text

  datatype Parsed = Parsed(re: Re, rest: string)

  predicate Head(t: string, c: char) {
    t != "" && t[0] == c
  }

  /** `t` starts with `(?` and `c`. */
  predicate Opens(t: string, c: char) {
    |t| > 2 && t[0] == '(' && t[1] == '?' && t[2] == c
  }

  /** Disjunction :: Alternative | Alternative `|` Disjunction */
  function ParseDisjunction(t: string): (r: Option<Parsed>)
    ensures r.Some? ==> |r.value.rest| <= |t|
    decreases |t|, 3
  {
    var a := ParseAlternative(t);
    if a.None? || !Head(a.value.rest, '|') then a else
      var b := ParseDisjunction(a.value.rest[1..]);
      if b.None? then None else Some(Parsed(Alt(a.value.re, b.value.re), b.value.rest))
  }

  /** Alternative :: [empty] | Term Alternative */
  function ParseAlternative(t: string): (r: Option<Parsed>)
    ensures r.Some? ==> |r.value.rest| <= |t|
    decreases |t|, 2
  {
    if t == "" || t[0] == '|' || t[0] == ')' then Some(Parsed(Empty, t)) else
      var a := ParseTerm(t);
      if a.None? then None else
        var b := ParseAlternative(a.value.rest);
        if b.None? then None else Some(Parsed(Cat(a.value.re, b.value.re), b.value.rest))
  }

  /** Term :: Assertion | Atom | Atom `+` */
  function ParseTerm(t: string): (r: Option<Parsed>)
    requires t != ""
    ensures r.Some? ==> |r.value.rest| < |t|
    decreases |t|, 1
  {
    if t[0] == '^' then Some(Parsed(Start, t[1..]))
    else if t[0] == '$' then Some(Parsed(End, t[1..]))
    else if Opens(t, '!') then
      var body := ParseBody(t, 3);
      if body.None? then None else Some(Parsed(NotAhead(body.value.re), body.value.rest))
    else
      var atom := ParseAtom(t);
      if atom.Some? && Head(atom.value.rest, '+')
      then Some(Parsed(Plus(atom.value.re), atom.value.rest[1..]))
      else atom
  }

  /** Atom :: PatternCharacter | `.` | `\` SyntaxCharacter | `[^c]` | group */
  function ParseAtom(t: string): (r: Option<Parsed>)
    requires t != ""
    ensures r.Some? ==> |r.value.rest| < |t|
    decreases |t|, 0
  {
    if t[0] == '.' then Some(Parsed(Dot, t[1..]))
    else if t[0] == '\\' then
      if |t| > 1 && IsSyntax(t[1]) then Some(Parsed(Chr(t[1]), t[2..])) else None
    else if t[0] == '[' then
      if |t| > 3 && t[1] == '^' && t[2] != '\\' && t[2] != ']' && t[2] != '-' && t[3] == ']' then
        Some(Parsed(NotChr(t[2]), t[4..]))
      else None
    else if Opens(t, ':') then ParseBody(t, 3)
    else if t[0] == '(' && |t| > 1 && t[1] == '?' then None
    else if t[0] == '(' then
      var body := ParseBody(t, 1);
      if body.None? then None else Some(Parsed(Capture(body.value.re), body.value.rest))
    else if IsSyntax(t[0]) then None
    else Some(Parsed(Chr(t[0]), t[1..]))
  }

  /** The disjunction after an opening of `k` characters, up to its closing parenthesis. */
  function ParseBody(t: string, k: nat): (r: Option<Parsed>)
    requires 0 < k <= |t|
    ensures r.Some? ==> |r.value.rest| < |t|
    decreases |t|, 0, 0
  {
    var body := ParseDisjunction(t[k..]);
    if body.Some? && Head(body.value.rest, ')')
    then Some(Parsed(body.value.re, body.value.rest[1..]))
    else None
  }

  function ParsePattern(t: string): Option<Re> {
    var p := ParseDisjunction(t);
    if p.Some? && p.value.rest == "" then Some(p.value.re) else None
  }

  // ---------------------------------------------------------------------------------
  // Matching

  /** `re` can match the part of `s` from `i` to `j`. */
  ghost predicate Matches(re: Re, s: string, i: nat, j: nat)
    requires i <= j <= |s|
    decreases re, j - i
  {
    match re
    case Empty => i == j
    case Cat(a, b) => exists m: nat :: i <= m <= j && Matches(a, s, i, m) && Matches(b, s, m, j)
    case Alt(a, b) => Matches(a, s, i, j) || Matches(b, s, i, j)
    case Start => i == j == 0
    case End => i == j == |s|
    case Chr(c) => j == i + 1 && s[i] == c
    case Dot => j == i + 1 && !IsLineTerminator(s[i])
    case NotChr(c) => j == i + 1 && s[i] != c
    case Plus(body) =>
      || Matches(body, s, i, j)
      || (exists m: nat :: i < m <= j && Matches(body, s, i, m) && Matches(re, s, m, j))
    case Capture(body) => Matches(body, s, i, j)
    case NotAhead(body) => i == j && !exists k: nat :: i <= k <= |s| && Matches(body, s, i, k)
  }

  /** `new RegExp(text).exec(s)` finds a match somewhere in `s`. */
  ghost predicate Exec(text: string, s: string) {
    && ParsePattern(text).Some?
    && exists i: nat, j: nat :: i <= j <= |s| && Matches(ParsePattern(text).value, s, i, j)
  }
}
