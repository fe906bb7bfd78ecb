/** What the simplest rewrite patterns match, told without the glob language. */
module GlobLaws {
  import opened Text
  import opened Regex
  import opened Rewrite
  import opened RewriteCorrectness
  import opened OriginRules

  /** Text of one segment in which no character has a meaning of its own. */
  ghost predicate IsPlain(t: string) {
    forall i :: 0 <= i < |t| ==> t[i] != '*' && t[i] != '{' && t[i] != '/'
  }

  /** One or more characters of one line. */
  ghost predicate IsOneLine(w: string) {
    w != "" && forall i :: 0 <= i < |w| ==> !IsLineTerminator(w[i])
  }

  lemma {:induction false} PlainDenotesOnlyItself(t: string, w: string)
    requires IsPlain(t)
    ensures Denotes(Items(t), w) <==> w == t
  {
    if t != "" {
      var c, rest := t[0], t[1..];
      PlainTail(t);
      assert Items(t) == [One(c)] + Items(rest);
      ItemOne(c, Items(rest), w);
      hide Items, Denotes, IsPlain;
      if w != "" {
        PlainDenotesOnlyItself(rest, w[1..]);
        assert w == [w[0]] + w[1..] && t == [c] + rest;
      }
    }
  }

  lemma PlainTail(t: string)
    requires IsPlain(t) && t != ""
    ensures IsPlain(t[1..]) && t[0] != '*' && t[0] != '{' && t[0] != '/'
  {
    assert forall i :: 0 <= i < |t[1..]| ==> t[1..][i] == t[i + 1];
  }

  /** The path a pattern of one segment denotes. */
  lemma OneSegment(t: string, w: string)
    requires '/' !in t
    ensures PatternDenotes(t, w) <==> PathDenotes([SegmentOf(t)], w)
  {
    SplitSegment(t, []);
    assert [t] + [] == [t] && Join([t], "/") == t;
    assert [t][1..] == [] && Segments([t]) == [SegmentOf(t)] + Segments([]);
    hide PathDenotes, SegmentOf, Split;
  }

  /** A plain pattern matches itself alone. */
  lemma PlainMatches(t: string, w: string)
    requires IsPlain(t) && !Head(t, '!')
    ensures Exec(Compile(t), w) <==> w == t
  {
    assert '/' !in t;
    CompileCorrect(t, w);
    OneSegment(t, w);
    PlainDenotesOnlyItself(t, w);
    hide Exec, Compile, Denotes, PatternDenotes;
  }

  /** A star matches one or more characters of one line, slashes included. */
  lemma StarMatches(w: string)
    ensures Exec(Compile("*"), w) <==> IsOneLine(w)
  {
    CompileCorrect("*", w);
    OneSegment("*", w);
    StarDenotes(w);
    hide Exec, Compile, Denotes, PatternDenotes;
  }

  lemma StarDenotes(w: string)
    ensures Denotes(Items("*"), w) <==> IsOneLine(w)
  {
    assert "*"[1..] == "" && Items("*") == [One('*')] + Items("") && Items("") == [];
    assert [One('*')] + [] == [One('*')] && [One('*')][1..] == [];
    var all := [One('*')];
    if Denotes(all, w) {
      var k: nat :| Cut(w, k) && ItemDenotes(all[0], w[..k]) && Denotes(all[1..], w[k..]);
      assert w[k..] == "" && w[..k] == w;
    }
    if IsOneLine(w) {
      assert w[..|w|] == w && w[|w|..] == "";
      assert Cut(w, |w|) && ItemDenotes(all[0], w[..|w|]) && Denotes(all[1..], w[|w|..]);
    }
  }

  /** A plain pattern after `!` matches any one line but itself. */
  lemma NegationMatches(t: string, w: string)
    requires IsPlain(t)
    ensures Exec(Compile("!" + t), w) <==> IsOneLine(w) && w != t
  {
    var pattern := "!" + t;
    assert pattern[1..] == t && '/' !in pattern;
    CompileCorrect(pattern, w);
    OneSegment(pattern, w);
    PlainDenotesOnlyItself(t, w);
    hide Exec, Compile, Denotes, PatternDenotes, Items;
  }

  lemma {:induction false} OptionIsItself(option: string, w: string)
    requires '*' !in option
    ensures OptionDenotes(option, w) <==> w == option
  {
    if option != "" {
      var c, rest := option[0], option[1..];
      assert option == [c] + rest && c in option;
      if OptionDenotes(option, w) {
        var k: nat :| Cut(w, k) && OneDenotes(c, w[..k]) && OptionDenotes(rest, w[k..]);
        OptionIsItself(rest, w[k..]);
        assert w == w[..k] + w[k..];
      }
      if w == option {
        OptionIsItself(rest, w[1..]);
        assert w[..1] == [c] && Cut(w, 1);
      }
    }
  }

  lemma {:induction false} SplitKeeps(text: string, sep: char, c: char)
    requires c !in text
    ensures forall p :: p in Split(text, sep) ==> c !in p
  {
    if text != "" {
      assert text[0] in text && forall x :: x in text[1..] ==> x in text;
      SplitKeeps(text[1..], sep, c);
    }
  }

  lemma GroupIsOptions(options: seq<string>, w: string)
    requires forall o :: o in options ==> '*' !in o
    ensures GroupDenotes(options, w) <==> if options == [] then w == "" else w in options
  {
    forall o | o in options
      ensures OptionDenotes(o, w) <==> w == o
    {
      OptionIsItself(o, w);
    }
    hide OptionDenotes;
  }

  lemma {:induction false} IndexOfEnd(body: string)
    requires '}' !in body
    ensures IndexOf(body + "}", '}') == |body|
  {
    if body != "" {
      assert body[0] in body && (body + "}")[1..] == body[1..] + "}" && forall x :: x in body[1..] ==> x in body;
      IndexOfEnd(body[1..]);
    }
  }

  lemma GroupItems(body: string)
    requires body != "" && '}' !in body
    ensures Items("{" + body + "}") == [Group(NonEmpty(Split(body, '|')))]
  {
    var t := "{" + body + "}";
    IndexOfEnd("{" + body);
    assert t == ("{" + body) + "}" && t[0] == '{' && t[1..|t| - 1] == body && t[|t|..] == "";
    assert Items("") == [];
    assert IndexOf(t, '}') == |t| - 1;
    hide IndexOf, Split;
    assert Items(t) == [Group(NonEmpty(Split(body, '|')))] + Items(t[|t|..]);
  }

  lemma OneItem(item: Item, w: string)
    ensures Denotes([item], w) <==> ItemDenotes(item, w)
  {
    var all := [item];
    assert all[1..] == [];
    if Denotes(all, w) {
      var k: nat :| Cut(w, k) && ItemDenotes(all[0], w[..k]) && Denotes(all[1..], w[k..]);
      assert w[k..] == "" && w[..k] == w;
    }
    if ItemDenotes(item, w) {
      assert w[..|w|] == w && w[|w|..] == "";
      assert Cut(w, |w|) && ItemDenotes(all[0], w[..|w|]) && Denotes(all[1..], w[|w|..]);
    }
  }

  /** A group matches what stands between its bars, but for empty text, which it matches when there is nothing else. */
  lemma GroupMatches(body: string, w: string)
    requires body != "" && '}' !in body && '*' !in body && '/' !in body
    ensures
      var options := Split(body, '|');
      Exec(Compile("{" + body + "}"), w) <==>
      if forall o :: o in options ==> o == "" then w == "" else w != "" && w in options
  {
    var pattern := "{" + body + "}";
    assert '/' !in pattern && !Head(pattern, '!');
    CompileCorrect(pattern, w);
    OneSegment(pattern, w);
    GroupItems(body);
    SplitKeeps(body, '|', '*');
    var options := NonEmpty(Split(body, '|'));
    OneItem(Group(options), w);
    GroupIsOptions(options, w);
    NoneLeft(Split(body, '|'));
    hide Exec, Compile, Denotes, PatternDenotes, Items, GroupDenotes, Split, NonEmpty;
  }

  lemma NoneLeft(parts: seq<string>)
    ensures NonEmpty(parts) == [] <==> forall p :: p in parts ==> p == ""
  {
    if NonEmpty(parts) != [] {
      assert NonEmpty(parts)[0] in NonEmpty(parts);
    }
  }
}
