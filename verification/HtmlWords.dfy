/** What a reader sees of the formatter's output: cut at spaces and newlines it is the input text, word for
    word, each word between the marks of its own styles. */
module HtmlWords {
  import opened HtmlToWP

  // ----- Cutting a text at its separators -----

  function FirstSeparator(t: string): (i: nat)
    ensures i <= |t|
    ensures forall k :: 0 <= k < i ==> IsWordPart(t[k])
    ensures i < |t| ==> !IsWordPart(t[i])
  {
    if t == "" || !IsWordPart(t[0]) then 0 else 1 + FirstSeparator(t[1..])
  }

  function Split(t: string): seq<string> {
    var i := FirstSeparator(t);
    if i == |t| then [t] else [t[..i]] + Split(t[i + 1..])
  }

  function Separators(t: string): string {
    var i := FirstSeparator(t);
    if i == |t| then "" else [t[i]] + Separators(t[i + 1..])
  }

  function Join(pieces: seq<string>, separators: string): string
    requires |pieces| == |separators| + 1
  {
    if separators == "" then pieces[0] else pieces[0] + [separators[0]] + Join(pieces[1..], separators[1..])
  }

  /** The pieces and the separators determine the text. */
  lemma {:induction false} JoinSplit(t: string)
    ensures |Split(t)| == |Separators(t)| + 1
    ensures Join(Split(t), Separators(t)) == t
    decreases |t|
  {
    var i := FirstSeparator(t);
    hide FirstSeparator;
    if i == |t| {
    } else {
      var rest := t[i + 1..];
      JoinSplit(rest);
      assert t == t[..i] + [t[i]] + rest;
      assert Split(t)[1..] == Split(rest) && Separators(t)[1..] == Separators(rest);
    }
  }

  lemma FirstSeparatorIs(t: string, i: nat)
    requires i <= |t| && (i < |t| ==> !IsWordPart(t[i])) && (forall k :: 0 <= k < i ==> IsWordPart(t[k]))
    ensures FirstSeparator(t) == i
  {
  }

  lemma CutOne(x: string, c: char, y: string)
    requires (forall k :: 0 <= k < |x| ==> IsWordPart(x[k])) && !IsWordPart(c)
    ensures Split(x + [c] + y) == [x] + Split(y)
    ensures Separators(x + [c] + y) == [c] + Separators(y)
  {
    var t := x + [c] + y;
    FirstSeparatorIs(t, |x|);
    assert t[..|x|] == x && t[|x| + 1..] == y;
  }

  // ----- Words of a styled text -----

  function Words(s: seq<Styled>): seq<seq<Styled>> {
    var i := FirstBreak(s);
    if i == |s| then [s] else [s[..i]] + Words(s[i + 1..])
  }

  function DecoratedWords(ws: seq<seq<Styled>>): seq<string> {
    seq(|ws|, i requires 0 <= i < |ws| => Decorated(ws[i]))
  }

  function PlainWords(ws: seq<seq<Styled>>): seq<string> {
    seq(|ws|, i requires 0 <= i < |ws| => Chars(ws[i]))
  }

  lemma DecorationHasNoSeparator(w: seq<Styled>)
    requires FirstBreak(w) == |w|
    ensures forall k :: 0 <= k < |Decorated(w)| ==> IsWordPart(Decorated(w)[k])
  {
    var marks := Open(UnionOf(w));
    assert forall k :: 0 <= k < |marks| ==> IsWordPart(marks[k]);
    assert forall k :: 0 <= k < |Reverse(marks)| ==> IsWordPart(Reverse(marks)[k]);
    assert forall k :: 0 <= k < |Chars(w)| ==> IsWordPart(Chars(w)[k]);
  }

  /** The output is the decorated words between the separators of the input. */
  ghost predicate WordForWord(s: seq<Styled>) {
    && Split(Format(s)) == DecoratedWords(Words(s))
    && Split(Chars(s)) == PlainWords(Words(s))
    && Separators(Format(s)) == Separators(Chars(s))
  }

  lemma OneWord(s: seq<Styled>)
    requires FirstBreak(s) == |s|
    ensures Format(s) == Decorated(s)
    ensures DecoratedWords(Words(s)) == [Decorated(s)] && PlainWords(Words(s)) == [Chars(s)]
  {
    hide Decorated, FirstBreak, Chars;
    assert Words(s) == [s];
  }

  lemma OneWordIsDecorated(s: seq<Styled>)
    requires FirstBreak(s) == |s|
    ensures WordForWord(s)
  {
    DecorationHasNoSeparator(s);
    CharsSame(s);
    OneWord(s);
    hide Decorated, Split, Separators, FirstBreak, Chars, Format, Words, DecoratedWords, PlainWords;
    CutNone(Decorated(s));
    CutNone(Chars(s));
  }

  lemma CharsSame(s: seq<Styled>)
    requires FirstBreak(s) == |s|
    ensures forall k :: 0 <= k < |Chars(s)| ==> IsWordPart(Chars(s)[k])
  {
  }

  lemma FirstWordIsDecorated(s: seq<Styled>, i: nat)
    requires i < |s| && FirstBreak(s) == i && WordForWord(s[i + 1..])
    ensures WordForWord(s)
  {
    var w, rest := s[..i], s[i + 1..];
    NoBreak(w);
    DecorationHasNoSeparator(w);
    hide Split, Separators, Decorated, Chars, FirstBreak;
    assert Format(s) == Decorated(w) + [s[i].c] + Format(rest);
    CutOne(Decorated(w), s[i].c, Format(rest));
    CharsSplit(s, i);
    CutOne(Chars(w), s[i].c, Chars(rest));
    WordsCons(w, Words(rest));
  }

  lemma CharsSplit(s: seq<Styled>, i: nat)
    requires i < |s|
    ensures Chars(s) == Chars(s[..i]) + [s[i].c] + Chars(s[i + 1..])
    ensures FirstBreak(s[..i]) == i ==> forall k :: 0 <= k < |Chars(s[..i])| ==> IsWordPart(Chars(s[..i])[k])
  {
  }

  lemma {:induction false} WordForWordAlways(s: seq<Styled>)
    ensures WordForWord(s)
    decreases |s|
  {
    hide WordForWord;
    var i := FirstBreak(s);
    if i == |s| {
      OneWordIsDecorated(s);
    } else {
      WordForWordAlways(s[i + 1..]);
      FirstWordIsDecorated(s, i);
    }
  }

  /** Cutting the output gives as many pieces as cutting the input text, between the same separators; each
      nonempty piece is its word between opening and mirrored marks, and empty pieces stay empty. */
  lemma OutputIsDecoratedWordForWord(s: seq<Styled>)
    ensures |Split(Format(s))| == |Split(Chars(s))| == |Words(s)|
    ensures Separators(Format(s)) == Separators(Chars(s))
    ensures forall i :: 0 <= i < |Words(s)| ==>
              && Split(Chars(s))[i] == Chars(Words(s)[i])
              && Split(Format(s))[i] ==
                 (if Split(Chars(s))[i] == "" then ""
                  else Open(UnionOf(Words(s)[i])) + Split(Chars(s))[i] + Reverse(Open(UnionOf(Words(s)[i]))))
  {
    hide Split, Separators, Words, Open, UnionOf, Reverse, Format;
    WordForWordAlways(s);
  }

  lemma CutNone(t: string)
    requires forall k :: 0 <= k < |t| ==> IsWordPart(t[k])
    ensures Split(t) == [t] && Separators(t) == ""
  {
    FirstSeparatorIs(t, |t|);
  }

  lemma WordsCons(w: seq<Styled>, ws: seq<seq<Styled>>)
    ensures DecoratedWords([w] + ws) == [Decorated(w)] + DecoratedWords(ws)
    ensures PlainWords([w] + ws) == [Chars(w)] + PlainWords(ws)
  {
    hide Decorated, Chars;
  }

  /** The output depends on nothing but the text and the style union of each word: fragments may be cut
      differently, and styles moved within a word or put on separators, without any effect. */
  lemma OutputDependsOnWordStylesOnly(a: seq<Styled>, b: seq<Styled>)
    requires Chars(a) == Chars(b)
    requires forall i :: 0 <= i < |Words(a)| && i < |Words(b)| ==> UnionOf(Words(a)[i]) == UnionOf(Words(b)[i])
    ensures Format(a) == Format(b)
  {
    WordForWordAlways(a);
    WordForWordAlways(b);
    forall i | 0 <= i < |Words(a)| ensures Decorated(Words(a)[i]) == Decorated(Words(b)[i]) {
      assert PlainWords(Words(a))[i] == PlainWords(Words(b))[i];
      assert Chars(Words(a)[i]) == Chars(Words(b)[i]);
      assert |Words(a)[i]| == |Chars(Words(a)[i])| && |Words(b)[i]| == |Chars(Words(b)[i])|;
    }
    assert DecoratedWords(Words(a)) == DecoratedWords(Words(b));
    JoinSplit(Format(a));
    JoinSplit(Format(b));
  }

  /** Pieces are what lies between spaces and newlines. */
  lemma {:induction false} SpacesAndNewlinesSeparate(t: string)
    ensures forall i :: 0 <= i < |Split(t)| ==> ' ' !in Split(t)[i] && '\n' !in Split(t)[i]
    ensures forall c :: c in Separators(t) ==> c == ' ' || c == '\n'
    decreases |t|
  {
    var i := FirstSeparator(t);
    if i == |t| {
    } else {
      SpacesAndNewlinesSeparate(t[i + 1..]);
    }
  }

  predicate IsWord(word: string) { word != "" && ' ' !in word && '\n' !in word }

  lemma FragmentsOfElement(name: string, closed: bool, word: string)
    requires word != ""
    ensures FromChildren([Element(name, closed, [Text(word)])], {}, 1)
         == (if name == "p" && closed then [Fragment("\n", {})] else []) + [Fragment(word, TagToStyle(name))]
  {
    hide TagToStyle;
    var node, inner, style := Element(name, closed, [Text(word)]), [Text(word)], TagToStyle(name);
    assert {} + style == style;
    assert FromChildren(inner, style, 0) == [] && FromNode(inner[0], style) == [Fragment(word, style)];
    assert FromChildren(inner, style, 1) == [Fragment(word, style)];
    assert FromChildren([node], {}, 0) == [];
    assert FromChildren([node], {}, 1) == [] + FromNode(node, {});
  }

  lemma ExpandOne(fragments: seq<Fragment>)
    requires |fragments| == 1
    ensures Expand(fragments, 1) == StyledText(fragments[0].text, fragments[0].style)
  {
    assert Expand(fragments, 0) == [];
  }

  lemma ExpandTwo(fragments: seq<Fragment>)
    requires |fragments| == 2
    ensures Expand(fragments, 2)
         == StyledText(fragments[0].text, fragments[0].style) + StyledText(fragments[1].text, fragments[1].style)
  {
    assert Expand(fragments, 0) == [] && Expand(fragments, 1) == StyledText(fragments[0].text, fragments[0].style);
  }

  lemma BreakIsKept()
    ensures EndsWithBreak(StyledText("\n", {})) && Format(StyledText("\n", {})) == "\n"
  {
    var s := StyledText("\n", {});
    assert s == [Styled('\n', {})];
    FirstBreakIs(s, 0);
    assert s[..0] == [] && s[1..] == [];
    DecoratedNothing();
  }

  lemma StyledWord(word: string, style: Styles)
    requires IsWord(word)
    ensures Format(StyledText(word, style)) == Open(style) + word + Reverse(Open(style))
  {
    var s := StyledText(word, style);
    NoBreak(s);
    assert Chars(s) == word;
    UnionOfOne(word, style, |word|);
    assert s[..|word|] == s;
  }

  lemma {:induction false} UnionOfOne(word: string, style: Styles, n: nat)
    requires 0 < n <= |word|
    ensures UnionOf(StyledText(word, style)[..n]) == style
  {
    var s := StyledText(word, style);
    assert s[..n][..n - 1] == s[..n - 1];
    if n == 1 {
    } else {
      UnionOfOne(word, style, n - 1);
    }
  }

  lemma MarkOfTag(name: string)
    ensures var open := Open(TagToStyle(name));
            && open == (if name in ["strong", "b"] then "*" else if name in ["em", "i"] then "_"
                        else if name in ["del", "s", "strike"] then "~" else if name in ["code", "pre"] then "`"
                        else "")
            && Reverse(open) == open
  {
  }

  /** One word inside one element: its mark on both sides, and a line break before a closed paragraph. */
  lemma WordInElement(name: string, closed: bool, word: string)
    requires IsWord(word)
    ensures var fragments := FromChildren([Element(name, closed, [Text(word)])], {}, 1);
            var mark := if name in ["strong", "b"] then "*" else if name in ["em", "i"] then "_"
                        else if name in ["del", "s", "strike"] then "~" else if name in ["code", "pre"] then "`"
                        else "";
            Format(Expand(fragments, |fragments|))
            == (if name == "p" && closed then "\n" else "") + mark + word + mark
  {
    hide FromChildren, Format, Expand, StyledText, Open, TagToStyle, Reverse, EndsWithBreak;
    var style := TagToStyle(name);
    FragmentsOfElement(name, closed, word);
    StyledWord(word, style);
    MarkOfTag(name);
    if name == "p" && closed {
      var fragments := [Fragment("\n", {}), Fragment(word, style)];
      assert [Fragment("\n", {})] + [Fragment(word, style)] == fragments;
      ExpandTwo(fragments);
      BreakIsKept();
      FormatConcat(StyledText("\n", {}), StyledText(word, style));
    } else {
      assert [] + [Fragment(word, style)] == [Fragment(word, style)];
      ExpandOne([Fragment(word, style)]);
    }
  }

  /** The marks of several styles, always in the same order, and mirrored after the word. */
  lemma MarksOfSeveral(styles: Styles)
    ensures Open({Bold, Italic, Strikethrough, Code}) == "*_~`"
    ensures Reverse(Open({Bold, Italic, Strikethrough, Code})) == "`~_*"
    ensures Open(styles) == (if Bold in styles then Open({Bold}) else "")
                          + (if Italic in styles then Open({Italic}) else "")
                          + (if Strikethrough in styles then Open({Strikethrough}) else "")
                          + (if Code in styles then Open({Code}) else "")
    ensures Open({Bold}) == "*" && Open({Italic}) == "_" && Open({Strikethrough}) == "~" && Open({Code}) == "`"
  {
  }

  // ----- From the tree to the words -----

  /** The styled characters a list of producing places contributes. */
  function Contributions(ls: seq<Leaf>): seq<Styled> {
    if ls == [] then []
    else
      var last := StyledLeaf(ls[|ls| - 1]);
      Contributions(ls[..|ls| - 1]) + StyledText(last.text, last.style)
  }

  lemma {:induction false} ExpansionIsContributions(ls: seq<Leaf>, n: nat)
    requires n <= |ls|
    ensures Expand(StyledLeaves(ls), n) == Contributions(ls[..n])
  {
    if n == 0 {
    } else {
      ExpansionIsContributions(ls, n - 1);
      assert ls[..n][..n - 1] == ls[..n - 1];
    }
  }

  /** The leaf that contributes character k. */
  function Contributor(ls: seq<Leaf>, k: nat): Leaf
    requires k < |Contributions(ls)|
    decreases |ls|
  {
    var last := ls[|ls| - 1];
    var before := ls[..|ls| - 1];
    if k < |Contributions(before)| then Contributor(before, k) else last
  }

  lemma {:induction false} CharacterComesFromItsContributor(ls: seq<Leaf>, k: nat)
    requires k < |Contributions(ls)|
    ensures var l := Contributor(ls, k);
            l in ls && Contributions(ls)[k].c in l.text && Contributions(ls)[k].style == StyledLeaf(l).style
    decreases |ls|
  {
    var n := |ls| - 1;
    if k < |Contributions(ls[..n])| {
      CharacterComesFromItsContributor(ls[..n], k);
    } else {
    }
  }

  /** Where word w begins in the styled text. */
  function WordStart(s: seq<Styled>, w: nat): nat
    requires w < |Words(s)|
  {
    if w == 0 then 0 else FirstBreak(s) + 1 + WordStart(s[FirstBreak(s) + 1..], w - 1)
  }

  lemma {:induction false} WordIsSlice(s: seq<Styled>, w: nat)
    requires w < |Words(s)|
    ensures WordStart(s, w) + |Words(s)[w]| <= |s|
    ensures Words(s)[w] == s[WordStart(s, w)..WordStart(s, w) + |Words(s)[w]|]
    decreases |s|
  {
    var i := FirstBreak(s);
    hide FirstBreak;
    if w > 0 {
      var rest := s[i + 1..];
      WordIsSlice(rest, w - 1);
      var from, to := WordStart(rest, w - 1), WordStart(rest, w - 1) + |Words(rest)[w - 1]|;
      assert rest[from..to] == s[i + 1 + from..i + 1 + to];
    } else {
      assert s[..i] == s[0..i];
    }
  }

  lemma {:induction false} UnionIsOverCharacters(w: seq<Styled>, f: StyleFlag)
    ensures f in UnionOf(w) <==> exists k :: 0 <= k < |w| && f in w[k].style
  {
    if w == [] {
    } else {
      var n := |w| - 1;
      UnionIsOverCharacters(w[..n], f);
      assert forall k :: 0 <= k < n ==> w[..n][k] == w[k];
    }
  }

  lemma {:induction false} TagsOfAncestors(names: seq<string>, f: StyleFlag)
    ensures f in UnionOfTags(names) <==> exists a :: a in names && f in TagToStyle(a)
  {
    hide TagToStyle;
    if names == [] {
    } else {
      var n := |names| - 1;
      TagsOfAncestors(names[..n], f);
      assert names == names[..n] + [names[n]];
    }
  }

  /** A text leaf inside an element whose tag means f. */
  predicate InsideTag(l: Leaf, f: StyleFlag) {
    !l.isBreak && exists a :: a in l.ancestors && f in TagToStyle(a)
  }

  /** Tree to output: the formatted document is its producing places' text, cut into words, and word w carries
      mark f exactly when some text leaf contributing a character to w lies inside an element whose tag
      means f. */
  lemma WordCarriesStylesOfItsLeaves(children: seq<Node>, w: nat, f: StyleFlag)
    requires w < |Words(Contributions(Leaves(children, [], |children|)))|
    ensures Expand(FromChildren(children, {}, |children|), |FromChildren(children, {}, |children|)|)
         == Contributions(Leaves(children, [], |children|))
    ensures var ls := Leaves(children, [], |children|);
            var s := Contributions(ls);
            && WordStart(s, w) + |Words(s)[w]| <= |s|
            && (f in UnionOf(Words(s)[w]) <==>
                  exists k: nat :: WordStart(s, w) <= k < WordStart(s, w) + |Words(s)[w]|
                       && !Contributor(ls, k).isBreak
                       && exists a :: a in Contributor(ls, k).ancestors && f in TagToStyle(a))
  {
    hide TagToStyle, LeavesOfNode, FirstBreak, Words, Expand, Contributions, Leaves, FromChildren, UnionOf, Contributor;
    var ls := Leaves(children, [], |children|);
    TraversalIsStyledLeaves(children, [], |children|);
    ExpansionIsContributions(ls, |ls|);
    assert ls[..|ls|] == ls;
    var s := Contributions(ls);
    WordIsSlice(s, w);
    UnionIsOverCharacters(Words(s)[w], f);
    SliceCarries(s, WordStart(s, w), Words(s)[w], f);
    forall k: nat | k < |s|
      ensures f in s[k].style <==> InsideTag(Contributor(ls, k), f)
    {
      CharacterComesFromItsContributor(ls, k);
      TagsOfAncestors(Contributor(ls, k).ancestors, f);
    }
    var start, end := WordStart(s, w), WordStart(s, w) + |Words(s)[w]|;
    assert f in UnionOf(Words(s)[w]) <==> exists k: nat :: start <= k < end && f in s[k].style;
    if k: nat :| start <= k < end && f in s[k].style {
      assert InsideTag(Contributor(ls, k), f);
      assert exists k: nat :: start <= k < end && InsideTag(Contributor(ls, k), f);
    }
    if k: nat :| start <= k < end && InsideTag(Contributor(ls, k), f) {
      assert f in s[k].style;
      assert exists k: nat :: start <= k < end && f in s[k].style;
    }
  }

  lemma SliceCarries(s: seq<Styled>, start: nat, word: seq<Styled>, f: StyleFlag)
    requires start + |word| <= |s| && word == s[start..start + |word|]
    ensures (exists k :: 0 <= k < |word| && f in word[k].style)
            <==> (exists k: nat :: start <= k < start + |word| && f in s[k].style)
  {
    if k: nat :| start <= k < start + |word| && f in s[k].style {
      assert f in word[k - start].style;
    }
    if k :| 0 <= k < |word| && f in word[k].style {
      assert f in s[start + k].style;
    }
  }
}
