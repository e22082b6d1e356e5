/** HTML to WhatsApp markup: the tree traversal that collects styled text, and the word styler. */
module HtmlToWP {
  datatype StyleFlag = Bold | Italic | Strikethrough | Code

  /** A combination of flags; the bitwise or is the union. */
  type Styles = set<StyleFlag>

  datatype Node = Text(text: string) | Element(name: string, closed: bool, children: seq<Node>)

  datatype Fragment = Fragment(text: string, style: Styles)

  /** One character and the styles of the fragment it comes from. */
  datatype Styled = Styled(c: char, style: Styles)

  function TagToStyle(name: string): Styles {
    if name == "strong" || name == "b" then {Bold}
    else if name == "em" || name == "i" then {Italic}
    else if name == "del" || name == "s" || name == "strike" then {Strikethrough}
    else if name == "code" || name == "pre" then {Code}
    else {}
  }

  /** Which names mean which style. */
  lemma TagsMean(name: string)
    ensures Bold in TagToStyle(name) <==> name in ["strong", "b"]
    ensures Italic in TagToStyle(name) <==> name in ["em", "i"]
    ensures Strikethrough in TagToStyle(name) <==> name in ["del", "s", "strike"]
    ensures Code in TagToStyle(name) <==> name in ["code", "pre"]
  {
  }

  predicate IsWordPart(c: char) { !(c == '\n' || c == ' ') }

  // ----- Tree to fragments -----

  function FromNode(node: Node, style: Styles): seq<Fragment>
    decreases node
  {
    match node
    case Text(text) => if text == "" then [] else [Fragment(text, style)]
    case Element(name, closed, children) =>
      (if name == "p" && closed then [Fragment("\n", {})] else [])
      + FromChildren(children, style + TagToStyle(name), |children|)
  }

  /** The fragments of the first n children. */
  function FromChildren(children: seq<Node>, style: Styles, n: nat): seq<Fragment>
    requires n <= |children|
    decreases children, n
  {
    if n == 0 then [] else FromChildren(children, style, n - 1) + FromNode(children[n - 1], style)
  }

  class FragmentList {
    var items: seq<Fragment>

    constructor ()
      ensures items == []
    {
      items := [];
    }

    method Add(f: Fragment)
      modifies this
      ensures items == old(items) + [f]
    {
      items := items + [f];
    }
  }

  method Traverse(children: seq<Node>, currentStyle: Styles, fragments: FragmentList)
    modifies fragments
    ensures fragments.items == old(fragments.items) + FromChildren(children, currentStyle, |children|)
    decreases children
  {
    for i := 0 to |children|
      invariant fragments.items == old(fragments.items) + FromChildren(children, currentStyle, i)
    {
      var child := children[i];
      match child {
        case Text(text) =>
          if text != "" {
            fragments.Add(Fragment(text, currentStyle));
          }
        case Element(name, closed, grandchildren) =>
          if name == "p" && closed {
            fragments.Add(Fragment("\n", {}));
          }
          Traverse(grandchildren, currentStyle + TagToStyle(name), fragments);
      }
    }
  }

  /** A place in the tree that produces text: a nonempty text leaf or the break of a closed paragraph,
      with the names of the elements around it, outermost first. */
  datatype Leaf = Leaf(ancestors: seq<string>, text: string, isBreak: bool)

  function LeavesOfNode(node: Node, ancestors: seq<string>): seq<Leaf>
    decreases node
  {
    match node
    case Text(text) => if text == "" then [] else [Leaf(ancestors, text, false)]
    case Element(name, closed, children) =>
      (if name == "p" && closed then [Leaf(ancestors, "\n", true)] else [])
      + Leaves(children, ancestors + [name], |children|)
  }

  /** The producing places of the first n children in document order. */
  function Leaves(children: seq<Node>, ancestors: seq<string>, n: nat): seq<Leaf>
    requires n <= |children|
    decreases children, n
  {
    if n == 0 then [] else Leaves(children, ancestors, n - 1) + LeavesOfNode(children[n - 1], ancestors)
  }

  function UnionOfTags(names: seq<string>): Styles {
    if names == [] then {} else UnionOfTags(names[..|names| - 1]) + TagToStyle(names[|names| - 1])
  }

  function StyledLeaf(l: Leaf): Fragment { Fragment(l.text, if l.isBreak then {} else UnionOfTags(l.ancestors)) }

  function StyledLeaves(ls: seq<Leaf>): seq<Fragment> { seq(|ls|, i requires 0 <= i < |ls| => StyledLeaf(ls[i])) }

  /** Tree to text: the traversal yields exactly the producing places in document order, each text leaf
      styled by the union of its ancestors' tags and each paragraph break unstyled. */
  lemma {:induction false} TraversalIsStyledLeaves(children: seq<Node>, ancestors: seq<string>, n: nat)
    requires n <= |children|
    ensures FromChildren(children, UnionOfTags(ancestors), n) == StyledLeaves(Leaves(children, ancestors, n))
    decreases children, n
  {
    if n == 0 {
    } else {
      TraversalIsStyledLeaves(children, ancestors, n - 1);
      NodeIsStyledLeaves(children[n - 1], ancestors);
      StyledLeavesConcat(Leaves(children, ancestors, n - 1), LeavesOfNode(children[n - 1], ancestors));
    }
  }

  lemma {:induction false} NodeIsStyledLeaves(node: Node, ancestors: seq<string>)
    ensures FromNode(node, UnionOfTags(ancestors)) == StyledLeaves(LeavesOfNode(node, ancestors))
    decreases node
  {
    match node {
      case Text(text) =>
      case Element(name, closed, children) =>
        hide TagToStyle;
        var inner := ancestors + [name];
        assert inner[..|ancestors|] == ancestors;
        TraversalIsStyledLeaves(children, inner, |children|);
        var breaks := if name == "p" && closed then [Leaf(ancestors, "\n", true)] else [];
        StyledLeavesConcat(breaks, Leaves(children, inner, |children|));
    }
  }

  lemma StyledLeavesConcat(a: seq<Leaf>, b: seq<Leaf>)
    ensures StyledLeaves(a + b) == StyledLeaves(a) + StyledLeaves(b)
  {
  }

  // ----- Words -----

  function Chars(w: seq<Styled>): string { seq(|w|, i requires 0 <= i < |w| => w[i].c) }

  function UnionOf(w: seq<Styled>): Styles {
    if w == [] then {} else UnionOf(w[..|w| - 1]) + w[|w| - 1].style
  }

  /** The opening marks of a style combination, always in the same order. */
  function Open(styles: Styles): string {
    (if Bold in styles then "*" else "") + (if Italic in styles then "_" else "")
    + (if Strikethrough in styles then "~" else "") + (if Code in styles then "`" else "")
  }

  function Reverse(s: string): string { seq(|s|, i requires 0 <= i < |s| => s[|s| - 1 - i]) }

  /** A word between its opening marks and the same marks mirrored; an empty word stays empty. */
  function Decorated(w: seq<Styled>): string {
    if w == [] then "" else Open(UnionOf(w)) + Chars(w) + Reverse(Open(UnionOf(w)))
  }

  /** The index of the first separator, or the length if there is none. */
  function FirstBreak(s: seq<Styled>): (i: nat)
    ensures i <= |s|
    ensures forall k :: 0 <= k < i ==> IsWordPart(s[k].c)
    ensures i < |s| ==> !IsWordPart(s[i].c)
  {
    if s == [] || !IsWordPart(s[0].c) then 0 else 1 + FirstBreak(s[1..])
  }

  /** The specification of `BuildText`: each maximal word decorated, every separator kept in place. */
  function Format(s: seq<Styled>): string {
    var i := FirstBreak(s);
    if i == |s| then Decorated(s) else Decorated(s[..i]) + [s[i].c] + Format(s[i + 1..])
  }

  function StyledText(text: string, style: Styles): seq<Styled> {
    seq(|text|, i requires 0 <= i < |text| => Styled(text[i], style))
  }

  /** The characters of the first n fragments with their styles. */
  function Expand(fragments: seq<Fragment>, n: nat): seq<Styled>
    requires n <= |fragments|
  {
    if n == 0 then [] else Expand(fragments, n - 1) + StyledText(fragments[n - 1].text, fragments[n - 1].style)
  }

  // ----- The loops -----

  method ApplyStyles(word: string, styles: Styles) returns (r: string)
    ensures r == Open(styles) + word + Reverse(Open(styles))
  {
    if styles == {} {
      assert Open(styles) + word + Reverse(Open(styles)) == word;
      return word;
    }
    var open, close := "", "";
    if Bold in styles {
      open, close := open + "*", "*" + close;
    }
    if Italic in styles {
      open, close := open + "_", "_" + close;
    }
    if Strikethrough in styles {
      open, close := open + "~", "~" + close;
    }
    if Code in styles {
      open, close := open + "`", "`" + close;
    }
    assert open == Open(styles) && close == Reverse(Open(styles));
    r := open + word + close;
  }

  /** `FlushWord`: moves the current word, decorated, to the result. */
  method FlushWord(result: string, currentWord: string, wordStyle: Styles, ghost w: seq<Styled>)
    returns (result': string, currentWord': string, wordStyle': Styles)
    requires currentWord == Chars(w) && wordStyle == UnionOf(w)
    ensures result' == result + Decorated(w) && currentWord' == "" && wordStyle' == {}
  {
    if |currentWord| == 0 {
      assert w == [];
      return result, currentWord, wordStyle;
    }
    var word := currentWord;
    if wordStyle != {} {
      word := ApplyStyles(word, wordStyle);
    } else {
      assert Open({}) + word + Reverse(Open({})) == word;
    }
    return result + word, "", {};
  }

  method BuildText(fragments: seq<Fragment>) returns (text: string)
    ensures text == Format(Expand(fragments, |fragments|))
  {
    var result, currentWord, wordStyle := "", "", {};
    ghost var closed: seq<Styled>, w: seq<Styled> := [], [];
    TracksNothing();
    hide Open, Decorated, UnionOf, Chars, Format, FirstBreak, Reverse, IsWordPart, EndsWithBreak, Tracks;
    for i := 0 to |fragments|
      invariant closed + w == Expand(fragments, i)
      invariant Tracks(result, currentWord, wordStyle, closed, w)
    {
      var frag := fragments[i];
      ghost var before := Expand(fragments, i);
      for j := 0 to |frag.text|
        invariant closed + w == before + StyledText(frag.text[..j], frag.style)
        invariant Tracks(result, currentWord, wordStyle, closed, w)
      {
        var c := frag.text[j];
        ghost var x := Styled(c, frag.style);
        StyledTextGrows(frag.text, frag.style, j);
        assert closed + w + [x] == before + StyledText(frag.text[..j + 1], frag.style);
        if IsWordPart(c) {
          TracksWordPart(result, currentWord, wordStyle, closed, w, x);
          currentWord := currentWord + [c];
          wordStyle := wordStyle + frag.style;
          assert closed + (w + [x]) == closed + w + [x];
          w := w + [x];
        } else {
          TracksBreak(result, currentWord, wordStyle, closed, w, x);
          result, currentWord, wordStyle := FlushWord(result, currentWord, wordStyle, w);
          result := result + [c];
          assert closed + (w + [x]) + [] == closed + w + [x];
          closed, w := closed + (w + [x]), [];
        }
      }
      assert frag.text[..|frag.text|] == frag.text;
    }
    TracksEnd(result, currentWord, wordStyle, closed, w);
    result, currentWord, wordStyle := FlushWord(result, currentWord, wordStyle, w);
    text := result;
  }

  /** What the buffers of `BuildText` hold: `closed` is formatted, `w` is the word in progress. */
  ghost predicate Tracks(result: string, currentWord: string, wordStyle: Styles, closed: seq<Styled>, w: seq<Styled>) {
    && EndsWithBreak(closed) && FirstBreak(w) == |w|
    && result == Format(closed) && currentWord == Chars(w) && wordStyle == UnionOf(w)
  }

  lemma TracksNothing()
    ensures Tracks("", "", {}, [], [])
  {
  }

  lemma StyledTextGrows(text: string, style: Styles, j: nat)
    requires j < |text|
    ensures StyledText(text[..j + 1], style) == StyledText(text[..j], style) + [Styled(text[j], style)]
  {
  }

  lemma TracksWordPart(result: string, currentWord: string, wordStyle: Styles, closed: seq<Styled>, w: seq<Styled>,
                       x: Styled)
    requires Tracks(result, currentWord, wordStyle, closed, w) && IsWordPart(x.c)
    ensures Tracks(result, currentWord + [x.c], wordStyle + x.style, closed, w + [x])
  {
    UnionOfAppend(w, x);
    NoBreak(w + [x]);
  }

  lemma TracksBreak(result: string, currentWord: string, wordStyle: Styles, closed: seq<Styled>, w: seq<Styled>,
                    x: Styled)
    requires Tracks(result, currentWord, wordStyle, closed, w) && !IsWordPart(x.c)
    ensures currentWord == Chars(w) && wordStyle == UnionOf(w)
    ensures Tracks(result + Decorated(w) + [x.c], "", {}, closed + (w + [x]), [])
  {
    CloseWord(closed, w, x);
  }

  lemma TracksEnd(result: string, currentWord: string, wordStyle: Styles, closed: seq<Styled>, w: seq<Styled>)
    requires Tracks(result, currentWord, wordStyle, closed, w)
    ensures currentWord == Chars(w) && wordStyle == UnionOf(w)
    ensures result + Decorated(w) == Format(closed + w)
  {
    FormatConcat(closed, w);
  }

  ghost predicate EndsWithBreak(s: seq<Styled>) { s == [] || !IsWordPart(s[|s| - 1].c) }

  lemma UnionOfAppend(w: seq<Styled>, x: Styled)
    ensures UnionOf(w + [x]) == UnionOf(w) + x.style
    ensures Chars(w + [x]) == Chars(w) + [x.c]
  {
    assert (w + [x])[..|w|] == w;
  }

  lemma NoBreak(s: seq<Styled>)
    requires forall k :: 0 <= k < |s| ==> IsWordPart(s[k].c)
    ensures FirstBreak(s) == |s|
  {
  }

  /** After a separator the formatting starts afresh. */
  lemma {:induction false} FormatConcat(a: seq<Styled>, b: seq<Styled>)
    requires EndsWithBreak(a)
    ensures Format(a + b) == Format(a) + Format(b)
    decreases |a|
  {
    if a == [] {
      assert a + b == b;
      DecoratedNothing();
    } else {
      var i := FirstBreak(a);
      hide Decorated, Format, FirstBreak;
      FirstBreakIs(a + b, i);
      FormatFirst(a, i);
      FormatFirst(a + b, i);
      SliceConcat(a, b, i);
      FormatConcat(a[i + 1..], b);
      ConcatAssociates(Decorated(a[..i]) + [a[i].c], Format(a[i + 1..]), Format(b));
    }
  }

  lemma SliceConcat(a: seq<Styled>, b: seq<Styled>, i: nat)
    requires i < |a|
    ensures (a + b)[..i] == a[..i] && (a + b)[i] == a[i] && (a + b)[i + 1..] == a[i + 1..] + b
  {
  }

  lemma ConcatAssociates(x: string, y: string, z: string)
    ensures x + (y + z) == x + y + z
  {
  }

  lemma FormatFirst(s: seq<Styled>, i: nat)
    requires i < |s| && FirstBreak(s) == i
    ensures Format(s) == Decorated(s[..i]) + [s[i].c] + Format(s[i + 1..])
  {
  }

  lemma DecoratedNothing()
    ensures Decorated([]) == "" && Format([]) == ""
  {
  }

  lemma FirstBreakIs(s: seq<Styled>, i: nat)
    requires i < |s| && !IsWordPart(s[i].c)
    requires forall k :: 0 <= k < i ==> IsWordPart(s[k].c)
    ensures FirstBreak(s) == i
  {
  }

  lemma CloseWord(closed: seq<Styled>, w: seq<Styled>, sep: Styled)
    requires EndsWithBreak(closed) && FirstBreak(w) == |w| && !IsWordPart(sep.c)
    ensures Format(closed + (w + [sep])) == Format(closed) + Decorated(w) + [sep.c]
    ensures EndsWithBreak(closed + (w + [sep]))
  {
    hide Decorated;
    FormatConcat(closed, w + [sep]);
    FirstBreakIs(w + [sep], |w|);
    assert (w + [sep])[..|w|] == w && (w + [sep])[|w| + 1..] == [];
    DecoratedNothing();
  }
}
