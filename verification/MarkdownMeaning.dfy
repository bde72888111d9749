/** What the trees of the renderer mean, without the scanner: a reader takes a tree and a line of
    Markdown and checks that the tree spells the line, byte for byte, with the marks of every element
    around it; and laws say which element every form of markup becomes. */
module MarkdownMeaning {
  import opened Basics
  import opened Html
  import opened MarkdownInline

  // ----- reading a line by its tree -----

  /** What follows a text. */
  function Past(text: string, s: string): Option<string> {
    if text <= s then Some(s[|text|..]) else None
  }

  /** The attributes of a link that stands for its own text: an address, a path or a reference. */
  predicate OwnLink(lib: Lib, o: Opts, attrs: seq<Attribute>, text: string) {
    || attrs == [Attribute("href", lib.normal(text)), Attribute("target", "_blank"),
                 Attribute("rel", "noopener noreferrer")]
    || attrs == [Attribute("class", "path"), Attribute("href", o.local(text)), Attribute("target", "_blank"),
                 Attribute("rel", "noopener")]
    || attrs == [Attribute("class", "ref"), Attribute("href", o.refs + text)]
  }

  /** The attributes of a link with a target of its own. */
  predicate TargetLink(lib: Lib, attrs: seq<Attribute>, target: string) {
    || attrs == [Attribute("href", target)]
    || attrs == [Attribute("href", lib.normal(target)), Attribute("target", "_blank"),
                 Attribute("rel", "noopener noreferrer")]
  }

  /** What is left of s behind the text that a node stands for. */
  function PastNode(lib: Lib, o: Opts, node: Node, s: string): Option<string>
    decreases node, 0
  {
    match node
    case Text(text) => Past(text, s)
    case Void(name, attrs) =>
      if name == "img" && |attrs| == 3 && attrs[0].key == "src" && attrs[1].key == "alt"
         && attrs[2] == Attribute("loading", "lazy")
      then Past("![" + attrs[1].value + "](" + attrs[0].value + ")", s)
      else None
    case Element(name, attrs, kids) =>
      if name == "code" && attrs == [] && |kids| == 1 && kids[0].Text? then Past("`" + kids[0].text + "`", s)
      else if name == "strong" && attrs == [] then PastMarked(lib, o, "**", kids, s)
      else if name == "del" && attrs == [] then PastMarked(lib, o, "~~", kids, s)
      else if name == "em" && attrs == [] then
        if s != "" && (s[0] == '*' || s[0] == '_') then PastMarked(lib, o, [s[0]], kids, s) else None
      else if name == "a" then
        if "[" <= s then PastLink(lib, attrs, kids, s) else PastOwn(lib, o, attrs, kids, s)
      else None
  }

  /** Kids between two marks. */
  function PastMarked(lib: Lib, o: Opts, mark: string, kids: seq<Node>, s: string): Option<string>
    decreases kids, 2
  {
    match Past(mark, s)
    case None => None
    case Some(inner) =>
      match PastNodes(lib, o, kids, inner)
      case None => None
      case Some(rest) => Past(mark, rest)
  }

  /** [kids](target) */
  function PastLink(lib: Lib, attrs: seq<Attribute>, kids: seq<Node>, s: string): Option<string>
    requires "[" <= s
    decreases kids, 2
  {
    match PastNodes(lib, NO_OPTS, kids, s[1..])
    case None => None
    case Some(rest) =>
      match Past("](", rest)
      case None => None
      case Some(target) =>
        var j := IndexFrom(target, ')', 0);
        if j < |target| && TargetLink(lib, attrs, target[..j]) then Some(target[j + 1..]) else None
  }

  /** A link that stands for its own text, which may be in backticks. */
  function PastOwn(lib: Lib, o: Opts, attrs: seq<Attribute>, kids: seq<Node>, s: string): Option<string>
    decreases kids, 2
  {
    if |kids| == 1 && kids[0].Text? && OwnLink(lib, o, attrs, kids[0].text) then Past(kids[0].text, s)
    else if |kids| == 1 && kids[0].Element? && kids[0].name == "code" && kids[0].attrs == [] && |kids[0].kids| == 1
            && kids[0].kids[0].Text? && OwnLink(lib, o, attrs, kids[0].kids[0].text)
    then Past("`" + kids[0].kids[0].text + "`", s)
    else None
  }

  function PastNodes(lib: Lib, o: Opts, nodes: seq<Node>, s: string): Option<string>
    decreases nodes, 1
  {
    if nodes == [] then Some(s)
    else
      match PastNode(lib, o, nodes[0], s)
      case None => None
      case Some(rest) => PastNodes(lib, o, nodes[1..], rest)
  }

  // ----- every line is spelled by its tree -----

  lemma {:induction false} PastConcat(lib: Lib, o: Opts, a: seq<Node>, b: seq<Node>, s: string)
    requires PastNodes(lib, o, a, s).Some?
    ensures PastNodes(lib, o, a + b, s) == PastNodes(lib, o, b, PastNodes(lib, o, a, s).value)
    decreases |a|
  {
    hide PastNode;
    if a == [] {
      assert a + b == b;
    } else {
      assert (a + b)[0] == a[0] && (a + b)[1..] == a[1..] + b;
      PastConcat(lib, o, a[1..], b, PastNode(lib, o, a[0], s).value);
    }
  }

  lemma PastOne(lib: Lib, o: Opts, node: Node, s: string)
    ensures PastNodes(lib, o, [node], s) == PastNode(lib, o, node, s)
  {
    hide PastNode;
    assert [node][1..] == [];
    if PastNode(lib, o, node, s).Some? {
      assert PastNodes(lib, o, [], PastNode(lib, o, node, s).value) == PastNode(lib, o, node, s);
    }
  }

  lemma PastText(text: string, rest: string)
    ensures Past(text, text + rest) == Some(rest)
  {
  }

  /** The tree of a line spells the line, whatever follows. */
  lemma {:induction false} InlineSpells(lib: Lib, s: string, i: nat, links: bool, o: Opts, left: nat, rest: string)
    requires i <= |s|
    ensures PastNodes(lib, o, PlainInline(lib, s, i, links, o, left).0, s[i..] + rest) == Some(rest)
    decreases |s|, |s| - i, 1
  {
    hide PlainMarker, PastNode;
    if i == |s| {
      assert s[i..] + rest == rest;
    } else {
      var m := PlainMarker(lib, s, i, links, o, left);
      if m.n > 0 {
        MarkerSpells(lib, s, i, links, o, left, rest);
        InlineSpells(lib, s, i + m.n, links, o, m.left, rest);
        PastConcat(lib, o, m.nodes, PlainInline(lib, s, i + m.n, links, o, m.left).0, s[i..] + rest);
      } else {
        InlineSpells(lib, s, i + 1, links, o, m.left, rest);
        CharSpells(lib, o, s, i, rest);
        PastConcat(lib, o, [Text(s[i..i + 1])], PlainInline(lib, s, i + 1, links, o, m.left).0, s[i..] + rest);
      }
    }
  }

  lemma CharSpells(lib: Lib, o: Opts, s: string, i: nat, rest: string)
    requires i < |s|
    ensures PastNodes(lib, o, [Text(s[i..i + 1])], s[i..] + rest) == Some(s[i + 1..] + rest)
  {
    PastOne(lib, o, Text(s[i..i + 1]), s[i..] + rest);
    assert s[i..] + rest == s[i..i + 1] + (s[i + 1..] + rest);
    PastText(s[i..i + 1], s[i + 1..] + rest);
  }

  lemma {:induction false} MarkerSpells(lib: Lib, s: string, i: nat, links: bool, o: Opts, left: nat, rest: string)
    requires i < |s| && PlainMarker(lib, s, i, links, o, left).n > 0
    ensures var m := PlainMarker(lib, s, i, links, o, left);
      PastNodes(lib, o, m.nodes, s[i..] + rest) == Some(s[i + m.n..] + rest)
    decreases |s|, |s| - i, 0
  {
    hide *;
    Marks(lib, s, i, links, o, left);
    if s[i] == '`' {
      CodeSpells(lib, s, i, links, o, left, rest);
    } else if "~~" <= s[i..] {
      PairSpells(lib, s, i, links, o, left, rest, "~~", "del");
    } else if "**" <= s[i..] {
      PairSpells(lib, s, i, links, o, left, rest, "**", "strong");
    } else if s[i] == '*' || s[i] == '_' {
      EmphasisSpells(lib, s, i, links, o, left, rest);
    } else if "![" <= s[i..] && links && o.doc {
      PictureSpells(lib, s, i, o, left, rest);
    } else if s[i] == '[' && links {
      LinkSpells(lib, s, i, o, left, rest);
    } else {
      BareSpells(lib, s, i, links, o, left, rest);
    }
  }

  /** Which marker stands at a byte. */
  lemma Marks(lib: Lib, s: string, i: nat, links: bool, o: Opts, left: nat)
    requires i < |s|
    ensures var m := PlainMarker(lib, s, i, links, o, left);
      && ("~~" <= s[i..] ==> m == PlainPair(lib, s, i, links, o, left, "~~", "del"))
      && ("**" <= s[i..] ==> m == PlainPair(lib, s, i, links, o, left, "**", "strong"))
      && (s[i] !in "`*_" && !("~~" <= s[i..]) && !("![" <= s[i..] && links && o.doc) && !(s[i] == '[' && links)
          ==> m == Bare(lib, s, i, links, o, left))
  {
    hide Closing, CanLink, LinkTarget, LinkLength, Bare, PlainInline, PlainPair, PlainLink, Picture, PathHref, Index;
    assert s[i..][0] == s[i];
  }

  lemma HrefIsLocal(o: Opts, links: bool, left: nat, text: string)
    ensures PathHref(o, links, left, text).0 in {"", o.local(text)}
  {
    hide PathLike, RelLike;
  }

  /** A code span, and the link around it when it is a path. */
  lemma CodeNodeSpells(lib: Lib, o: Opts, href: string, text: string, rest: string)
    requires href in {"", o.local(text)}
    ensures var code := Element("code", [], [Text(text)]);
      PastNodes(lib, o, [if href != "" then Link(PathAttributes(href), [code]) else code], "`" + text + "`" + rest)
      == Some(rest)
  {
    var code := Element("code", [], [Text(text)]);
    var line := "`" + text + "`" + rest;
    PastText("`" + text + "`", rest);
    PastOne(lib, o, code, line);
    PastOne(lib, o, Link(PathAttributes(href), [code]), line);
    assert line[0] == '`' && !("[" <= line);
  }

  lemma CodeSpells(lib: Lib, s: string, i: nat, links: bool, o: Opts, left: nat, rest: string)
    requires i < |s| && s[i] == '`' && PlainMarker(lib, s, i, links, o, left).n > 0
    ensures var m := PlainMarker(lib, s, i, links, o, left);
      PastNodes(lib, o, m.nodes, s[i..] + rest) == Some(s[i + m.n..] + rest)
  {
    hide PathHref, PastNodes, PastNode, Closing, CanLink, Bare, PlainInline, PlainPair, PlainLink, Picture, Index;
    var here := s[i..];
    var j := Index(here[1..], "`");
    var text := here[1..1 + j];
    HrefIsLocal(o, links, left, text);
    CodeNodeSpells(lib, o, PathHref(o, links, left, text).0, text, s[i + j + 2..] + rest);
    assert here[1..][j] == '`';
    assert here + rest == "`" + text + "`" + (s[i + j + 2..] + rest);
  }

  lemma MarkedSpells(lib: Lib, o: Opts, mark: string, kids: seq<Node>, x: string, rest: string)
    requires PastNodes(lib, o, kids, x + (mark + rest)) == Some(mark + rest)
    ensures PastMarked(lib, o, mark, kids, mark + x + mark + rest) == Some(rest)
  {
    hide PastNodes;
    assert mark + x + mark + rest == mark + (x + (mark + rest));
    PastText(mark, x + (mark + rest));
    PastText(mark, rest);
  }

  lemma {:induction false} PairSpells(lib: Lib, s: string, i: nat, links: bool, o: Opts, left: nat, rest: string,
                                      mark: string, name: string)
    requires i < |s| && mark <= s[i..] && ((mark == "~~" && name == "del") || (mark == "**" && name == "strong"))
    ensures var m := PlainPair(lib, s, i, links, o, left, mark, name);
      PastNodes(lib, o, m.nodes, s[i..] + rest) == Some(s[i + m.n..] + rest)
    decreases |s|, |s| - i, 0, 0
  {
    hide PlainInline, PastNodes, Index, PastMarked;
    var here := s[i..];
    var j := Index(here[2..], mark);
    if j > 0 {
      var x, tail := here[2..2 + j], s[i + j + 4..] + rest;
      var kids := PlainInline(lib, x, 0, links, o, left).0;
      InlineSpells(lib, x, 0, links, o, left, mark + tail);
      assert x[0..] == x;
      MarkedSpells(lib, o, mark, kids, x, tail);
      PairEnds(here, mark, j);
      assert here + rest == mark + x + mark + tail;
      PastOne(lib, o, Element(name, [], kids), here + rest);
    } else {
      PastOne(lib, o, Text(mark), here + rest);
      assert here + rest == mark + (s[i + 2..] + rest);
    }
  }

  lemma PairEnds(here: string, mark: string, j: nat)
    requires |mark| == 2 && mark <= here && Index(here[2..], mark) == j
    ensures j + 4 <= |here| && here == mark + here[2..2 + j] + mark + here[j + 4..]
  {
    assert mark <= here[2..][j..];
    assert here[2..][j..] == here[2 + j..];
  }

  lemma {:induction false} EmphasisSpells(lib: Lib, s: string, i: nat, links: bool, o: Opts, left: nat, rest: string)
    requires i < |s| && (s[i] == '*' || s[i] == '_') && !("**" <= s[i..])
    requires PlainMarker(lib, s, i, links, o, left).n > 0
    ensures var m := PlainMarker(lib, s, i, links, o, left);
      PastNodes(lib, o, m.nodes, s[i..] + rest) == Some(s[i + m.n..] + rest)
    decreases |s|, |s| - i, 0, 0
  {
    hide PlainInline, PastNodes, Index, PastMarked, Closing, CanLink, Bare, PathHref;
    var j := Closing(s, i);
    var mark := [s[i]];
    assert s[i..][0] == s[i];
    ClosesWithMark(s, i);
    var x, tail := s[i + 1..j], s[j + 1..] + rest;
    var kids := PlainInline(lib, x, 0, links, o, left).0;
    InlineSpells(lib, x, 0, links, o, left, mark + tail);
    assert x[0..] == x;
    MarkedSpells(lib, o, mark, kids, x, tail);
    assert s[i..] + rest == mark + x + mark + tail;
    PastOne(lib, o, Element("em", [], kids), s[i..] + rest);
  }

  lemma ClosesWithMark(s: string, i: nat)
    requires i < |s|
    ensures Closing(s, i) > 0 ==> s[Closing(s, i)] == s[i]
  {
  }

  lemma PictureSpells(lib: Lib, s: string, i: nat, o: Opts, left: nat, rest: string)
    requires i < |s| && "![" <= s[i..] && o.doc && PlainMarker(lib, s, i, true, o, left).n > 0
    ensures var m := PlainMarker(lib, s, i, true, o, left);
      PastNodes(lib, o, m.nodes, s[i..] + rest) == Some(s[i + m.n..] + rest)
  {
    hide PastNodes, Index, Closing, Bare, PathHref, CanLink, LinkTarget, LinkMid, LinkLength;
    var here := s[i + 1..];
    assert s[i..][0] == '!' && s[i..][1..] == here;
    assert "[" <= here;
    LinkParts(here);
    var u, alt := LinkTarget(here), here[1..LinkMid(here)];
    var text := "![" + alt + "](" + u + ")";
    var tail := s[i + 1 + LinkLength(here)..] + rest;
    assert s[i..] + rest == text + tail;
    PastText(text, tail);
    var attrs := [Attribute("src", u), Attribute("alt", alt), Attribute("loading", "lazy")];
    PastOne(lib, o, Void("img", attrs), text + tail);
  }

  /** The parts of a link: what stands in its brackets and its target. */
  lemma LinkParts(here: string)
    requires CanLink(here) && "[" <= here
    ensures 1 <= LinkMid(here) && LinkLength(here) <= |here| && ')' !in LinkTarget(here)
    ensures here == "[" + here[1..LinkMid(here)] + "](" + LinkTarget(here) + ")" + here[LinkLength(here)..]
  {
    hide Index;
    var mid := LinkMid(here);
    var target := here[mid + 2..];
    var k := Index(target, ")");
    assert "](" <= here[mid..];
    assert here == here[..mid] + "](" + target;
    assert ")" <= target[k..];
    assert target == target[..k] + ")" + target[k + 1..];
    assert mid >= 1 by {
      assert here[..][0] == '[';
    }
    assert here[..mid] == "[" + here[1..mid];
    assert target[k + 1..] == here[LinkLength(here)..];
    forall i | 0 <= i < k
      ensures target[i] != ')'
    {
      assert !(")" <= target[i..]) && target[i..][0] == target[i];
    }
  }

  lemma {:induction false} LinkSpells(lib: Lib, s: string, i: nat, o: Opts, left: nat, rest: string)
    requires i < |s| && s[i] == '[' && PlainMarker(lib, s, i, true, o, left).n > 0
    ensures var m := PlainMarker(lib, s, i, true, o, left);
      PastNodes(lib, o, m.nodes, s[i..] + rest) == Some(s[i + m.n..] + rest)
    decreases |s|, |s| - i, 0, 0
  {
    hide PlainInline, PastNodes, PastNode, Index, Closing, Bare, PathHref, CanLink, LinkTarget, LinkMid, LinkLength;
    var here := s[i..];
    LinkParts(here);
    var x, u, tail := here[1..LinkMid(here)], LinkTarget(here), s[i + LinkLength(here)..] + rest;
    var kids := PlainInline(lib, x, 0, false, NO_OPTS, 0).0;
    InlineSpells(lib, x, 0, false, NO_OPTS, 0, "](" + u + ")" + tail);
    assert x[0..] == x;
    assert here + rest == "[" + (x + ("](" + u + ")" + tail));
    var attrs := if o.doc && lib.relative(u) then [Attribute("href", u)] else WebAttributes(lib.normal(u));
    assert PlainMarker(lib, s, i, true, o, left) == Step([Link(attrs, kids)], LinkLength(here), left);
    TargetSpells(lib, attrs, kids, x, u, tail);
    PastAnchor(lib, o, attrs, kids, here + rest);
  }

  lemma PastAnchor(lib: Lib, o: Opts, attrs: seq<Attribute>, kids: seq<Node>, s: string)
    ensures PastNodes(lib, o, [Link(attrs, kids)], s)
            == if "[" <= s then PastLink(lib, attrs, kids, s) else PastOwn(lib, o, attrs, kids, s)
  {
    hide PastLink, PastOwn, PastNodes;
    PastOne(lib, o, Link(attrs, kids), s);
  }

  lemma TargetSpells(lib: Lib, attrs: seq<Attribute>, kids: seq<Node>, x: string, u: string, tail: string)
    requires PastNodes(lib, NO_OPTS, kids, x + ("](" + u + ")" + tail)) == Some("](" + u + ")" + tail)
    requires ')' !in u && attrs in {[Attribute("href", u)], WebAttributes(lib.normal(u))}
    ensures PastLink(lib, attrs, kids, "[" + (x + ("](" + u + ")" + tail))) == Some(tail)
  {
    hide PastNodes;
    var behind := "](" + u + ")" + tail;
    assert ("[" + (x + behind))[1..] == x + behind;
    assert behind == "](" + (u + ")" + tail);
    PastText("](", u + ")" + tail);
    IndexAfter(u, ')', tail);
    assert (u + ")" + tail)[..|u|] == u && (u + ")" + tail)[|u| + 1..] == tail;
  }

  lemma OwnSpells(lib: Lib, o: Opts, attrs: seq<Attribute>, text: string, rest: string)
    requires OwnLink(lib, o, attrs, text) && text != "" && text[0] != '['
    ensures PastNodes(lib, o, [Link(attrs, [Text(text)])], text + rest) == Some(rest)
  {
    PastText(text, rest);
    PastAnchor(lib, o, attrs, [Text(text)], text + rest);
    assert (text + rest)[0] == text[0];
  }

  lemma BareSpells(lib: Lib, s: string, i: nat, links: bool, o: Opts, left: nat, rest: string)
    requires i < |s| && Bare(lib, s, i, links, o, left).n > 0
    ensures var m := Bare(lib, s, i, links, o, left);
      PastNodes(lib, o, m.nodes, s[i..] + rest) == Some(s[i + m.n..] + rest)
  {
    hide PastNodes, Token, RefLen, PathLike, RelLike, PathHref, Among, WordBefore, OwnLink;
    var here, m := s[i..], Bare(lib, s, i, links, o, left);
    var text := here[..m.n];
    assert here[0] == s[i] && text[0] == s[i];
    assert here + rest == text + (s[i + m.n..] + rest);
    BareParts(lib, s, i, links, o, left);
    OwnSpells(lib, o, m.nodes[0].attrs, text, s[i + m.n..] + rest);
  }

  lemma BareParts(lib: Lib, s: string, i: nat, links: bool, o: Opts, left: nat)
    requires i < |s| && Bare(lib, s, i, links, o, left).n > 0
    ensures var m := Bare(lib, s, i, links, o, left); var text := s[i..][..m.n];
      |m.nodes| == 1 && m.nodes[0].Element? && m.nodes == [Link(m.nodes[0].attrs, [Text(text)])]
      && OwnLink(lib, o, m.nodes[0].attrs, text) && s[i] != '['
  {
    hide Token, RefLen, PathLike, RelLike, PathHref, Among, WordBefore;
    HrefIsLocal(o, links, left, Token(s[i..]));
    if s[i] == '[' {
      MarkersAreNotBare(lib, s, i, links, o, left);
    }
    var m := Bare(lib, s, i, links, o, left);
    assert Token(s[i..]) <= s[i..];
    if m.n == |Token(s[i..])| {
      assert s[i..][..m.n] == Token(s[i..]);
    }
  }
}
