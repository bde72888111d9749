/** What every form of inline markup becomes, stated over texts: for each form, and for each way in
    which a marker stays text, a law says what the nodes of a line are from that byte on. */
module MarkdownLaws {
  import opened Basics
  import opened Html
  import opened MarkdownInline

  /** Nodes, and what comes behind them. */
  function Then(nodes: seq<Node>, rest: (seq<Node>, nat)): (seq<Node>, nat) {
    (nodes + rest.0, rest.1)
  }

  /** The anchors of the renderer, printed out. */
  function WebAnchor(href: string, kids: seq<Node>): Node {
    Element("a", [Attribute("href", href), Attribute("target", "_blank"),
                  Attribute("rel", "noopener noreferrer")], kids)
  }

  function PathAnchor(href: string, kids: seq<Node>): Node {
    Element("a", [Attribute("class", "path"), Attribute("href", href), Attribute("target", "_blank"),
                  Attribute("rel", "noopener")], kids)
  }

  function RefAnchor(href: string, kids: seq<Node>): Node {
    Element("a", [Attribute("class", "ref"), Attribute("href", href)], kids)
  }

  // ----- steps of the scanner -----

  lemma StepTaken(lib: Lib, s: string, i: nat, links: bool, o: Opts, left: nat, m: Step)
    requires i < |s| && m == PlainMarker(lib, s, i, links, o, left)
    ensures m.n > 0 ==>
      PlainInline(lib, s, i, links, o, left) == Then(m.nodes, PlainInline(lib, s, i + m.n, links, o, m.left))
    ensures m.n == 0 ==>
      PlainInline(lib, s, i, links, o, left) == Then([Text([s[i]])], PlainInline(lib, s, i + 1, links, o, m.left))
  {
    hide PlainMarker;
    assert s[i..i + 1] == [s[i]];
  }

  lemma IndexIs(s: string, sub: string, k: nat)
    requires k <= |s| && sub <= s[k..] && forall j :: 0 <= j < k ==> !(sub <= s[j..])
    ensures Index(s, sub) == k
  {
  }

  lemma NoIndex(s: string, sub: string)
    requires forall j :: 0 <= j <= |s| ==> !(sub <= s[j..])
    ensures Index(s, sub) < 0
  {
  }

  lemma CharIndexIs(s: string, c: char, k: nat)
    requires k < |s| && s[k] == c && c !in s[..k]
    ensures Index(s, [c]) == k
  {
    hide Index;
    assert s[k..][0] == c;
    forall j | 0 <= j < k
      ensures !([c] <= s[j..])
    {
      assert s[j..][0] == s[j] && s[j] in s[..k];
    }
    IndexIs(s, [c], k);
  }

  lemma NoCharIndex(s: string, c: char)
    requires c !in s
    ensures Index(s, [c]) < 0
  {
    hide Index;
    forall j | 0 <= j <= |s|
      ensures !([c] <= s[j..])
    {
      if j < |s| {
        assert s[j..][0] == s[j];
      }
    }
    NoIndex(s, [c]);
  }

  // ----- ** and ~~ -----

  const PAIRS: map<string, string> := map["**" := "strong", "~~" := "del"]

  /** A pair of marks around a text is one element around the nodes of the text. */
  lemma PairMeans(lib: Lib, s: string, i: nat, links: bool, o: Opts, left: nat, mark: string, x: string)
    requires mark in PAIRS && i <= |s| && mark + x + mark <= s[i..] && x != ""
    requires forall k :: 0 <= k < |x| ==> !(mark <= (x + mark)[k..])
    ensures var inner := PlainInline(lib, x, 0, links, o, left);
      PlainInline(lib, s, i, links, o, left)
      == Then([Element(PAIRS[mark], [], inner.0)], PlainInline(lib, s, i + |x| + 4, links, o, inner.1))
  {
    hide PlainInline, Index, Closing, CanLink, Bare;
    PairFound(s[i..], mark, x);
    PairStep(lib, s, i, links, o, left, mark);
    StepTaken(lib, s, i, links, o, left, PlainPair(lib, s, i, links, o, left, mark, PAIRS[mark]));
  }

  lemma PairFound(here: string, mark: string, x: string)
    requires |mark| == 2 && mark + x + mark <= here
    requires forall k :: 0 <= k < |x| ==> !(mark <= (x + mark)[k..])
    ensures mark <= here && Index(here[2..], mark) == |x| && here[2..2 + |x|] == x
  {
    hide Index;
    var rest := here[|x| + 4..];
    assert here == mark + x + mark + rest;
    assert mark <= here;
    assert here[2..] == x + mark + rest;
    assert here[2..2 + |x|] == x;
    MarkStandsFirst(here[2..], mark, x, rest);
  }

  lemma MarkStandsFirst(s: string, mark: string, x: string, rest: string)
    requires |mark| == 2 && s == x + mark + rest && forall k :: 0 <= k < |x| ==> !(mark <= (x + mark)[k..])
    ensures Index(s, mark) == |x|
  {
    hide Index;
    forall j | 0 <= j < |x|
      ensures !(mark <= s[j..])
    {
      var part := (x + mark)[j..];
      assert s[j..] == part + rest;
      ShorterStarts(mark, part, rest);
    }
    assert s[|x|..] == mark + rest;
    IndexIs(s, mark, |x|);
  }

  lemma ShorterStarts(mark: string, part: string, rest: string)
    requires |mark| <= |part| && !(mark <= part)
    ensures !(mark <= part + rest)
  {
    assert (part + rest)[..|mark|] == part[..|mark|];
  }

  lemma PairStep(lib: Lib, s: string, i: nat, links: bool, o: Opts, left: nat, mark: string)
    requires mark in PAIRS && i < |s| && mark <= s[i..]
    ensures PlainMarker(lib, s, i, links, o, left) == PlainPair(lib, s, i, links, o, left, mark, PAIRS[mark])
  {
    hide PlainInline, Index, Closing, CanLink, Bare, PlainPair, PlainLink, Picture;
    assert s[i..][0] == mark[0];
  }

  /** A mark that nothing closes, or that is closed at once, is shown. */
  lemma OpenPairMeans(lib: Lib, s: string, i: nat, links: bool, o: Opts, left: nat, mark: string)
    requires mark in PAIRS && i <= |s| && mark <= s[i..]
    requires mark <= s[i + 2..] || forall k :: i + 2 <= k <= |s| ==> !(mark <= s[k..])
    ensures PlainInline(lib, s, i, links, o, left)
      == Then([Text(mark)], PlainInline(lib, s, i + 2, links, o, left))
  {
    hide PlainInline, Index, Closing, CanLink, Bare;
    var here := s[i..][2..];
    assert here == s[i + 2..];
    if mark <= here {
      assert here[0..] == here;
      IndexIs(here, mark, 0);
    } else {
      assert forall j :: 0 <= j <= |here| ==> here[j..] == s[i + 2 + j..];
      NoIndex(here, mark);
    }
    PairStep(lib, s, i, links, o, left, mark);
    StepTaken(lib, s, i, links, o, left, PlainPair(lib, s, i, links, o, left, mark, PAIRS[mark]));
  }

  // ----- * and _ -----

  /** A letter, a digit, or a byte of a longer UTF-8 sequence. */
  predicate InWord(c: char) {
    'a' <= c <= 'z' || 'A' <= c <= 'Z' || '0' <= c <= '9' || c as int >= 128
  }

  /** Byte j of s can close an emphasis that c opened. */
  predicate Ends(s: string, c: char, j: nat)
    requires 0 < j < |s|
  {
    s[j] == c && s[j - 1] != ' ' && (c == '_' && j + 1 < |s| ==> !InWord(s[j + 1]))
  }

  /** Byte i of s can open an emphasis. */
  predicate Begins(s: string, i: nat)
    requires i < |s|
  {
    && (s[i] == '*' || s[i] == '_') && !("**" <= s[i..])
    && i + 1 < |s| && s[i + 1] != ' ' && (s[i] == '_' && i > 0 ==> !InWord(s[i - 1]))
  }

  lemma EmphasisMeans(lib: Lib, s: string, i: nat, j: nat, links: bool, o: Opts, left: nat)
    requires i < |s| && Begins(s, i) && i + 2 <= j < |s| && Ends(s, s[i], j)
    requires forall k :: i + 2 <= k < j ==> !Ends(s, s[i], k)
    ensures var inner := PlainInline(lib, s[i + 1..j], 0, links, o, left);
      PlainInline(lib, s, i, links, o, left)
      == Then([Element("em", [], inner.0)], PlainInline(lib, s, j + 1, links, o, inner.1))
  {
    hide PlainInline, Index, CanLink, Bare, PlainPair;
    ClosesAt(s, s[i], i + 2, j);
    assert s[i..][0] == s[i];
    StepTaken(lib, s, i, links, o, left, PlainMarker(lib, s, i, links, o, left));
  }

  lemma {:induction false} ClosesAt(s: string, c: char, from: nat, j: nat)
    requires 0 < from <= j < |s| && (c == '*' || c == '_') && Ends(s, c, j)
    requires forall k :: from <= k < j ==> !Ends(s, c, k)
    ensures ClosingFrom(s, c, from) == j
    decreases j - from
  {
    if from < j {
      assert !Ends(s, c, from);
      ClosesAt(s, c, from + 1, j);
    }
  }

  lemma OpenEmphasisMeans(lib: Lib, s: string, i: nat, links: bool, o: Opts, left: nat)
    requires i < |s| && (s[i] == '*' || s[i] == '_') && !("**" <= s[i..])
    requires !Begins(s, i) || forall k :: i + 2 <= k < |s| ==> !Ends(s, s[i], k)
    ensures PlainInline(lib, s, i, links, o, left)
      == Then([Text([s[i]])], PlainInline(lib, s, i + 1, links, o, left))
  {
    hide PlainInline, Index, CanLink, Bare, PlainPair;
    assert s[i..][0] == s[i];
    if Begins(s, i) {
      var j := ClosingFrom(s, s[i], i + 2);
      assert j >= 0 ==> Ends(s, s[i], j);
    }
    StepTaken(lib, s, i, links, o, left, PlainMarker(lib, s, i, links, o, left));
  }

  // ----- paths -----

  /** A path with a root: "/", "~/" or a drive, and then a name. */
  predicate Rooted(p: string) {
    || RootedAt(p, 0) || (RootedAt(p, 1) && p[0] == '~' && p[1] == '/')
    || (RootedAt(p, 2) && p[1] == ':' && ('a' <= p[0] <= 'z' || 'A' <= p[0] <= 'Z'))
  }

  predicate RootedAt(p: string, n: nat) {
    && n + 1 < |p| && (p[n] == '/' || (n == 2 && p[n] == '\\'))
    && p[n + 1] != ' ' && p[n + 1] != '\t' && p[n + 1] != '/' && p[n + 1] != '\\'
  }

  lemma PathsAreRooted(p: string)
    ensures PathLike(p) <==> Rooted(p)
  {
    AmongFour();
    if |p| > 1 {
      assert p[1..][0] == p[1];
    }
    if |p| > 2 {
      assert p[2..][0] == p[2] && p[1..][1] == p[2];
    }
    if |p| > 3 {
      assert p[2..][1] == p[3];
    }
  }

  lemma AmongFour()
    ensures forall c :: Among(c, " \t/\\") <==> c == ' ' || c == '\t' || c == '/' || c == '\\'
  {
    forall c
      ensures Among(c, " \t/\\") <==> c == ' ' || c == '\t' || c == '/' || c == '\\'
    {
      var four := " \t/\\";
      assert four[0] == ' ' && four[1] == '\t' && four[2] == '/' && four[3] == '\\';
    }
  }

  /** The hook is asked about a path while the budget lasts. */
  predicate Asked(o: Opts, links: bool, left: nat, p: string) {
    links && o.hasLocal && left > 0 && (Rooted(p) || Relative(p))
  }

  lemma HookMeans(o: Opts, links: bool, left: nat, p: string)
    ensures PathHref(o, links, left, p) == if Asked(o, links, left, p) then (o.local(p), left - 1) else ("", left)
  {
    hide PathLike, RelLike, Rooted, Relative;
    PathsAreRooted(p);
    RelativePathsMean(p);
  }

  // ----- code -----

  lemma CodeMeans(lib: Lib, s: string, i: nat, links: bool, o: Opts, left: nat, x: string)
    requires i <= |s| && "`" + x + "`" <= s[i..] && x != "" && '`' !in x
    ensures var asked := Asked(o, links, left, x);
      var code := Element("code", [], [Text(x)]);
      PlainInline(lib, s, i, links, o, left)
      == Then([if asked && o.local(x) != "" then PathAnchor(o.local(x), [code]) else code],
              PlainInline(lib, s, i + |x| + 2, links, o, if asked then left - 1 else left))
  {
    hide PlainInline, Index, Closing, CanLink, Bare, PlainPair, PathHref, Asked;
    var here := s[i..];
    var whole := "`" + x + "`";
    assert here[..|x| + 2] == whole;
    assert here[0] == whole[0] && here[1..][|x|] == whole[|x| + 1] && here[1..][..|x|] == whole[1..|x| + 1] == x;
    CharIndexIs(here[1..], '`', |x|);
    assert here[1..1 + |x|] == x;
    HookMeans(o, links, left, x);
    StepTaken(lib, s, i, links, o, left, PlainMarker(lib, s, i, links, o, left));
  }

  lemma OpenCodeMeans(lib: Lib, s: string, i: nat, links: bool, o: Opts, left: nat)
    requires i < |s| && s[i] == '`' && ("`" <= s[i + 1..] || '`' !in s[i + 1..])
    ensures PlainInline(lib, s, i, links, o, left) == Then([Text("`")], PlainInline(lib, s, i + 1, links, o, left))
  {
    hide PlainInline, Index, Closing, CanLink, Bare, PlainPair, PathHref;
    assert s[i..][1..] == s[i + 1..] && s[i..][0] == '`';
    if '`' !in s[i + 1..] {
      NoCharIndex(s[i + 1..], '`');
    } else {
      assert s[i + 1..][0] == '`';
      CharIndexIs(s[i + 1..], '`', 0);
    }
    StepTaken(lib, s, i, links, o, left, PlainMarker(lib, s, i, links, o, left));
  }

  // ----- links and pictures -----

  /** "](" stands in no part of x. */
  predicate NoTurn(x: string) {
    forall k :: 0 <= k <= |x| ==> !("](" <= x[k..])
  }

  /** The parts of a link: from the bracket at the start of `here` to the parenthesis that ends it. */
  predicate LinkHere(here: string, x: string, target: string) {
    "[" + x + "](" + target + ")" <= here && NoTurn(x) && ')' !in target
  }

  lemma LinkFound(here: string, x: string, target: string)
    requires LinkHere(here, x, target)
    ensures CanLink(here) && LinkMid(here) == |x| + 1 && LinkTarget(here) == target
    ensures LinkLength(here) == |x| + |target| + 4 && here[1..|x| + 1] == x && here != "" && here[0] == '['
  {
    hide Index;
    var rest := here[|x| + |target| + 4..];
    assert here == "[" + x + "](" + target + ")" + rest;
    TurnFound(here, x, target + ")" + rest);
    var behind := here[|x| + 3..];
    assert behind == target + ")" + rest;
    assert behind[..|target|] == target;
    CharIndexIs(behind, ')', |target|);
    CanLinkWhen(here, |x| + 1);
  }

  lemma TurnFound(here: string, x: string, rest: string)
    requires here == "[" + x + "](" + rest && NoTurn(x)
    ensures Index(here, "](") == |x| + 1
  {
    hide Index;
    assert here[|x| + 1..] == "](" + rest;
    forall j | 0 <= j < |x| + 1
      ensures !("](" <= here[j..])
    {
      if "](" <= here[j..] {
        TurnInside(here, x, rest, j);
      }
    }
    IndexIs(here, "](", |x| + 1);
  }

  lemma TurnInside(here: string, x: string, rest: string, j: nat)
    requires here == "[" + x + "](" + rest && j <= |x| && "](" <= here[j..]
    ensures j > 0 && "](" <= x[j - 1..]
  {
    assert here[j..][0] == here[j] && here[j..][1] == here[j + 1];
    assert here[|x| + 1] == ']';
  }

  lemma LinkMeans(lib: Lib, s: string, i: nat, o: Opts, left: nat, x: string, target: string)
    requires i < |s| && LinkHere(s[i..], x, target)
    ensures var kids := PlainInline(lib, x, 0, false, NO_OPTS, 0).0;
      var behind := i + |x| + |target| + 4;
      PlainInline(lib, s, i, true, o, left)
      == (if o.doc && lib.relative(target)
          then Then([Element("a", [Attribute("href", target)], kids)], PlainInline(lib, s, behind, true, o, left))
          else if lib.safe(target)
          then Then([WebAnchor(lib.normal(target), kids)], PlainInline(lib, s, behind, true, o, left))
          else Then([Text("[")], PlainInline(lib, s, i + 1, true, o, left)))
  {
    hide PlainInline, Index, Closing, CanLink, LinkMid, LinkTarget, LinkLength, Bare, PlainPair, PathHref, LinkHere;
    LinkFound(s[i..], x, target);
    assert "[" == [s[i]];
    StepTaken(lib, s, i, true, o, left, PlainMarker(lib, s, i, true, o, left));
  }

  /** No link starts here or further on: nothing turns to a target that ends. */
  predicate NoTarget(s: string, i: nat)
    requires i <= |s|
  {
    forall k :: i <= k <= |s| && "](" <= s[k..] ==> ')' !in s[k..]
  }

  lemma NoLinkFound(s: string, i: nat)
    requires i <= |s| && NoTarget(s, i)
    ensures !CanLink(s[i..])
  {
    hide CanLink;
    if CanLink(s[i..]) {
      var k := TargetFound(s, i);
    }
  }

  lemma TargetFound(s: string, i: nat) returns (k: nat)
    requires i <= |s| && CanLink(s[i..])
    ensures i <= k <= |s| && "](" <= s[k..] && ')' in s[k..]
  {
    hide Index;
    var here := s[i..];
    var mid := Index(here, "](");
    k := i + mid;
    assert here[mid..] == s[k..];
    var behind := here[mid + 2..];
    var end := Index(behind, ")");
    assert behind[end] == ')' by {
      assert behind[end..][0] == behind[end];
    }
    assert s[k..][end + 2] == behind[end];
  }

  lemma NoLinkMeans(lib: Lib, s: string, i: nat, o: Opts, left: nat)
    requires i < |s| && s[i] == '[' && NoTarget(s, i)
    ensures PlainInline(lib, s, i, true, o, left) == Then([Text("[")], PlainInline(lib, s, i + 1, true, o, left))
  {
    hide PlainInline, Index, Closing, CanLink, Bare, PlainPair, PathHref, NoTarget;
    NoLinkFound(s, i);
    assert s[i..][0] == '[' && "[" == [s[i]];
    StepTaken(lib, s, i, true, o, left, PlainMarker(lib, s, i, true, o, left));
  }

  lemma PictureMeans(lib: Lib, s: string, i: nat, o: Opts, left: nat, alt: string, source: string)
    requires i < |s| && s[i] == '!' && o.doc && LinkHere(s[i + 1..], alt, source)
    ensures PlainInline(lib, s, i, true, o, left)
      == if lib.relative(source)
         then Then([Void("img", [Attribute("src", source), Attribute("alt", alt), Attribute("loading", "lazy")])],
                   PlainInline(lib, s, i + |alt| + |source| + 5, true, o, left))
         else Then([Text("!")], PlainInline(lib, s, i + 1, true, o, left))
  {
    hide PlainInline, Index, Closing, CanLink, LinkMid, LinkTarget, LinkLength, Bare, PlainPair, PathHref, LinkHere;
    LinkFound(s[i + 1..], alt, source);
    assert s[i..][0] == '!' && s[i..][1..] == s[i + 1..] && s[i..][1] == s[i + 1..][0] && "!" == [s[i]];
    StepTaken(lib, s, i, true, o, left, PlainMarker(lib, s, i, true, o, left));
  }

  lemma NoPictureMeans(lib: Lib, s: string, i: nat, o: Opts, left: nat)
    requires i < |s| && "![" <= s[i..] && o.doc && NoTarget(s, i + 1)
    ensures PlainInline(lib, s, i, true, o, left) == Then([Text("!")], PlainInline(lib, s, i + 1, true, o, left))
  {
    hide PlainInline, Index, Closing, CanLink, Bare, PlainPair, PathHref, NoTarget;
    NoLinkFound(s, i + 1);
    assert s[i..][0] == '!' && s[i..][1..] == s[i + 1..] && "!" == [s[i]];
    StepTaken(lib, s, i, true, o, left, PlainMarker(lib, s, i, true, o, left));
  }

  // ----- the end of an address or a path -----

  /** No byte of s is among chars. */
  predicate Without(s: string, chars: string) {
    forall k :: 0 <= k < |s| ==> s[k] !in chars
  }

  predicate Only(s: string, chars: string) {
    forall k :: 0 <= k < |s| ==> s[k] in chars
  }

  const STOPS := " \t\n<>\"'`"
  const CLOSERS := ".,;:!?"

  /** u ends with a byte that an address keeps. */
  predicate Firm(u: string) {
    u == "" || u[|u| - 1] !in CLOSERS
  }

  lemma AmongIsIn(c: char, chars: string)
    ensures Among(c, chars) <==> c in chars
  {
  }

  lemma {:induction false} FirstAmongIs(a: string, b: string, chars: string)
    requires Without(a, chars) && (b == "" || b[0] in chars)
    ensures FirstAmong(a + b, chars) == |a|
  {
    hide Among;
    if a == "" {
      assert a + b == b;
      if b != "" {
        AmongIsIn(b[0], chars);
      }
    } else {
      AmongIsIn(a[0], chars);
      assert (a + b)[1..] == a[1..] + b;
      FirstAmongIs(a[1..], b, chars);
    }
  }

  lemma {:induction false} TrimRightIs(u: string, p: string, chars: string)
    requires Only(p, chars) && (u == "" || u[|u| - 1] !in chars)
    ensures TrimRight(u + p, chars) == u
    decreases |p|
  {
    hide Among;
    if p == "" {
      assert u + p == u;
      if u != "" {
        AmongIsIn(u[|u| - 1], chars);
      }
    } else {
      AmongIsIn(p[|p| - 1], chars);
      assert (u + p)[..|u + p| - 1] == u + p[..|p| - 1];
      TrimRightIs(u, p[..|p| - 1], chars);
    }
  }

  /** An address goes up to a stop, without the punctuation that closes the sentence. */
  lemma TokenMeans(u: string, p: string, t: string)
    requires Without(u + p, STOPS) && (t == "" || t[0] in STOPS) && Only(p, CLOSERS) && Firm(u)
    requires EndsWith(u, ")") ==> '(' in u
    ensures Token(u + p + t) == u
  {
    hide FirstAmong, TrimRight, Index;
    FirstAmongIs(u + p, t, STOPS);
    assert (u + p + t)[..|u + p|] == u + p;
    TrimRightIs(u, p, CLOSERS);
    if '(' in u {
      HasIndex(u, '(');
    }
  }

  lemma HasIndex(s: string, c: char)
    requires c in s
    ensures Index(s, [c]) >= 0
  {
    hide Index;
    var k :| 0 <= k < |s| && s[k] == c;
    assert [c] <= s[k..];
  }

  /** A parenthesis that the address does not open ends it too. */
  lemma ParenthesisEnds(u: string, q: string, p: string, t: string)
    requires Without(u + q + p, STOPS) && (t == "" || t[0] in STOPS) && Only(p, CLOSERS) && Only(q, CLOSERS)
    requires Firm(u) && '(' !in u
    ensures Token(u + q + ")" + p + t) == u
  {
    hide FirstAmong, TrimRight, Index, Without, Only;
    var word := u + q + ")";
    InnerWithout(u + q, p);
    FirstAmongIs(word + p, t, STOPS);
    assert (word + p + t)[..|word + p|] == word + p;
    TrimRightIs(word, p, CLOSERS);
    NoOpening(u, q);
    NoCharIndex(word, '(');
    assert word[..|word| - 1] == u + q;
    TrimRightIs(u, q, CLOSERS);
  }

  lemma InnerWithout(a: string, p: string)
    requires Without(a + p, STOPS)
    ensures Without(a + ")" + p, STOPS)
  {
    forall k | 0 <= k < |a + ")" + p|
      ensures (a + ")" + p)[k] !in STOPS
    {
      if k != |a| {
        assert (a + ")" + p)[k] == (a + p)[if k < |a| then k else k - 1];
      }
    }
  }

  lemma NoOpening(u: string, q: string)
    requires '(' !in u && Only(q, CLOSERS)
    ensures '(' !in u + q + ")"
  {
  }

  // ----- addresses, paths and references -----

  /** An address starts at byte i. */
  predicate AddressAt(s: string, i: nat)
    requires i < |s|
  {
    ("http://" <= s[i..] || "https://" <= s[i..]) && (i == 0 || (!InWord(s[i - 1]) && s[i - 1] != '/'))
  }

  /** A path starts at byte i. */
  predicate PathAt(s: string, i: nat)
    requires i < |s|
  {
    Rooted(s[i..]) && (i == 0 || (!InWord(s[i - 1]) && s[i - 1] !in "/\\.~-_:"))
  }

  /** A reference of n bytes starts at byte i: a letter and a number that no word goes on. */
  predicate ReferenceAt(s: string, i: nat, n: nat)
    requires i < |s|
  {
    && s[i] in "tdar" && (i == 0 || (!InWord(s[i - 1]) && s[i - 1] !in "/\\_"))
    && n >= 2 && i + n <= |s| && s[i + 1] != '0' && (forall k :: i < k < i + n ==> '0' <= s[k] <= '9')
    && (i + n < |s| ==> !InWord(s[i + n]) && s[i + n] != '_')
    && (i + n + 1 < |s| ==> !(s[i + n] == '.' && InWord(s[i + n + 1])))
  }

  lemma BareStep(lib: Lib, s: string, i: nat, links: bool, o: Opts, left: nat)
    requires i < |s| && s[i] != '`' && s[i] != '*' && s[i] != '_' && !("~~" <= s[i..])
    requires links ==> s[i] != '[' && !("![" <= s[i..] && o.doc)
    ensures PlainMarker(lib, s, i, links, o, left) == Bare(lib, s, i, links, o, left)
  {
    hide PlainInline, Index, Closing, CanLink, Bare, PlainPair, PlainLink, Picture, PathHref;
    assert s[i..][0] == s[i];
  }

  lemma AddressMeans(lib: Lib, s: string, i: nat, o: Opts, left: nat)
    requires i < |s| && AddressAt(s, i)
    ensures var u := Token(s[i..]);
      PlainInline(lib, s, i, true, o, left)
      == if lib.safe(u) && u != ""
         then Then([WebAnchor(lib.normal(u), [Text(u)])], PlainInline(lib, s, i + |u|, true, o, left))
         else Then([Text([s[i]])], PlainInline(lib, s, i + 1, true, o, left))
  {
    hide PlainInline, PlainMarker, Token, RefLen, PathLike, PathHref;
    assert s[i..][0] == 'h' && s[i..][1] == 't';
    BareStep(lib, s, i, true, o, left);
    BeforeMeans(s, i);
    StepTaken(lib, s, i, true, o, left, Bare(lib, s, i, true, o, left));
  }

  /** What stands before byte i, as the scanner asks it. */
  lemma BeforeMeans(s: string, i: nat)
    requires i < |s|
    ensures WordBefore(s, i, "/") <==> i > 0 && (InWord(s[i - 1]) || s[i - 1] == '/')
    ensures WordBefore(s, i, "/\\_") <==> i > 0 && (InWord(s[i - 1]) || s[i - 1] in "/\\_")
    ensures i > 0 ==> (Among(s[i - 1], "/\\.~-_:") <==> s[i - 1] in "/\\.~-_:")
  {
    hide Among;
    if i > 0 {
      AmongIsIn(s[i - 1], "/");
      AmongIsIn(s[i - 1], "/\\_");
      AmongIsIn(s[i - 1], "/\\.~-_:");
    }
  }

  lemma PathMeans(lib: Lib, s: string, i: nat, o: Opts, left: nat)
    requires i < |s| && PathAt(s, i) && !AddressAt(s, i) && o.hasLocal && left > 0
    ensures var p := Token(s[i..]);
      var asked := Asked(o, true, left, p);
      var budget := if asked then left - 1 else left;
      PlainInline(lib, s, i, true, o, left)
      == if asked && o.local(p) != "" && p != ""
         then Then([PathAnchor(o.local(p), [Text(p)])], PlainInline(lib, s, i + |p|, true, o, budget))
         else Then([Text([s[i]])], PlainInline(lib, s, i + 1, true, o, budget))
  {
    hide PlainInline, PlainMarker, Token, RefLen, PathLike, PathHref, Rooted, Asked;
    PathStarts(s, i);
    PathsAreRooted(s[i..]);
    BareStep(lib, s, i, true, o, left);
    BeforeMeans(s, i);
    HookMeans(o, true, left, Token(s[i..]));
    StepTaken(lib, s, i, true, o, left, Bare(lib, s, i, true, o, left));
  }

  lemma PathStarts(s: string, i: nat)
    requires i < |s| && Rooted(s[i..])
    ensures s[i] !in "`*_[!" && !("~~" <= s[i..])
  {
    var p := s[i..];
    assert p[0] == s[i];
    assert |p| > 1 && p[0] == '~' ==> p[1] == '/';
  }

  lemma ReferenceMeans(lib: Lib, s: string, i: nat, n: nat, links: bool, o: Opts, left: nat)
    requires i < |s| && ReferenceAt(s, i, n) && o.refs != ""
    ensures PlainInline(lib, s, i, links, o, left)
      == Then([RefAnchor(o.refs + s[i..i + n], [Text(s[i..i + n])])], PlainInline(lib, s, i + n, links, o, left))
  {
    hide PlainInline, PlainMarker, Token, RefLen, PathLike, PathHref, Rooted;
    var here := s[i..];
    ReferenceStarts(s, i, n);
    ReferenceLength(here, n);
    PathsAreRooted(here);
    BareStep(lib, s, i, links, o, left);
    BeforeMeans(s, i);
    AmongIsIn(s[i], "tdar");
    assert here[0] == s[i] && here[..n] == s[i..i + n];
    StepTaken(lib, s, i, links, o, left, Bare(lib, s, i, links, o, left));
  }

  lemma ReferenceStarts(s: string, i: nat, n: nat)
    requires i < |s| && ReferenceAt(s, i, n)
    ensures s[i] !in "`*_[!~h" && !Rooted(s[i..]) && Number(s[i..], n)
  {
    var here := s[i..];
    assert here[0] == s[i] && here[1] == s[i + 1];
    assert forall k :: 0 <= k < |here| ==> here[k] == s[i + k];
  }

  /** A letter and a number of n bytes in all, which no word goes on. */
  predicate Number(here: string, n: nat) {
    && 2 <= n <= |here| && here[1] != '0' && (forall k :: 0 < k < n ==> '0' <= here[k] <= '9')
    && (n < |here| ==> !InWord(here[n]) && here[n] != '_')
    && (n + 1 < |here| ==> !(here[n] == '.' && InWord(here[n + 1])))
  }

  lemma ReferenceLength(here: string, n: nat)
    requires Number(here, n)
    ensures RefLen(here) == n
  {
    DigitsAre(here, 1, n);
  }

  lemma {:induction false} DigitsAre(s: string, from: nat, n: nat)
    requires from <= n <= |s| && (forall k :: from <= k < n ==> '0' <= s[k] <= '9')
    requires n < |s| ==> !('0' <= s[n] <= '9')
    ensures Digits(s, from) == n
    decreases n - from
  {
    if from < n {
      DigitsAre(s, from + 1, n);
    }
  }

  lemma {:induction false} DigitsFound(s: string, from: nat)
    requires from <= |s|
    ensures forall k :: from <= k < Digits(s, from) ==> '0' <= s[k] <= '9'
    ensures Digits(s, from) < |s| ==> !('0' <= s[Digits(s, from)] <= '9')
    decreases |s| - from
  {
    if from < |s| && '0' <= s[from] <= '9' {
      DigitsFound(s, from + 1);
    }
  }

  lemma NoReferenceLength(s: string, i: nat)
    requires i < |s| && s[i] in "tdar" && (i == 0 || (!InWord(s[i - 1]) && s[i - 1] !in "/\\_"))
    requires forall n :: !ReferenceAt(s, i, n)
    ensures RefLen(s[i..]) == 0
  {
    var here := s[i..];
    var n := RefLen(here);
    DigitsFound(here, 1);
    if n > 0 {
      assert forall k :: 0 <= k < |here| ==> here[k] == s[i + k];
      assert n >= 2;
      assert forall k :: i < k < i + n ==> s[k] == here[k - i];
      assert ReferenceAt(s, i, n);
    }
  }

  /** Everything else is text. */
  lemma TextMeans(lib: Lib, s: string, i: nat, links: bool, o: Opts, left: nat)
    requires i < |s| && s[i] !in "`*_" && !("~~" <= s[i..])
    requires links ==> s[i] != '[' && !("![" <= s[i..] && o.doc) && !AddressAt(s, i)
    requires links && o.hasLocal && left > 0 ==> !PathAt(s, i)
    requires o.refs != "" ==> forall n :: !ReferenceAt(s, i, n)
    ensures PlainInline(lib, s, i, links, o, left)
      == Then([Text([s[i]])], PlainInline(lib, s, i + 1, links, o, left))
  {
    hide PlainInline, PlainMarker, Token, RefLen, PathLike, PathHref, Rooted, ReferenceAt;
    PathsAreRooted(s[i..]);
    BareStep(lib, s, i, links, o, left);
    BeforeMeans(s, i);
    AmongIsIn(s[i], "tdar");
    assert s[i..][0] == s[i];
    if o.refs != "" && s[i] in "tdar" && (i == 0 || (!InWord(s[i - 1]) && s[i - 1] !in "/\\_")) {
      NoReferenceLength(s, i);
    }
    StepTaken(lib, s, i, links, o, left, Bare(lib, s, i, links, o, left));
  }

  // ----- relative paths -----

  /** A path of several steps without a root, a scheme, white space or a step upwards. */
  predicate Relative(p: string) {
    && '/' in p && ' ' !in p && '\t' !in p && p[0] != '/' && p[0] != '~'
    && !(|p| > 1 && p[1] == ':' && ('a' <= p[0] <= 'z' || 'A' <= p[0] <= 'Z'))
    && (forall k :: 0 <= k <= |p| ==> !("://" <= p[k..]))
    && (forall k :: 0 <= k <= |p| && ".." <= p[k..] ==>
          !((k == 0 || p[k - 1] == '/') && (k + 2 == |p| || p[k + 2] == '/')))
  }

  lemma RelativePathsMean(p: string)
    ensures RelLike(p) <==> Relative(p)
  {
    hide Index, FirstAmong, ParentStep;
    SlashMeans(p);
    SpacesMean(p);
    SchemeMeans(p);
    ParentMeans(p);
  }

  lemma SlashMeans(p: string)
    ensures Index(p, "/") >= 0 <==> '/' in p
  {
    hide Index;
    if '/' in p {
      HasIndex(p, '/');
    } else {
      NoCharIndex(p, '/');
    }
  }

  lemma {:induction false} SpacesMean(p: string)
    ensures FirstAmong(p, " \t") == |p| <==> ' ' !in p && '\t' !in p
  {
    hide Among;
    if p != "" {
      AmongIsIn(p[0], " \t");
      SpacesMean(p[1..]);
      assert p == [p[0]] + p[1..];
    }
  }

  lemma SchemeMeans(p: string)
    ensures Index(p, "://") < 0 <==> forall k :: 0 <= k <= |p| ==> !("://" <= p[k..])
  {
    hide Index;
  }

  lemma ParentMeans(p: string)
    ensures ParentStep(p) <==> exists k :: 0 <= k <= |p| && ".." <= p[k..] && (k == 0 || p[k - 1] == '/')
                                           && (k + 2 == |p| || p[k + 2] == '/')
  {
    if ParentStep(p) {
      var i, j :| 0 <= i <= j <= |p| && PartAt(p, i, j) && p[i..j] == "..";
      assert p[i..][..2] == p[i..j];
    }
    if k :| 0 <= k <= |p| && ".." <= p[k..] && (k == 0 || p[k - 1] == '/') && (k + 2 == |p| || p[k + 2] == '/') {
      assert p[k..k + 2] == p[k..][..2] == "..";
      assert PartAt(p, k, k + 2);
    }
  }
}
