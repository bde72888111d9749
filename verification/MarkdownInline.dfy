/** Inline markup: the scanner that turns one line into HTML. `PlainInline` repeats every search for
    a closing marker; the method `Inline` keeps the memo of markers that can no longer close. */
module MarkdownInline {
  import opened Basics
  import opened Html

  /** Library calls and the caller's hook, as arbitrary functions. */
  datatype Lib = Lib(
    trim: string -> string,
    numeric: string -> bool,
    relative: string -> bool,
    safe: string -> bool,
    normal: string -> string
  )

  /** refs is the link prefix of references ("" for none), local the hook that turns a path into a
      link ("" for none), present only when hasLocal. */
  datatype Opts = Opts(refs: string, doc: bool, hasLocal: bool, local: string -> string)

  const NO_OPTS := Opts("", false, false, (_: string) => "")

  // ----- strings -----

  /** strings.Index */
  function Index(s: string, sub: string): (k: int)
    ensures -1 <= k <= |s|
    ensures k >= 0 ==> k + |sub| <= |s| && sub <= s[k..]
    ensures k >= 0 ==> forall i :: 0 <= i < k ==> !(sub <= s[i..])
    ensures k < 0 ==> forall i :: 0 <= i <= |s| ==> !(sub <= s[i..])
  {
    if sub <= s then 0
    else if s == "" then -1
    else
      var k := Index(s[1..], sub);
      assert forall i :: 0 < i <= |s| ==> s[i..] == s[1..][i - 1..];
      if k < 0 then -1 else k + 1
  }

  predicate Among(c: char, chars: string) {
    exists k :: 0 <= k < |chars| && chars[k] == c
  }

  /** The index of the first byte among chars, or the length. */
  function FirstAmong(s: string, chars: string): (k: nat)
    ensures k <= |s|
  {
    if s == "" || Among(s[0], chars) then 0 else 1 + FirstAmong(s[1..], chars)
  }

  /** strings.TrimRight with these bytes. */
  function TrimRight(s: string, chars: string): (t: string)
    ensures t <= s
  {
    if s != "" && Among(s[|s| - 1], chars) then TrimRight(s[..|s| - 1], chars) else s
  }

  predicate Letter(c: char) {
    'a' <= c <= 'z' || 'A' <= c <= 'Z'
  }

  predicate Digit(c: char) {
    '0' <= c <= '9'
  }

  predicate Word(c: char) {
    Letter(c) || Digit(c) || c >= 0x80 as char
  }

  // ----- what the pieces of the switch recognise -----

  predicate PathLike(p: string) {
    if "~/" <= p then PathStart(p[1..])
    else if |p| > 2 && Letter(p[0]) && p[1] == ':' && (p[2] == '\\' || p[2] == '/') then PathStart(p[2..])
    else "/" <= p && PathStart(p)
  }

  predicate PathStart(p: string) {
    |p| > 1 && !Among(p[1], " \t/\\")
  }

  predicate RelLike(p: string) {
    && !(|p| > 1 && p[1] == ':' && Letter(p[0]))
    && Index(p, "/") >= 0 && FirstAmong(p, " \t") == |p| && Index(p, "://") < 0
    && !("/" <= p) && !("~" <= p) && !ParentStep(p)
  }

  /** One of the parts between slashes is "..". */
  predicate ParentStep(p: string) {
    exists i, j :: 0 <= i <= j <= |p| && PartAt(p, i, j) && p[i..j] == ".."
  }

  predicate PartAt(p: string, i: int, j: int)
    requires 0 <= i <= j <= |p|
  {
    && (i == 0 || p[i - 1] == '/') && (j == |p| || p[j] == '/')
    && (forall k :: i <= k < j ==> p[k] != '/')
  }

  /** The word a path or address ends with, without closing punctuation. */
  function Token(rest: string): (t: string)
    ensures t <= rest
  {
    var t := TrimRight(rest[..FirstAmong(rest, " \t\n<>\"'`")], ".,;:!?");
    if EndsWith(t, ")") && Index(t, "(") < 0 then TrimRight(t[..|t| - 1], ".,;:!?") else t
  }

  function Digits(s: string, n: nat): (k: nat)
    requires n <= |s|
    ensures n <= k <= |s|
    decreases |s| - n
  {
    if n < |s| && Digit(s[n]) then Digits(s, n + 1) else n
  }

  function RefLen(rest: string): (n: nat)
    requires rest != ""
    ensures n <= |rest|
  {
    var n := Digits(rest, 1);
    if n == 1 || rest[1] == '0' || (n < |rest| && (Word(rest[n]) || rest[n] == '_'))
       || (n + 1 < |rest| && rest[n] == '.' && Word(rest[n + 1])) then 0
    else n
  }

  /** closing: the index of the marker that ends the emphasis opened at i, 0 when i opens none, -1
      when nothing closes it. */
  function Closing(s: string, i: nat): (j: int)
    requires i < |s|
    ensures j <= 0 || i + 2 <= j < |s|
  {
    if i + 1 >= |s| || s[i + 1] == ' ' || (s[i] == '_' && i > 0 && Word(s[i - 1])) then 0
    else ClosingFrom(s, s[i], i + 2)
  }

  predicate Closes(s: string, c: char, j: nat)
    requires 0 < j < |s|
  {
    s[j] == c && s[j - 1] != ' ' && (c == '*' || j + 1 == |s| || !Word(s[j + 1]))
  }

  function ClosingFrom(s: string, c: char, j: nat): (k: int)
    requires j > 0
    ensures k == -1 || j <= k < |s|
    ensures k >= 0 ==> Closes(s, c, k)
    ensures k < 0 ==> forall i :: j <= i < |s| ==> !Closes(s, c, i)
    decreases |s| - j
  {
    if j >= |s| then -1 else if Closes(s, c, j) then j else ClosingFrom(s, c, j + 1)
  }

  method FindClosing(s: string, i: nat) returns (j: int)
    requires i < |s|
    ensures j == Closing(s, i)
  {
    var c := s[i];
    if i + 1 >= |s| || s[i + 1] == ' ' || (c == '_' && i > 0 && Word(s[i - 1])) {
      return 0;
    }
    j := i + 2;
    while j < |s|
      invariant i + 2 <= j <= |s| || j == i + 2
      invariant ClosingFrom(s, c, j) == ClosingFrom(s, c, i + 2)
    {
      if s[j] == c && s[j - 1] != ' ' && (c == '*' || j + 1 == |s| || !Word(s[j + 1])) {
        return j;
      }
      j := j + 1;
    }
    return -1;
  }

  // ----- what one marker produces -----

  /** The nodes of a marker, how many bytes it takes (0: none here) and the path budget left. */
  datatype Step = Step(nodes: seq<Node>, n: nat, left: nat)

  function Link(attrs: seq<Attribute>, kids: seq<Node>): Node {
    Element("a", attrs, kids)
  }

  function PathAttributes(href: string): seq<Attribute> {
    [Attribute("class", "path"), Attribute("href", href), Attribute("target", "_blank"), Attribute("rel", "noopener")]
  }

  function WebAttributes(href: string): seq<Attribute> {
    [Attribute("href", href), Attribute("target", "_blank"), Attribute("rel", "noopener noreferrer")]
  }

  predicate Room(o: Opts, links: bool, left: nat) {
    links && o.hasLocal && left > 0
  }

  /** path: asks the hook, which costs one of the budget. */
  function PathHref(o: Opts, links: bool, left: nat, p: string): (r: (string, nat)) {
    if !Room(o, links, left) || (!PathLike(p) && !RelLike(p)) then ("", left)
    else (o.local(p), left - 1)
  }

  /** "](" and a ")" after it are there. */
  predicate CanLink(rest: string) {
    var mid := Index(rest, "](");
    mid >= 0 && Index(rest[mid + 2..], ")") >= 0
  }

  function LinkMid(rest: string): (mid: nat)
    requires CanLink(rest)
    ensures mid + 2 <= |rest|
  {
    Index(rest, "](")
  }

  function LinkTarget(rest: string): string
    requires CanLink(rest)
  {
    var mid := LinkMid(rest);
    rest[mid + 2..][..Index(rest[mid + 2..], ")")]
  }

  function LinkLength(rest: string): (n: nat)
    requires CanLink(rest)
    ensures n <= |rest|
  {
    LinkMid(rest) + 3 + Index(rest[LinkMid(rest) + 2..], ")")
  }

  predicate WordBefore(s: string, i: nat, more: string)
    requires i <= |s|
  {
    i > 0 && (Word(s[i - 1]) || Among(s[i - 1], more))
  }

  // ----- the scanner without a memo -----

  /** The rest of the line from byte i on. */
  function PlainInline(lib: Lib, s: string, i: nat, links: bool, o: Opts, left: nat): (r: (seq<Node>, nat))
    requires i <= |s|
    ensures r.1 <= left
    decreases |s|, |s| - i, 1
  {
    if i == |s| then ([], left)
    else
      var m := PlainMarker(lib, s, i, links, o, left);
      if m.n > 0 then
        var (tail, l) := PlainInline(lib, s, i + m.n, links, o, m.left);
        (m.nodes + tail, l)
      else
        var (tail, l) := PlainInline(lib, s, i + 1, links, o, m.left);
        ([Text(s[i..i + 1])] + tail, l)
  }

  function Nothing(left: nat): Step {
    Step([], 0, left)
  }

  function PlainMarker(lib: Lib, s: string, i: nat, links: bool, o: Opts, left: nat): (m: Step)
    requires i < |s|
    ensures i + m.n <= |s| && m.left <= left
    decreases |s|, |s| - i, 0
  {
    var rest := s[i..];
    if rest[0] == '`' then
      var j := Index(rest[1..], "`");
      if j > 0 then
        var text := rest[1..1 + j];
        var (href, l) := PathHref(o, links, left, text);
        var code := Element("code", [], [Text(text)]);
        Step([if href != "" then Link(PathAttributes(href), [code]) else code], j + 2, l)
      else Nothing(left)
    else if "~~" <= rest then
      PlainPair(lib, s, i, links, o, left, "~~", "del")
    else if "**" <= rest then
      PlainPair(lib, s, i, links, o, left, "**", "strong")
    else if rest[0] == '*' || rest[0] == '_' then
      var j := Closing(s, i);
      if j > 0 then
        var (kids, l) := PlainInline(lib, s[i + 1..j], 0, links, o, left);
        Step([Element("em", [], kids)], j - i + 1, l)
      else Nothing(left)
    else if "![" <= rest && links && o.doc then
      if CanLink(rest[1..]) then Picture(lib, rest[1..], left) else Nothing(left)
    else if rest[0] == '[' && links then
      if CanLink(rest) then PlainLink(lib, rest, o.doc, left) else Nothing(left)
    else Bare(lib, s, i, links, o, left)
  }

  /** ~~ and **: without a closing pair the marker itself is shown. */
  function PlainPair(lib: Lib, s: string, i: nat, links: bool, o: Opts, left: nat, mark: string, name: string)
    : (m: Step)
    requires i < |s| && |mark| == 2 && mark <= s[i..]
    ensures 0 < m.n && i + m.n <= |s| && m.left <= left
    decreases |s|, |s| - i, 0, 0
  {
    var rest := s[i..];
    var j := Index(rest[2..], mark);
    if j > 0 then
      var (kids, l) := PlainInline(lib, rest[2..2 + j], 0, links, o, left);
      Step([Element(name, [], kids)], j + 4, l)
    else Step([Text(mark)], 2, left)
  }

  function Picture(lib: Lib, rest: string, left: nat): (m: Step)
    requires CanLink(rest)
    ensures m.n <= |rest| + 1 && m.left == left
  {
    var u := LinkTarget(rest);
    if !lib.relative(u) then Nothing(left)
    else
      var alt := if LinkMid(rest) < 1 then "" else rest[1..LinkMid(rest)];
      Step([Void("img", [Attribute("src", u), Attribute("alt", alt), Attribute("loading", "lazy")])],
           LinkLength(rest) + 1, left)
  }

  function PlainLink(lib: Lib, rest: string, doc: bool, left: nat): (m: Step)
    requires CanLink(rest)
    ensures m.n <= |rest| && m.left == left
    decreases |rest|, 0, 0
  {
    var mid, u := LinkMid(rest), LinkTarget(rest);
    if mid < 1 then Nothing(left)
    else if doc && lib.relative(u) then
      Step([Link([Attribute("href", u)], PlainInline(lib, rest[1..mid], 0, false, NO_OPTS, 0).0)],
           LinkLength(rest), left)
    else if !lib.safe(u) then Nothing(left)
    else
      Step([Link(WebAttributes(lib.normal(u)), PlainInline(lib, rest[1..mid], 0, false, NO_OPTS, 0).0)],
           LinkLength(rest), left)
  }

  /** The last three cases of the switch: addresses, paths and references without a marker. */
  function Bare(lib: Lib, s: string, i: nat, links: bool, o: Opts, left: nat): (m: Step)
    requires i < |s|
    ensures i + m.n <= |s| && m.left <= left
  {
    var rest := s[i..];
    if links && ("http://" <= rest || "https://" <= rest) && !WordBefore(s, i, "/") then
      var u := Token(rest);
      if lib.safe(u) then Step([Link(WebAttributes(lib.normal(u)), [Text(u)])], |u|, left) else Nothing(left)
    else if Room(o, links, left) && PathLike(rest) && (i == 0 || (!Word(s[i - 1]) && !Among(s[i - 1], "/\\.~-_:"))) then
      var p := Token(rest);
      var (href, l) := PathHref(o, links, left, p);
      if href != "" then Step([Link(PathAttributes(href), [Text(p)])], |p|, l) else Nothing(l)
    else if o.refs != "" && Among(rest[0], "tdar") && !WordBefore(s, i, "/\\_") then
      var n := RefLen(rest);
      if n > 0 then
        Step([Link([Attribute("class", "ref"), Attribute("href", o.refs + rest[..n])], [Text(rest[..n])])], n, left)
      else Nothing(left)
    else Nothing(left)
  }

  // ----- the memo -----

  /** From byte i on, the markers in `dead` close nowhere. */
  ghost predicate DeadFrom(s: string, i: nat, dead: set<string>) {
    && ("`" in dead ==> forall k :: i <= k < |s| ==> s[k] != '`')
    && ("~~" in dead ==> NoPairFrom(s, i, "~~"))
    && ("**" in dead ==> NoPairFrom(s, i, "**"))
    && ("*" in dead ==> forall k :: i <= k < |s| && s[k] == '*' ==> Closing(s, k) <= 0)
    && ("_" in dead ==> forall k :: i <= k < |s| && s[k] == '_' ==> Closing(s, k) <= 0)
    && ("[" in dead ==> forall k :: i <= k <= |s| ==> !CanLink(s[k..]))
  }

  ghost predicate NoPairFrom(s: string, i: nat, mark: string) {
    forall k :: i <= k <= |s| ==> !(mark <= s[k..])
  }

  lemma DeadLater(s: string, i: nat, k: nat, dead: set<string>)
    requires DeadFrom(s, i, dead) && i <= k
    ensures DeadFrom(s, k, dead)
  {
    hide Closing, CanLink;
  }

  /** Emphasis that nothing closes is closed nowhere further on either. */
  lemma ClosingLater(s: string, i: nat, k: nat)
    requires i < k < |s| && s[k] == s[i] && Closing(s, i) < 0
    ensures Closing(s, k) <= 0
  {
    var later := ClosingFrom(s, s[i], k + 2);
  }

  lemma IndexEarlier(s: string, k: nat, t: string, sub: string)
    requires k <= |s| && t == s[k..] && Index(t, sub) >= 0
    ensures 0 <= Index(s, sub) <= k + Index(t, sub)
  {
    var at := Index(t, sub);
    assert t[at..] == s[k + at..];
    assert sub <= s[k + at..];
  }

  /** A link that cannot end here cannot end further on. */
  lemma CanLinkLater(s: string, i: nat, k: nat)
    requires i <= k <= |s| && CanLink(s[k..])
    ensures CanLink(s[i..])
  {
    CanLinkInTail(s[i..], k - i, s[k..]);
  }

  lemma CanLinkInTail(here: string, cut: nat, there: string)
    requires cut <= |here| && there == here[cut..] && CanLink(there)
    ensures CanLink(here)
  {
    hide *;
    CanLinkMeans(there);
    IndexEarlier(here, cut, there, "](");
    var mid, first := Index(there, "]("), Index(here, "](");
    var target, later := here[first + 2..], there[mid + 2..];
    assert later == target[cut + mid - first..];
    IndexEarlier(target, cut + mid - first, later, ")");
    CanLinkWhen(here, first);
  }

  lemma CanLinkMeans(rest: string)
    requires CanLink(rest)
    ensures Index(rest, "](") >= 0 && Index(rest[Index(rest, "](") + 2..], ")") >= 0
  {
  }

  lemma CanLinkWhen(rest: string, mid: nat)
    requires Index(rest, "](") == mid && Index(rest[mid + 2..], ")") >= 0
    ensures CanLink(rest)
  {
  }

  /** None of the marker characters starts an address, a path or a reference. */
  lemma MarkersAreNotBare(lib: Lib, s: string, i: nat, links: bool, o: Opts, left: nat)
    requires i < |s| && (s[i] == '`' || s[i] == '*' || s[i] == '_' || s[i] == '[' || s[i] == '!')
    ensures Bare(lib, s, i, links, o, left) == Nothing(left)
  {
    hide Token, RefLen, PathHref;
    assert s[i..][0] == s[i];
    assert !Among(s[i], "tdar");
  }

  // ----- the scanner of the source -----

  lemma InlineStep(lib: Lib, s: string, i: nat, links: bool, o: Opts, left: nat)
    requires i <= |s|
    ensures i == |s| ==> Print(PlainInline(lib, s, i, links, o, left).0) == ""
    ensures i == |s| ==> PlainInline(lib, s, i, links, o, left).1 == left
    ensures i < |s| ==>
      var m, here := PlainMarker(lib, s, i, links, o, left), PlainInline(lib, s, i, links, o, left);
      var later := PlainInline(lib, s, if m.n > 0 then i + m.n else i + 1, links, o, m.left);
      && Print(here.0) == (if m.n > 0 then Print(m.nodes) else Escape(s[i..i + 1])) + Print(later.0)
      && here.1 == later.1
  {
    hide PlainMarker, Print, Escape;
    PrintText(s[i..if i < |s| then i + 1 else i]);
    PrintNothing();
    if i < |s| {
      var m := PlainMarker(lib, s, i, links, o, left);
      if m.n > 0 {
        PrintConcat(m.nodes, PlainInline(lib, s, i + m.n, links, o, m.left).0);
      } else {
        PrintConcat([Text(s[i..i + 1])], PlainInline(lib, s, i + 1, links, o, m.left).0);
      }
    }
  }

  lemma PrintNothing()
    ensures Print([]) == ""
  {
  }

  /** inline: writes the HTML of s; l is what remains of the path budget. The memo changes neither. */
  method Inline(lib: Lib, s: string, links: bool, o: Opts, left: nat) returns (out: string, l: nat)
    ensures out == Print(PlainInline(lib, s, 0, links, o, left).0)
    ensures l == PlainInline(lib, s, 0, links, o, left).1
    decreases |s|, 3
  {
    hide PlainMarker, PlainInline, DeadFrom, Print, Escape;
    out, l := "", left;
    var dead: set<string> := {};
    NothingDead(s);
    ghost var all := PlainInline(lib, s, 0, links, o, left);
    var i := 0;
    while i < |s|
      invariant 0 <= i <= |s|
      invariant Print(all.0) == out + Print(PlainInline(lib, s, i, links, o, l).0)
      invariant all.1 == PlainInline(lib, s, i, links, o, l).1
      invariant DeadFrom(s, i, dead)
    {
      InlineStep(lib, s, i, links, o, l);
      var piece, n;
      piece, n, l, dead := Marker(lib, s, i, links, o, l, dead);
      if n > 0 {
        out := out + piece;
        i := i + n;
      } else {
        out := out + Escape(s[i..i + 1]);
        i := i + 1;
      }
    }
    InlineStep(lib, s, i, links, o, l);
  }

  lemma NothingDead(s: string)
    ensures DeadFrom(s, 0, {})
  {
  }

  ghost function Taken(i: nat, n: nat): nat {
    if n > 0 then i + n else i + 1
  }

  /** marker, with the memo of markers that failed once. */
  method Marker(lib: Lib, s: string, i: nat, links: bool, o: Opts, left: nat, dead: set<string>)
    returns (piece: string, n: nat, l: nat, dead': set<string>)
    requires i < |s| && DeadFrom(s, i, dead)
    ensures var m := PlainMarker(lib, s, i, links, o, left);
      n == m.n && l == m.left && (n > 0 ==> piece == Print(m.nodes))
    ensures DeadFrom(s, Taken(i, n), dead')
    decreases |s|, 2
  {
    hide Closing, CanLink, LinkTarget, LinkLength, PathHref, Bare, Print;
    var rest := s[i..];
    piece, n, l, dead' := "", 0, left, dead;
    if rest[0] == '`' && "`" !in dead {
      piece, n, l, dead' := CodeMarker(lib, s, i, links, o, left, dead);
    } else if "~~" <= rest {
      piece, n, l, dead' := PairMarker(lib, s, i, links, o, left, dead, "~~", "del");
    } else if "**" <= rest {
      piece, n, l, dead' := PairMarker(lib, s, i, links, o, left, dead, "**", "strong");
    } else if (rest[0] == '*' || rest[0] == '_') && rest[..1] !in dead {
      piece, n, l, dead' := EmphasisMarker(lib, s, i, links, o, left, dead);
    } else if "![" <= rest && links && o.doc && "[" !in dead {
      piece, n, dead' := PictureMarker(lib, s, i, links, o, left, dead);
    } else if rest[0] == '[' && links && "[" !in dead {
      piece, n, dead' := LinkMarker(lib, s, i, links, o, left, dead);
    } else {
      DeadMarker(lib, s, i, links, o, left, dead);
      var m := Bare(lib, s, i, links, o, left);
      piece, n, l := Print(m.nodes), m.n, m.left;
      DeadLater(s, i, Taken(i, n), dead);
    }
  }

  /** When the memo skips a marker, or no marker stands here, only the bare forms are left. */
  lemma DeadMarker(lib: Lib, s: string, i: nat, links: bool, o: Opts, left: nat, dead: set<string>)
    requires i < |s| && DeadFrom(s, i, dead)
    requires var rest := s[i..];
      && !(rest[0] == '`' && "`" !in dead) && !("~~" <= rest) && !("**" <= rest)
      && !((rest[0] == '*' || rest[0] == '_') && rest[..1] !in dead)
      && !("![" <= rest && links && o.doc && "[" !in dead)
      && !(rest[0] == '[' && links && "[" !in dead)
    ensures PlainMarker(lib, s, i, links, o, left) == Bare(lib, s, i, links, o, left)
  {
    hide Closing, CanLink, Bare, LinkTarget, LinkLength, PathHref;
    var rest := s[i..];
    if rest[0] in ['`', '*', '_', '[', '!'] {
      MarkersAreNotBare(lib, s, i, links, o, left);
      assert rest[..1] == [s[i]];
      if "![" <= rest && links && o.doc {
        assert rest[1..] == s[i + 1..];
      }
    }
  }

  method CodeMarker(lib: Lib, s: string, i: nat, links: bool, o: Opts, left: nat, dead: set<string>)
    returns (piece: string, n: nat, l: nat, dead': set<string>)
    requires i < |s| && DeadFrom(s, i, dead) && s[i] == '`'
    ensures var m := PlainMarker(lib, s, i, links, o, left);
      n == m.n && l == m.left && (n > 0 ==> piece == Print(m.nodes))
    ensures DeadFrom(s, Taken(i, n), dead')
  {
    hide Closing, CanLink, PathHref;
    var rest := s[i..];
    piece, n, l, dead' := "", 0, left, dead;
    var j := Index(rest[1..], "`");
    if j > 0 {
      var text := rest[1..1 + j];
      var (href, budget) := PathHref(o, links, left, text);
      var code := Element("code", [], [Text(text)]);
      var node := if href != "" then Link(PathAttributes(href), [code]) else code;
      PrintOne(node);
      piece, n, l := PrintNode(node), j + 2, budget;
      DeadLater(s, i, i + n, dead);
    } else {
      DeadLater(s, i, i + 1, dead);
      if j < 0 {
        dead' := dead + {"`"};
        NoTickLater(s, i);
      }
    }
  }

  lemma NoTickLater(s: string, i: nat)
    requires i < |s| && Index(s[i..][1..], "`") < 0
    ensures forall k :: i + 1 <= k < |s| ==> s[k] != '`'
  {
    forall k | i + 1 <= k < |s|
      ensures s[k] != '`'
    {
      assert s[i..][1..][k - i - 1..] == s[k..];
      assert !("`" <= s[k..]) && s[k..][0] == s[k];
    }
  }

  method PairMarker(lib: Lib, s: string, i: nat, links: bool, o: Opts, left: nat, dead: set<string>, mark: string,
                    name: string)
    returns (piece: string, n: nat, l: nat, dead': set<string>)
    requires i < |s| && DeadFrom(s, i, dead) && mark <= s[i..]
    requires (mark == "~~" && name == "del") || (mark == "**" && name == "strong" && !("~~" <= s[i..]))
    ensures var m := PlainPair(lib, s, i, links, o, left, mark, name);
      n == m.n && l == m.left && piece == Print(m.nodes) && n > 0
    ensures DeadFrom(s, i + n, dead')
    decreases |s|, 0
  {
    hide Closing, CanLink, DeadFrom, PlainInline, Print, Escape, Index;
    var rest := s[i..];
    dead' := dead;
    PrintText(mark);
    DeadPair(s, i, dead, mark);
    if mark !in dead {
      var j := Index(rest[2..], mark);
      if j > 0 {
        var inner;
        inner, l := Inline(lib, rest[2..2 + j], links, o, left);
        PrintElement(name, [], PlainInline(lib, rest[2..2 + j], 0, links, o, left).0);
        DeadLater(s, i, i + j + 4, dead);
        return OpenTag(name, []) + inner + CloseTag(name), j + 4, l, dead;
      } else if j < 0 {
        dead' := dead + {mark};
      }
    }
    piece, n, l := Escape(mark), 2, left;
  }

  lemma PrintText(text: string)
    ensures Print([Text(text)]) == Escape(text)
  {
    PrintOne(Text(text));
  }

  lemma PrintElement(name: string, attrs: seq<Attribute>, kids: seq<Node>)
    ensures Print([Element(name, attrs, kids)]) == OpenTag(name, attrs) + Print(kids) + CloseTag(name)
  {
    PrintOne(Element(name, attrs, kids));
  }

  lemma DeadPair(s: string, i: nat, dead: set<string>, mark: string)
    requires DeadFrom(s, i, dead) && (mark == "~~" || mark == "**") && i + 2 <= |s|
    ensures mark in dead ==> Index(s[i..][2..], mark) < 0
    ensures DeadFrom(s, i + 2, dead)
    ensures Index(s[i..][2..], mark) < 0 ==> DeadFrom(s, i + 2, dead + {mark})
  {
    hide Closing, CanLink;
    var later := s[i..][2..];
    forall k | 0 <= k <= |later|
      ensures later[k..] == s[i + 2 + k..]
    {
    }
    DeadLater(s, i, i + 2, dead);
    if Index(later, mark) < 0 {
      forall k | i + 2 <= k <= |s|
        ensures !(mark <= s[k..])
      {
        assert later[k - i - 2..] == s[k..];
      }
    }
  }

  method EmphasisMarker(lib: Lib, s: string, i: nat, links: bool, o: Opts, left: nat, dead: set<string>)
    returns (piece: string, n: nat, l: nat, dead': set<string>)
    requires i < |s| && DeadFrom(s, i, dead)
    requires (s[i] == '*' && !("**" <= s[i..])) || s[i] == '_'
    ensures var m := PlainMarker(lib, s, i, links, o, left);
      n == m.n && l == m.left && (n > 0 ==> piece == Print(m.nodes))
    ensures DeadFrom(s, Taken(i, n), dead')
    decreases |s|, 0
  {
    hide Closing, CanLink, DeadFrom, PlainInline, Print;
    piece, n, l, dead' := "", 0, left, dead;
    var j := FindClosing(s, i);
    if j > 0 {
      var inner;
      inner, l := Inline(lib, s[i + 1..j], links, o, left);
      PrintElement("em", [], PlainInline(lib, s[i + 1..j], 0, links, o, left).0);
      piece, n := OpenTag("em", []) + inner + CloseTag("em"), j - i + 1;
      DeadLater(s, i, i + n, dead);
    } else {
      DeadLater(s, i, i + 1, dead);
      if j < 0 {
        dead' := dead + {s[i..][..1]};
        DeadEmphasis(s, i, dead);
      }
    }
  }

  lemma DeadEmphasis(s: string, i: nat, dead: set<string>)
    requires i < |s| && (s[i] == '*' || s[i] == '_') && Closing(s, i) < 0 && DeadFrom(s, i + 1, dead)
    ensures DeadFrom(s, i + 1, dead + {s[i..][..1]})
  {
    hide Closing, CanLink;
    assert s[i..][..1] == [s[i]];
    forall k | i + 1 <= k < |s| && s[k] == s[i]
      ensures Closing(s, k) <= 0
    {
      ClosingLater(s, i, k);
    }
  }

  lemma DeadLink(s: string, i: nat, dead: set<string>)
    requires i <= |s| && !CanLink(s[i..]) && DeadFrom(s, i, dead)
    ensures DeadFrom(s, i, dead + {"["})
  {
    hide Closing, CanLink;
    forall k | i <= k <= |s|
      ensures !CanLink(s[k..])
    {
      if CanLink(s[k..]) {
        CanLinkLater(s, i, k);
      }
    }
  }

  method PictureMarker(lib: Lib, s: string, i: nat, links: bool, o: Opts, left: nat, dead: set<string>)
    returns (piece: string, n: nat, dead': set<string>)
    requires i < |s| && DeadFrom(s, i, dead) && "![" <= s[i..] && links && o.doc
    ensures var m := PlainMarker(lib, s, i, links, o, left);
      n == m.n && left == m.left && (n > 0 ==> piece == Print(m.nodes))
    ensures DeadFrom(s, Taken(i, n), dead')
  {
    hide Closing, CanLink, DeadFrom, LinkTarget, LinkLength;
    var rest := s[i..];
    assert rest[1..] == s[i + 1..];
    piece, n, dead' := "", 0, dead;
    DeadLater(s, i, i + 1, dead);
    if CanLink(rest[1..]) {
      var m := Picture(lib, rest[1..], left);
      piece, n := Print(m.nodes), m.n;
      DeadLater(s, i, Taken(i, n), dead);
    } else {
      dead' := dead + {"["};
      DeadLink(s, i + 1, dead);
    }
  }

  method LinkMarker(lib: Lib, s: string, i: nat, links: bool, o: Opts, left: nat, dead: set<string>)
    returns (piece: string, n: nat, dead': set<string>)
    requires i < |s| && DeadFrom(s, i, dead) && s[i] == '[' && links
    ensures var m := PlainMarker(lib, s, i, links, o, left);
      n == m.n && left == m.left && (n > 0 ==> piece == Print(m.nodes))
    ensures DeadFrom(s, Taken(i, n), dead')
    decreases |s|, 1
  {
    hide Closing, CanLink, DeadFrom, PlainLink;
    var rest := s[i..];
    piece, n, dead' := "", 0, dead;
    if CanLink(rest) {
      piece, n := LinkPiece(lib, rest, o.doc, left);
    } else {
      dead' := dead + {"["};
      DeadLink(s, i, dead);
    }
    DeadLater(s, i, Taken(i, n), dead);
    if !CanLink(rest) {
      DeadLater(s, i, i + 1, dead');
    }
  }

  method LinkPiece(lib: Lib, rest: string, doc: bool, ghost left: nat) returns (piece: string, n: nat)
    requires CanLink(rest)
    ensures var m := PlainLink(lib, rest, doc, left);
      n == m.n && (n > 0 ==> piece == Print(m.nodes))
    decreases |rest|, 0
  {
    hide PlainInline, Print, Index, OpenTag, CloseTag;
    piece, n := "", 0;
    var mid, u := LinkMid(rest), LinkTarget(rest);
    if mid < 1 {
      return;
    }
    var relative := doc && lib.relative(u);
    if relative || lib.safe(u) {
      var inner, _ := Inline(lib, rest[1..mid], false, NO_OPTS, 0);
      var attrs := if relative then [Attribute("href", u)] else WebAttributes(lib.normal(u));
      PrintElement("a", attrs, PlainInline(lib, rest[1..mid], 0, false, NO_OPTS, 0).0);
      return OpenTag("a", attrs) + inner + CloseTag("a"), LinkLength(rest);
    }
  }

  // ----- what the nodes look like -----

  /** Inline produces good trees, and no anchor when links, references and paths are off. */
  lemma {:induction false} InlineGood(lib: Lib, s: string, i: nat, links: bool, o: Opts, left: nat, inAnchor: bool)
    requires i <= |s| && (inAnchor ==> !links && o.refs == "")
    ensures Good(PlainInline(lib, s, i, links, o, left).0, inAnchor)
    decreases |s|, |s| - i, 1
  {
    hide PlainMarker, Good;
    if i == |s| {
      NothingGood(inAnchor);
    } else {
      var m := PlainMarker(lib, s, i, links, o, left);
      MarkerGood(lib, s, i, links, o, left, inAnchor);
      if m.n > 0 {
        InlineGood(lib, s, i + m.n, links, o, m.left, inAnchor);
        GoodConcat(m.nodes, PlainInline(lib, s, i + m.n, links, o, m.left).0, inAnchor);
      } else {
        InlineGood(lib, s, i + 1, links, o, m.left, inAnchor);
        TextGood(s[i..i + 1], inAnchor);
        GoodConcat([Text(s[i..i + 1])], PlainInline(lib, s, i + 1, links, o, m.left).0, inAnchor);
      }
    }
  }

  lemma TextGood(text: string, inAnchor: bool)
    ensures Good([Text(text)], inAnchor)
  {
    OneGood(Text(text), inAnchor);
  }

  lemma OneGood(node: Node, inAnchor: bool)
    requires GoodNode(node, inAnchor)
    ensures Good([node], inAnchor)
  {
  }

  lemma {:induction false} MarkerGood(lib: Lib, s: string, i: nat, links: bool, o: Opts, left: nat, inAnchor: bool)
    requires i < |s| && (inAnchor ==> !links && o.refs == "")
    ensures Good(PlainMarker(lib, s, i, links, o, left).nodes, inAnchor)
    decreases |s|, |s| - i, 0
  {
    hide Closing, CanLink, LinkTarget, LinkLength, Bare, PlainInline, PathLike, RelLike, Plain, NAMES;
    var rest := s[i..];
    if rest[0] == '`' {
      CodeGood(o, links, left, rest, inAnchor);
    } else if "~~" <= rest {
      PairGood(lib, s, i, links, o, left, inAnchor, "~~", "del");
    } else if "**" <= rest {
      PairGood(lib, s, i, links, o, left, inAnchor, "**", "strong");
    } else if rest[0] == '*' || rest[0] == '_' {
      var j := Closing(s, i);
      if j > 0 {
        InlineGood(lib, s[i + 1..j], 0, links, o, left, inAnchor);
        WrappedGood("em", PlainInline(lib, s[i + 1..j], 0, links, o, left).0, inAnchor);
      }
    } else if "![" <= rest && links && o.doc {
      ImageGood(lib, s, i, links, o, left, inAnchor);
    } else if rest[0] == '[' && links {
      if CanLink(rest) {
        LinkGood(lib, rest, o.doc, left);
      }
    } else {
      BareGood(lib, s, i, links, o, left, inAnchor);
    }
  }

  lemma ImageGood(lib: Lib, s: string, i: nat, links: bool, o: Opts, left: nat, inAnchor: bool)
    requires i < |s| && "![" <= s[i..] && links && o.doc
    ensures Good(PlainMarker(lib, s, i, links, o, left).nodes, inAnchor)
  {
    hide Closing, CanLink, LinkTarget, LinkLength, Bare, PlainInline, PathLike, RelLike;
    assert s[i..][0] == '!';
  }

  lemma WrappedGood(name: string, kids: seq<Node>, inAnchor: bool)
    requires name == "del" || name == "strong" || name == "em"
    requires Good(kids, inAnchor)
    ensures Good([Element(name, [], kids)], inAnchor)
  {
    hide NAMES, Plain;
    KnownNames();
    assert name in ["a", "code", "del", "strong", "em"];
    OneGood(Element(name, [], kids), inAnchor);
  }

  lemma CodeGood(o: Opts, links: bool, left: nat, rest: string, inAnchor: bool)
    requires inAnchor ==> !links
    ensures forall text :: var (href, l) := PathHref(o, links, left, text);
      var code := Element("code", [], [Text(text)]);
      Good([if href != "" then Link(PathAttributes(href), [code]) else code], inAnchor)
  {
    hide PathLike, RelLike, PathHref, NAMES, KEYS, Plain;
    KnownNames();
    forall text
      ensures var (href, l) := PathHref(o, links, left, text);
        var code := Element("code", [], [Text(text)]);
        Good([if href != "" then Link(PathAttributes(href), [code]) else code], inAnchor)
    {
      var href := PathHref(o, links, left, text).0;
      var code := Element("code", [], [Text(text)]);
      OneGood(Text(text), inAnchor);
      OneGood(Text(text), true);
      if href != "" {
        PathNeedsLinks(o, links, left, text);
        OneGood(code, true);
        OneGood(Link(PathAttributes(href), [code]), inAnchor);
      } else {
        OneGood(code, inAnchor);
      }
    }
  }

  lemma KnownKeys(attrs: seq<Attribute>)
    requires forall k :: 0 <= k < |attrs| ==>
      attrs[k].key in ["class", "href", "target", "rel", "src", "alt", "loading"]
    ensures GoodAttributes(attrs)
  {
    hide KEYS, Plain;
    KnownNames();
  }

  lemma KnownAttributes(href: string)
    ensures GoodAttributes(PathAttributes(href)) && GoodAttributes(WebAttributes(href))
    ensures GoodAttributes([Attribute("href", href)])
    ensures GoodAttributes([Attribute("class", "ref"), Attribute("href", href)])
  {
    hide GoodAttributes;
    KnownKeys(PathAttributes(href));
    KnownKeys(WebAttributes(href));
    KnownKeys([Attribute("href", href)]);
    KnownKeys([Attribute("class", "ref"), Attribute("href", href)]);
  }

  lemma AnchorGood(attrs: seq<Attribute>, text: string)
    requires GoodAttributes(attrs)
    ensures Good([Link(attrs, [Text(text)])], false)
  {
    hide GoodAttributes, NAMES, Plain;
    KnownNames();
    assert "a" in ["a", "code", "del", "strong", "em"];
    OneGood(Text(text), true);
    OneGood(Link(attrs, [Text(text)]), false);
  }

  lemma PathNeedsLinks(o: Opts, links: bool, left: nat, text: string)
    ensures PathHref(o, links, left, text).0 != "" ==> links
  {
    hide PathLike, RelLike;
  }

  /** The names and attributes that inline markup uses are on the reader's lists. */
  lemma KnownNames()
    ensures forall name :: name in ["a", "code", "del", "strong", "em"] ==>
      name in NAMES && name !in VOID_NAMES && Plain(name)
    ensures "img" in VOID_NAMES && Plain("img")
    ensures forall key :: key in ["class", "href", "target", "rel", "src", "alt", "loading"] ==>
      key in KEYS && Plain(key)
  {
  }

  lemma {:induction false} PairGood(lib: Lib, s: string, i: nat, links: bool, o: Opts, left: nat, inAnchor: bool,
                                    mark: string, name: string)
    requires i < |s| && (inAnchor ==> !links && o.refs == "") && |mark| == 2 && mark <= s[i..]
    requires name == "del" || name == "strong"
    ensures Good(PlainPair(lib, s, i, links, o, left, mark, name).nodes, inAnchor)
    decreases |s|, |s| - i, 0, 0
  {
    hide PlainInline, Index, Good, GoodNode;
    var rest := s[i..];
    var j := Index(rest[2..], mark);
    if j > 0 {
      InlineGood(lib, rest[2..2 + j], 0, links, o, left, inAnchor);
      WrappedGood(name, PlainInline(lib, rest[2..2 + j], 0, links, o, left).0, inAnchor);
    } else {
      OneGood(Text(mark), inAnchor);
    }
  }

  lemma {:induction false} LinkGood(lib: Lib, rest: string, doc: bool, left: nat)
    requires CanLink(rest)
    ensures Good(PlainLink(lib, rest, doc, left).nodes, false)
    decreases |rest|, 0, 0
  {
    hide PlainInline, Index, NAMES, KEYS, Plain;
    KnownNames();
    var mid := LinkMid(rest);
    if mid >= 1 {
      var kids := PlainInline(lib, rest[1..mid], 0, false, NO_OPTS, 0).0;
      InlineGood(lib, rest[1..mid], 0, false, NO_OPTS, 0, true);
      forall attrs | GoodAttributes(attrs)
        ensures Good([Link(attrs, kids)], false)
      {
        OneGood(Link(attrs, kids), false);
      }
    }
  }

  lemma BareGood(lib: Lib, s: string, i: nat, links: bool, o: Opts, left: nat, inAnchor: bool)
    requires i < |s| && (inAnchor ==> !links && o.refs == "")
    ensures Good(Bare(lib, s, i, links, o, left).nodes, inAnchor)
  {
    hide Token, RefLen, PathLike, RelLike, Among, GoodAttributes, Good;
    var rest, m := s[i..], Bare(lib, s, i, links, o, left);
    if m.nodes == [] {
      NothingGood(inAnchor);
    } else if links && ("http://" <= rest || "https://" <= rest) && !WordBefore(s, i, "/") {
      KnownAttributes(lib.normal(Token(rest)));
      AnchorGood(WebAttributes(lib.normal(Token(rest))), Token(rest));
    } else if Room(o, links, left) && PathLike(rest) && (i == 0 || (!Word(s[i - 1]) && !Among(s[i - 1], "/\\.~-_:"))) {
      var href := PathHref(o, links, left, Token(rest)).0;
      KnownAttributes(href);
      AnchorGood(PathAttributes(href), Token(rest));
    } else {
      var ref := rest[..RefLen(rest)];
      KnownAttributes(o.refs + ref);
      AnchorGood([Attribute("class", "ref"), Attribute("href", o.refs + ref)], ref);
    }
  }

  lemma NothingGood(inAnchor: bool)
    ensures Good([], inAnchor)
  {
  }
}
