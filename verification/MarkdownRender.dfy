/** The whole renderer: for every input the output is well-formed HTML made of escaped text and a
    fixed set of elements, and no anchor stands inside another. */
module MarkdownRender {
  import opened Basics
  import opened Html
  import opened HtmlReading
  import opened MarkdownInline
  import opened MarkdownBlocks
  import opened MarkdownMeaning
  import opened MarkdownReading

  /** Line breaks of any kind as "\n". */
  function Normalized(text: string): string {
    if text == "" then ""
    else if "\r\n" <= text then "\n" + Normalized(text[2..])
    else (if text[0] == '\r' then "\n" else [text[0]]) + Normalized(text[1..])
  }

  function SplitLines(text: string): (lines: seq<string>)
    ensures |lines| > 0
  {
    if text == "" then [""]
    else
      var rest := SplitLines(text[1..]);
      if text[0] == '\n' then [""] + rest else [[text[0]] + rest[0]] + rest[1..]
  }

  /** The lines are the text, cut at every line break and nowhere else. */
  lemma {:induction false} LinesAreTheText(text: string)
    ensures JoinOf(text, SplitLines(text))
    ensures forall k :: 0 <= k < |SplitLines(text)| ==> '\n' !in SplitLines(text)[k]
  {
    if text != "" {
      var rest := SplitLines(text[1..]);
      LinesAreTheText(text[1..]);
      if text[0] == '\n' {
        assert SplitLines(text)[1..] == rest;
        assert "" + "\n" <= text;
      } else {
        FirstLineGrows(text[0], text[1..], rest);
        assert text == [text[0]] + text[1..];
      }
    }
  }

  lemma FirstLineGrows(c: char, text: string, lines: seq<string>)
    requires |lines| > 0 && JoinOf(text, lines)
    ensures JoinOf([c] + text, [[c] + lines[0]] + lines[1..])
  {
    var grown := [[c] + lines[0]] + lines[1..];
    if |lines| > 1 {
      assert grown[1..] == lines[1..];
      assert [c] + text == grown[0] + "\n" + text[|lines[0]| + 1..] by {
        assert text == lines[0] + "\n" + text[|lines[0]| + 1..];
      }
      assert ([c] + text)[|grown[0]| + 1..] == text[|lines[0]| + 1..];
    }
  }

  /** Both of the other line breaks become "\n". */
  lemma BreaksAreNormalized(rest: string)
    ensures Normalized("\r\n" + rest) == "\n" + Normalized(rest)
    ensures !("\n" <= rest) ==> Normalized("\r" + rest) == "\n" + Normalized(rest)
  {
    assert ("\r\n" + rest)[2..] == rest;
    assert ("\r" + rest)[1..] == rest;
    assert !("\n" <= rest) ==> !("\r\n" <= "\r" + rest);
  }

  /** Nothing else changes. */
  lemma {:induction false} OthersAreKept(a: string, rest: string)
    requires '\r' !in a
    ensures Normalized(a + rest) == a + Normalized(rest)
  {
    if a == "" {
      assert a + rest == rest;
    } else {
      OthersAreKept(a[1..], rest);
      assert (a + rest)[1..] == a[1..] + rest && (a + rest)[0] == a[0];
      assert [a[0]] + (a[1..] + Normalized(rest)) == a + Normalized(rest);
    }
  }

  method Render(lib: Lib, text: string, o: Opts) returns (out: string)
    ensures out == Print(Blocks(lib, SplitLines(Normalized(text)), 0, true, o, 0, MAX_PATHS).0)
    ensures WellFormed(out, [])
    ensures var lines := SplitLines(Normalized(text));
      var (nodes, left) := Blocks(lib, lines, 0, true, o, 0, MAX_PATHS);
      Seen(out) == Some(Events(nodes)) && PastBlocks(lib, o, nodes, lines, 0, true, 0, MAX_PATHS) == Some(left)
  {
    var lines := SplitLines(Normalized(text));
    var left;
    out, left := WriteBlocks(lib, lines, true, o, 0, MAX_PATHS);
    BlocksGood(lib, lines, 0, true, o, 0, MAX_PATHS);
    PrintIsWellFormed(Blocks(lib, lines, 0, true, o, 0, MAX_PATHS).0);
    PrintIsRead(Blocks(lib, lines, 0, true, o, 0, MAX_PATHS).0);
    BlocksRead(lib, o, lines, 0, true, 0, MAX_PATHS);
  }

  /** References only: no links, and no hook for paths. */
  function LineOpts(refs: string): Opts {
    NO_OPTS.(refs := refs)
  }

  /** One line without blocks, links or paths; fields is the text with its white space collapsed. */
  method RenderLine(lib: Lib, fields: string, refs: string) returns (out: string)
    ensures out == Print(PlainInline(lib, fields, 0, false, LineOpts(refs), 0).0)
    ensures WellFormed(out, [])
    ensures var nodes := PlainInline(lib, fields, 0, false, LineOpts(refs), 0).0;
      Seen(out) == Some(Events(nodes)) && PastNodes(lib, LineOpts(refs), nodes, fields) == Some("")
  {
    var o := LineOpts(refs);
    var left;
    out, left := Inline(lib, fields, false, o, 0);
    InlineGood(lib, fields, 0, false, o, 0, false);
    PrintIsWellFormed(PlainInline(lib, fields, 0, false, o, 0).0);
    PrintIsRead(PlainInline(lib, fields, 0, false, o, 0).0);
    InlineSpells(lib, fields, 0, false, o, 0, "");
    assert fields[0..] + "" == fields;
  }

  // ----- every tree is good -----

  lemma KnownBlockNames(name: string)
    requires name in ["pre", "h3", "h4", "blockquote", "p", "ul", "ol", "li", "span", "div", "table", "thead",
                      "tbody", "tr", "th", "td", "code"]
    ensures name in NAMES && name !in VOID_NAMES && Plain(name) && name != "a"
  {
  }

  lemma KnownBlockKeys(attrs: seq<Attribute>)
    requires forall k :: 0 <= k < |attrs| ==> attrs[k].key in ["class", "start", "role", "aria-label", "tabindex"]
    ensures GoodAttributes(attrs)
  {
    forall k | 0 <= k < |attrs|
      ensures attrs[k].key in KEYS && Plain(attrs[k].key)
    {
      KnownBlockKey(attrs[k].key);
    }
  }

  lemma KnownBlockKey(key: string)
    requires key in ["class", "start", "role", "aria-label", "tabindex"]
    ensures key in KEYS && Plain(key)
  {
  }

  lemma WrapGood(name: string, attrs: seq<Attribute>, kids: seq<Node>)
    requires name in ["pre", "h3", "h4", "blockquote", "p", "ul", "ol", "li", "span", "div", "table", "thead",
                      "tbody", "tr", "th", "td", "code"]
    requires GoodAttributes(attrs) && Good(kids, false)
    ensures Good([Element(name, attrs, kids)], false)
  {
    hide NAMES, VOID_NAMES, Plain, GoodAttributes;
    KnownBlockNames(name);
    OneGood(Element(name, attrs, kids), false);
  }

  lemma NoAttributes()
    ensures GoodAttributes([])
  {
  }

  lemma VoidGood(name: string)
    requires name == "br" || name == "hr"
    ensures Good([Void(name, [])], false)
  {
    OneGood(Void(name, []), false);
  }

  lemma {:induction false} CellNodesGood(lib: Lib, tag: string, classes: seq<string>, cells: seq<string>, k: nat,
                                         o: Opts, left: nat)
    requires |classes| == |cells| && k <= |cells| && (tag == "th" || tag == "td")
    ensures Good(CellNodes(lib, tag, classes, cells, k, o, left).0, false)
    decreases |cells| - k
  {
    hide PlainInline, Good;
    if k == |cells| {
      NothingGood(false);
    } else {
      var (kids, l) := PlainInline(lib, cells[k], 0, true, o, left);
      InlineGood(lib, cells[k], 0, true, o, left, false);
      KnownBlockKeys(ClassAttribute(classes[k]));
      WrapGood(tag, ClassAttribute(classes[k]), kids);
      CellNodesGood(lib, tag, classes, cells, k + 1, o, l);
      GoodConcat([Element(tag, ClassAttribute(classes[k]), kids)],
                 CellNodes(lib, tag, classes, cells, k + 1, o, l).0, false);
    }
  }

  lemma {:induction false} RowNodesGood(lib: Lib, classes: seq<string>, rows: seq<seq<string>>, r: nat, o: Opts,
                                        left: nat)
    requires r <= |rows| && forall j :: 0 <= j < |rows| ==> |rows[j]| == |classes|
    ensures Good(RowNodes(lib, classes, rows, r, o, left).0, false)
    decreases |rows| - r
  {
    hide CellNodes, Good;
    NothingGood(false);
    NoAttributes();
    if r < |rows| {
      var (cells, l) := CellNodes(lib, "td", classes, rows[r], 0, o, left);
      CellNodesGood(lib, "td", classes, rows[r], 0, o, left);
      WrapGood("tr", [], cells);
      RowNodesGood(lib, classes, rows, r + 1, o, l);
      GoodConcat([Element("tr", [], cells)], RowNodes(lib, classes, rows, r + 1, o, l).0, false);
    }
  }

  lemma TableGood(lib: Lib, lines: seq<string>, i: nat, o: Opts, left: nat)
    requires i < |lines| && TableAt(lib, lines, i)
    ensures Good(TableBlock(lib, lines, i, o, left).nodes, false)
  {
    hide CellNodes, RowNodes, Good, Cells, Rows, Classes, GoodAttributes;
    var head, rows := Cells(lib, lines[i]), Rows(lib, lines, i + 2, |Cells(lib, lines[i])|);
    var classes := Classes(lib, Cells(lib, lines[i + 1]), rows);
    var (heads, l) := CellNodes(lib, "th", classes, head, 0, o, left);
    var body := RowNodes(lib, classes, rows, 0, o, l).0;
    CellNodesGood(lib, "th", classes, head, 0, o, left);
    RowNodesGood(lib, classes, rows, 0, o, l);
    TableTreeGood(heads, body);
  }

  lemma TableTreeGood(heads: seq<Node>, body: seq<Node>)
    requires Good(heads, false) && Good(body, false)
    ensures Good([Element("div", TABLE_BOX, [Element("table", [],
      [Element("thead", [], [Element("tr", [], heads)]), Element("tbody", [], body)])])], false)
  {
    hide Good, GoodAttributes;
    NoAttributes();
    KnownBlockKeys(TABLE_BOX);
    WrapGood("tr", [], heads);
    var thead, tbody := Element("thead", [], [Element("tr", [], heads)]), Element("tbody", [], body);
    WrapGood("thead", [], [Element("tr", [], heads)]);
    WrapGood("tbody", [], body);
    GoodConcat([thead], [tbody], false);
    assert [thead] + [tbody] == [thead, tbody];
    WrapGood("table", [], [thead, tbody]);
    WrapGood("div", TABLE_BOX, [Element("table", [], [thead, tbody])]);
  }

  lemma {:induction false} JoinedGood(lib: Lib, parts: seq<string>, o: Opts, left: nat)
    ensures Good(Joined(lib, parts, o, left).0, false)
  {
    hide PlainInline, Good;
    NothingGood(false);
    if parts != [] {
      var (first, l) := PlainInline(lib, parts[0], 0, true, o, left);
      var separator := if |parts| > 1 then [Void("br", [])] else [];
      InlineGood(lib, parts[0], 0, true, o, left, false);
      VoidGood("br");
      JoinedGood(lib, parts[1..], o, l);
      GoodConcat(first, separator, false);
      GoodConcat(first + separator, Joined(lib, parts[1..], o, l).0, false);
    }
  }

  lemma FlatGood(lib: Lib, lines: seq<string>, o: Opts, left: nat)
    ensures Good(FlatNodes(lib, lines, o, left).0, false)
  {
    hide Good;
    NothingGood(false);
    NoAttributes();
    JoinedGood(lib, NonBlank(lib, lines), o, left);
    WrapGood("p", [], Joined(lib, NonBlank(lib, lines), o, left).0);
  }

  lemma ItemHeadGood(lib: Lib, text: string, o: Opts, left: nat)
    ensures GoodAttributes(ItemHead(lib, text, o, left).0) && Good(ItemHead(lib, text, o, left).1, false)
  {
    hide PlainInline, Good, GoodAttributes;
    NoAttributes();
    var task := TaskOf(text);
    if o.doc && task.Task? {
      var span := [Attribute("class", "sr")];
      KnownBlockKeys(span);
      KnownBlockKeys([Attribute("class", task.style)]);
      OneGood(Text(task.caption), false);
      WrapGood("span", span, [Text(task.caption)]);
      InlineGood(lib, task.rest, 0, true, o, left, false);
      GoodConcat([Element("span", span, [Text(task.caption)])], PlainInline(lib, task.rest, 0, true, o, left).0, false);
    } else {
      InlineGood(lib, text, 0, true, o, left, false);
    }
  }

  lemma {:induction false} ItemsGood(lib: Lib, lines: seq<string>, i: nat, ordered: bool, o: Opts, depth: nat,
                                     left: nat)
    requires i <= |lines|
    ensures Good(Items(lib, lines, i, ordered, o, depth, left).nodes, false)
    decreases 0, |lines|, |lines| - i, 1
  {
    hide Good, ItemHead, Blocks, FlatNodes, Dedented, GoodAttributes;
    NothingGood(false);
    if i < |lines| && Item(lines[i], ordered) != "" {
      var (attrs, head, l) := ItemHead(lib, Item(lines[i], ordered), o, left);
      var j := ItemEnd(lib, lines, i + 1);
      var inner := Dedented(lib, lines[i + 1..j]);
      ItemHeadGood(lib, Item(lines[i], ordered), o, left);
      if depth + 1 < MAX_LIST_DEPTH {
        BlocksGood(lib, inner, 0, false, o, depth + 1, l);
      } else {
        FlatGood(lib, inner, o, l);
      }
      var (kids, l') :=
        if depth + 1 < MAX_LIST_DEPTH then Blocks(lib, inner, 0, false, o, depth + 1, l)
        else FlatNodes(lib, inner, o, l);
      GoodConcat(head, kids, false);
      WrapGood("li", attrs, head + kids);
      ItemsGood(lib, lines, j, ordered, o, depth, l');
      GoodConcat([Element("li", attrs, head + kids)], Items(lib, lines, j, ordered, o, depth, l').nodes, false);
    }
  }

  lemma {:induction false} BlockGood(lib: Lib, lines: seq<string>, i: nat, quotes: bool, o: Opts, depth: nat, left: nat)
    requires i < |lines| && !Blank(lib, lines[i])
    ensures Good(Block(lib, lines, i, quotes, o, depth, left).nodes, false)
    decreases Flag(quotes), |lines|, |lines| - i, 2
  {
    hide Good, PlainInline, Blocks, Items, Joined, TableBlock, Rule, Heading, TableAt, GoodAttributes;
    var line := lines[i];
    NoAttributes();
    if Fence(lib, line) {
      var text := JoinLines(lines[i + 1..FenceEnd(lib, lines, i + 1)]);
      OneGood(Text(text), false);
      WrapGood("code", [], [Text(text)]);
      WrapGood("pre", [], [Element("code", [], [Text(text)])]);
    } else if Rule(lib, line) {
      VoidGood("hr");
    } else if Heading(line) > 0 {
      var text := lib.trim(line[Heading(line)..]);
      InlineGood(lib, text, 0, true, o, left, false);
      WrapGood(if Heading(line) > 2 then "h4" else "h3", [], PlainInline(lib, text, 0, true, o, left).0);
    } else if quotes && ">" <= line {
      var inner := Quoted(lines, i, QuoteEnd(lines, i));
      BlocksGood(lib, inner, 0, false, o, depth, left);
      WrapGood("blockquote", [], Blocks(lib, inner, 0, false, o, depth, left).0);
    } else if TableAt(lib, lines, i) {
      TableGood(lib, lines, i, o, left);
    } else if Item(line, false) != "" {
      ItemsGood(lib, lines, i, false, o, depth, left);
      WrapGood("ul", [], Items(lib, lines, i, false, o, depth, left).nodes);
    } else if Item(line, true) != "" {
      ItemsGood(lib, lines, i, true, o, depth, left);
      KnownBlockKeys(StartAttribute(line, true));
      WrapGood("ol", StartAttribute(line, true), Items(lib, lines, i, true, o, depth, left).nodes);
    } else {
      var parts := lines[i..ParagraphEnd(lib, lines, i, i, quotes)];
      JoinedGood(lib, parts, o, left);
      WrapGood("p", [], Joined(lib, parts, o, left).0);
    }
  }

  lemma {:induction false} BlocksGood(lib: Lib, lines: seq<string>, i: nat, quotes: bool, o: Opts, depth: nat,
                                      left: nat)
    ensures Good(Blocks(lib, lines, i, quotes, o, depth, left).0, false)
    decreases Flag(quotes), |lines|, if i < |lines| then |lines| - i else 0, 3
  {
    hide Good, Block;
    if i >= |lines| {
      NothingGood(false);
    } else if Blank(lib, lines[i]) {
      BlocksGood(lib, lines, i + 1, quotes, o, depth, left);
    } else {
      var b := Block(lib, lines, i, quotes, o, depth, left);
      BlockGood(lib, lines, i, quotes, o, depth, left);
      BlocksGood(lib, lines, b.next, quotes, o, depth, b.left);
      GoodConcat(b.nodes, Blocks(lib, lines, b.next, quotes, o, depth, b.left).0, false);
    }
  }
}
