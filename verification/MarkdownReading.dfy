/** A reader of whole pages: it goes through the lines once, tells every line by its first characters,
    and checks that the tree has the block for it, with the text of the line in it, and nothing more. */
module MarkdownReading {
  import opened Basics
  import opened Html
  import opened MarkdownInline
  import opened MarkdownBlocks
  import opened MarkdownLaws
  import opened MarkdownMeaning

  // ----- kinds of lines -----

  /** Where the run of elements with p that starts at j ends. */
  function RunEnd<T>(s: seq<T>, j: nat, p: T -> bool): (k: nat)
    requires j <= |s|
    ensures j <= k <= |s| && (k < |s| ==> !p(s[k]))
    ensures forall x :: j <= x < k ==> p(s[x])
    decreases |s| - j
  {
    if j < |s| && p(s[j]) then RunEnd(s, j + 1, p) else j
  }

  const HEADS: seq<string> := ["# ", "## ", "### ", "#### ", "##### ", "###### "]

  function Level(line: string, n: nat): (level: nat)
    requires 1 <= n <= 7
    ensures level > 0 ==> n <= level <= 6 && HEADS[level - 1] <= line
    ensures level == 0 ==> forall k :: n - 1 <= k < 6 ==> !(HEADS[k] <= line)
    decreases 7 - n
  {
    if n == 7 then 0 else if HEADS[n - 1] <= line then n else Level(line, n + 1)
  }

  /** Nothing but spaces and one of the three characters, which stands there three times. */
  predicate RuleOf(t: string, c: char) {
    (forall x :: x in t ==> x == c || x == ' ') && multiset(t)[c] >= 3
  }

  /** What follows the bullet or the number of an item; "" when the line is none. */
  function Bulleted(line: string): string {
    if "- " <= line || "* " <= line then line[2..] else ""
  }

  function NumberEnd(line: string): (n: nat)
    ensures n <= |line|
  {
    RunEnd(line, 0, c => '0' <= c <= '9')
  }

  function Numbered(line: string): string {
    var n := NumberEnd(line);
    if n > 0 && ". " <= line[n..] then line[n + 2..] else ""
  }

  predicate Dashes(s: string) {
    s != "" && forall x :: x in s ==> x == '-'
  }

  /** Dashes, and a colon before them, behind them, or both. */
  predicate Delimiter(d: string) {
    || Dashes(d)
    || (":" <= d && Dashes(d[1..]))
    || (EndsWith(d, ":") && Dashes(d[..|d| - 1]))
    || (":" <= d && EndsWith(d[1..], ":") && Dashes(d[1..|d| - 1]))
  }

  predicate Delimiters(cells: seq<string>) {
    forall k :: 0 <= k < |cells| ==> Delimiter(cells[k])
  }

  predicate TableStarts(lib: Lib, lines: seq<string>, i: nat)
    requires i < |lines|
  {
    && i + 1 < |lines| && '|' in lines[i] && Delimiters(Cells(lib, lines[i + 1]))
    && |Cells(lib, lines[i])| == |Cells(lib, lines[i + 1])|
  }

  datatype Kind = BlankLine | FenceLine | RuleLine | HeadLine(level: nat) | QuoteLine | TableLine | BulletLine
    | NumberLine | TextLine

  function KindOf(lib: Lib, lines: seq<string>, i: nat, quotes: bool): Kind
    requires i < |lines|
  {
    var line, t := lines[i], lib.trim(lines[i]);
    if t == "" then BlankLine
    else if "```" <= t then FenceLine
    else if RuleOf(t, '-') || RuleOf(t, '*') || RuleOf(t, '_') then RuleLine
    else if Level(line, 1) > 0 then HeadLine(Level(line, 1))
    else if quotes && ">" <= line then QuoteLine
    else if TableStarts(lib, lines, i) then TableLine
    else if Bulleted(line) != "" then BulletLine
    else if Numbered(line) != "" then NumberLine
    else TextLine
  }

  // ----- the kinds are what the renderer recognises -----

  lemma {:induction false} SpacesGone(t: string)
    ensures forall x :: x in WithoutSpaces(t) <==> x in t && x != ' '
  {
    if t != "" {
      SpacesGone(t[1..]);
      assert t == [t[0]] + t[1..];
    }
  }

  lemma {:induction false} CountKept(t: string, c: char)
    requires c != ' '
    ensures multiset(WithoutSpaces(t))[c] == multiset(t)[c]
  {
    if t != "" {
      CountKept(t[1..], c);
      assert t == [t[0]] + t[1..];
    }
  }

  lemma EveryIs(s: string, c: char)
    ensures (forall x :: x in s ==> x == c) <==> (forall k :: 0 <= k < |s| ==> s[k] == c)
  {
    if forall x :: x in s ==> x == c {
      assert forall k :: 0 <= k < |s| ==> s[k] in s;
    }
  }

  lemma {:induction false} AllAlike(w: string, c: char)
    requires forall x :: x in w ==> x == c
    ensures multiset(w)[c] == |w|
  {
    if w != "" {
      assert w == [w[0]] + w[1..] && w[0] in w;
      assert forall x :: x in w[1..] ==> x in w;
      AllAlike(w[1..], c);
      assert multiset(w) == multiset([w[0]]) + multiset(w[1..]);
    }
  }

  lemma RuleAgrees(t: string, c: char)
    requires c != ' '
    ensures var w := WithoutSpaces(t);
      RuleOf(t, c) <==> |w| >= 3 && (forall k :: 0 <= k < |w| ==> w[k] == w[0]) && w[0] == c
  {
    hide WithoutSpaces;
    SpacesGone(t);
    CountKept(t, c);
    var w := WithoutSpaces(t);
    EveryIs(w, c);
    assert (forall x :: x in t ==> x == c || x == ' ') <==> (forall x :: x in w ==> x == c);
    if forall x :: x in w ==> x == c {
      AllAlike(w, c);
    }
  }

  lemma RulesAgree(lib: Lib, line: string)
    ensures var t := lib.trim(line);
      Rule(lib, line) <==> RuleOf(t, '-') || RuleOf(t, '*') || RuleOf(t, '_')
  {
    hide WithoutSpaces, RuleOf;
    var t := lib.trim(line);
    RuleAgrees(t, '-');
    RuleAgrees(t, '*');
    RuleAgrees(t, '_');
    var marks := "-*_";
    assert marks[0] == '-' && marks[1] == '*' && marks[2] == '_';
  }

  lemma {:induction false} HashesAre(line: string, from: nat, n: nat)
    requires from <= n <= |line| && n <= 6 && (forall k :: from <= k < n ==> line[k] == '#')
    requires n < |line| && line[n] != '#'
    ensures Hashes(line, from) == n
    decreases n - from
  {
    if from < n {
      HashesAre(line, from + 1, n);
    }
  }

  lemma {:induction false} HashesFound(line: string, from: nat)
    requires from <= |line| && from <= 7
    ensures forall k :: from <= k < Hashes(line, from) ==> line[k] == '#'
    decreases 7 - from
  {
    if from < |line| && from < 7 && line[from] == '#' {
      HashesFound(line, from + 1);
    }
  }

  lemma HeadMeans(line: string, n: nat)
    requires 1 <= n <= 6
    ensures HEADS[n - 1] <= line
      <==> n < |line| && line[n] == ' ' && forall k :: 0 <= k < n ==> line[k] == '#'
  {
    var head := HEADS[n - 1];
    assert |head| == n + 1 && head[n] == ' ' && forall k :: 0 <= k < n ==> head[k] == '#';
    if head <= line {
      assert forall k :: 0 <= k <= n ==> line[k] == head[k];
    }
    if n < |line| && line[n] == ' ' && forall k :: 0 <= k < n ==> line[k] == '#' {
      assert line[..n + 1] == head;
    }
  }

  lemma LevelAgrees(line: string)
    ensures Heading(line) == Level(line, 1)
  {
    hide Hashes, HEADS;
    var level, n := Level(line, 1), Heading(line);
    if level > 0 {
      HeadMeans(line, level);
      HashesAre(line, 0, level);
    } else if n > 0 {
      HashesFound(line, 0);
      HeadMeans(line, n);
    }
  }

  lemma {:induction false} DigitsRun(line: string, n: nat)
    requires n <= |line|
    ensures Digits(line, n) == RunEnd(line, n, c => '0' <= c <= '9')
    decreases |line| - n
  {
    if n < |line| && '0' <= line[n] <= '9' {
      DigitsRun(line, n + 1);
    }
  }

  lemma ItemsAgree(line: string)
    ensures Item(line, false) == Bulleted(line) && Item(line, true) == Numbered(line)
  {
    hide RunEnd, Digits;
    DigitsRun(line, 0);
  }

  lemma DelimiterAgrees(d: string)
    ensures AlignCell(d) <==> Delimiter(d)
  {
    hide Dashes, OnlyDashes;
    var a := if ":" <= d then d[1..] else d;
    var b := if EndsWith(a, ":") then a[..|a| - 1] else a;
    DashesAgree(b);
    DashesStop(d);
    if ":" <= d {
      DashesStop(d[1..]);
      DashesStop(d[..|d| - 1]);
      if EndsWith(a, ":") {
        assert b == d[1..|d| - 1];
      }
    }
  }

  lemma DashesAgree(s: string)
    ensures OnlyDashes(s) <==> Dashes(s)
  {
    EveryIs(s, '-');
  }

  lemma DashesStop(d: string)
    ensures Dashes(d) ==> !(":" <= d) && !EndsWith(d, ":")
  {
    if Dashes(d) {
      assert d[0] in d && d[|d| - 1] in d;
    }
  }

  lemma TablesAgree(lib: Lib, lines: seq<string>, i: nat)
    requires i < |lines|
    ensures TableAt(lib, lines, i) <==> TableStarts(lib, lines, i)
  {
    hide Cells, AlignCell, Delimiter, Index;
    BarMeans(lines[i]);
    if i + 1 < |lines| {
      var cells := Cells(lib, lines[i + 1]);
      forall k | 0 <= k < |cells|
        ensures AlignCell(cells[k]) <==> Delimiter(cells[k])
      {
        DelimiterAgrees(cells[k]);
      }
    }
  }

  lemma BarMeans(line: string)
    ensures Index(line, "|") >= 0 <==> '|' in line
  {
    hide Index;
    if '|' in line {
      HasIndex(line, '|');
    } else {
      NoCharIndex(line, '|');
    }
  }

  lemma KindsAgree(lib: Lib, lines: seq<string>, i: nat, quotes: bool)
    requires i < |lines|
    ensures var line := lines[i];
      KindOf(lib, lines, i, quotes)
      == if Blank(lib, line) then BlankLine
         else if Fence(lib, line) then FenceLine
         else if Rule(lib, line) then RuleLine
         else if Heading(line) > 0 then HeadLine(Heading(line))
         else if quotes && ">" <= line then QuoteLine
         else if TableAt(lib, lines, i) then TableLine
         else if Item(line, false) != "" then BulletLine
         else if Item(line, true) != "" then NumberLine
         else TextLine
  {
    hide Rule, RuleOf, Heading, Level, TableAt, TableStarts, Item, Bulleted, Numbered;
    RulesAgree(lib, lines[i]);
    LevelAgrees(lines[i]);
    TablesAgree(lib, lines, i);
    ItemsAgree(lines[i]);
  }

  // ----- reading lines and cells -----

  /** An element with no attributes. */
  predicate Named(node: Node, name: string) {
    node.Element? && node.attrs == [] && node.name == name
  }

  /** The nodes begin with those of one line, which spell it: what is behind them and the budget left. */
  function PastLine(lib: Lib, o: Opts, nodes: seq<Node>, text: string, left: nat): Option<(seq<Node>, nat)> {
    var (kids, l) := PlainInline(lib, text, 0, true, o, left);
    if kids <= nodes && PastNodes(lib, o, kids, text) == Some("") then Some((nodes[|kids|..], l)) else None
  }

  /** The nodes are those of one line. */
  function WholeLine(lib: Lib, o: Opts, nodes: seq<Node>, text: string, left: nat): Option<nat> {
    match PastLine(lib, o, nodes, text, left)
    case None => None
    case Some((rest, l)) => if rest == [] then Some(l) else None
  }

  /** Lines with a break between them, and nothing else. */
  function WholeLines(lib: Lib, o: Opts, nodes: seq<Node>, parts: seq<string>, left: nat): Option<nat>
    decreases |parts|
  {
    if |parts| == 0 then (if nodes == [] then Some(left) else None)
    else if |parts| == 1 then WholeLine(lib, o, nodes, parts[0], left)
    else
      match PastLine(lib, o, nodes, parts[0], left)
      case None => None
      case Some((rest, l)) =>
        if rest != [] && rest[0] == Void("br", []) then WholeLines(lib, o, rest[1..], parts[1..], l) else None
  }

  /** Cell k of a row; rows that are too short have empty cells. */
  function CellAt(lib: Lib, line: string, k: nat): string {
    if k < |Cells(lib, line)| then Cells(lib, line)[k] else ""
  }

  /** Every cell of column k between two lines that is not empty is a number, and there is one. */
  predicate Numbers(lib: Lib, lines: seq<string>, from: nat, to: nat, k: nat)
    requires from <= to <= |lines|
  {
    && (forall r :: from <= r < to ==> CellAt(lib, lines[r], k) == "" || lib.numeric(CellAt(lib, lines[r], k)))
    && (exists r :: from <= r < to && CellAt(lib, lines[r], k) != "")
  }

  /** :-: is centred, -: right, :- left, and - right when the column holds numbers. */
  function Alignment(d: string, numbers: bool): seq<Attribute>
    requires d != ""
  {
    if d[0] == ':' && d[|d| - 1] == ':' then [Attribute("class", "c")]
    else if d[|d| - 1] == ':' then [Attribute("class", "r")]
    else if d[0] == ':' then [Attribute("class", "l")]
    else if numbers then [Attribute("class", "r")]
    else []
  }

  /** The nodes are the cells of one row from cell k on, each in its column's class. */
  function PastCells(lib: Lib, o: Opts, nodes: seq<Node>, tag: string, line: string, columns: seq<seq<Attribute>>,
                     k: nat, left: nat): Option<nat>
    requires k <= |columns|
    decreases |columns| - k
  {
    if k == |columns| then (if nodes == [] then Some(left) else None)
    else if nodes == [] || !nodes[0].Element? || nodes[0].name != tag || nodes[0].attrs != columns[k] then None
    else
      match WholeLine(lib, o, nodes[0].kids, CellAt(lib, line, k), left)
      case None => None
      case Some(l) => PastCells(lib, o, nodes[1..], tag, line, columns, k + 1, l)
  }

  function PastRows(lib: Lib, o: Opts, nodes: seq<Node>, lines: seq<string>, from: nat, to: nat,
                    columns: seq<seq<Attribute>>, left: nat): Option<nat>
    requires from <= to <= |lines|
    decreases |lines| - from
  {
    if from == to then (if nodes == [] then Some(left) else None)
    else if nodes == [] || !Named(nodes[0], "tr") then None
    else
      match PastCells(lib, o, nodes[0].kids, "td", lines[from], columns, 0, left)
      case None => None
      case Some(l) => PastRows(lib, o, nodes[1..], lines, from + 1, to, columns, l)
  }

  /** Where the rows of the table at line i end. */
  function TableEnd(lib: Lib, lines: seq<string>, i: nat): (j: nat)
    requires i + 2 <= |lines|
    ensures i + 2 <= j <= |lines|
  {
    RunEnd(lines, i + 2, line => lib.trim(line) != "" && '|' in line && !("```" <= lib.trim(line)))
  }

  function Columns(lib: Lib, lines: seq<string>, i: nat): seq<seq<Attribute>>
    requires i < |lines| && TableStarts(lib, lines, i)
  {
    var marks := Cells(lib, lines[i + 1]);
    seq(|marks|, k requires 0 <= k < |marks| && i + 2 <= |lines| && Delimiters(marks) =>
      Alignment(marks[k], Numbers(lib, lines, i + 2, TableEnd(lib, lines, i), k)))
  }

  /** The node is the table at line i, in a box that scrolls. */
  function PastTable(lib: Lib, o: Opts, node: Node, lines: seq<string>, i: nat, left: nat): Option<nat>
    requires i < |lines| && TableStarts(lib, lines, i)
  {
    if !(node.Element? && node.name == "div" && |node.kids| == 1 && node.kids[0].Element?
         && node.attrs == [Attribute("class", "table"), Attribute("role", "region"), Attribute("aria-label", "Table"),
                           Attribute("tabindex", "0")]) then None
    else
      var table := node.kids[0];
      if !(table.name == "table" && table.attrs == [] && |table.kids| == 2 && table.kids[0].Element?
           && |table.kids[0].kids| == 1 && table.kids[0].kids[0].Element?) then None
      else
        var heads, body := table.kids[0].kids[0].kids, table.kids[1];
        if table.kids[0] != Element("thead", [], [Element("tr", [], heads)]) || !body.Element? || body.name != "tbody"
           || body.attrs != [] then None
        else
          var columns := Columns(lib, lines, i);
          match PastCells(lib, o, heads, "th", lines[i], columns, 0, left)
          case None => None
          case Some(l) => PastRows(lib, o, body.kids, lines, i + 2, TableEnd(lib, lines, i), columns, l)
  }

  // ----- lines, cells and tables are read -----

  lemma LineReads(lib: Lib, o: Opts, text: string, left: nat, rest: seq<Node>)
    ensures var (kids, l) := PlainInline(lib, text, 0, true, o, left);
      PastLine(lib, o, kids + rest, text, left) == Some((rest, l)) && WholeLine(lib, o, kids, text, left) == Some(l)
  {
    hide PlainInline, PastNodes;
    var (kids, l) := PlainInline(lib, text, 0, true, o, left);
    InlineSpells(lib, text, 0, true, o, left, "");
    assert text[0..] + "" == text;
    assert (kids + rest)[..|kids|] == kids && (kids + rest)[|kids|..] == rest;
    assert kids[|kids|..] == [];
  }

  lemma {:induction false} LinesRead(lib: Lib, o: Opts, parts: seq<string>, left: nat)
    ensures var (kids, l) := Joined(lib, parts, o, left); WholeLines(lib, o, kids, parts, left) == Some(l)
  {
    hide PlainInline, PastLine, WholeLine;
    if |parts| == 1 {
      LineReads(lib, o, parts[0], left, []);
      var (first, l) := PlainInline(lib, parts[0], 0, true, o, left);
      assert Joined(lib, parts[1..], o, l) == ([], l);
      assert first + [] + [] == first;
    } else if |parts| > 1 {
      var (first, l) := PlainInline(lib, parts[0], 0, true, o, left);
      var (more, l') := Joined(lib, parts[1..], o, l);
      LineReads(lib, o, parts[0], left, [Void("br", [])] + more);
      assert first + [Void("br", [])] + more == first + ([Void("br", [])] + more);
      assert ([Void("br", [])] + more)[1..] == more;
      LinesRead(lib, o, parts[1..], l);
    }
  }

  lemma {:induction false} CellsRead(lib: Lib, o: Opts, tag: string, classes: seq<string>, cells: seq<string>,
                                     line: string, columns: seq<seq<Attribute>>, k: nat, left: nat)
    requires |classes| == |cells| == |columns| && k <= |cells|
    requires forall j :: 0 <= j < |cells| ==>
      cells[j] == CellAt(lib, line, j) && columns[j] == ClassAttribute(classes[j])
    ensures var (nodes, l) := CellNodes(lib, tag, classes, cells, k, o, left);
      PastCells(lib, o, nodes, tag, line, columns, k, left) == Some(l)
    decreases |cells| - k
  {
    hide PlainInline, WholeLine, CellAt;
    if k < |cells| {
      var (kids, l) := PlainInline(lib, cells[k], 0, true, o, left);
      var (more, l') := CellNodes(lib, tag, classes, cells, k + 1, o, l);
      LineReads(lib, o, cells[k], left, []);
      CellsRead(lib, o, tag, classes, cells, line, columns, k + 1, l);
      assert ([Element(tag, ClassAttribute(classes[k]), kids)] + more)[1..] == more;
    }
  }

  lemma {:induction false} RowsAre(lib: Lib, lines: seq<string>, i: nat, width: nat)
    requires i <= |lines|
    ensures var rows := Rows(lib, lines, i, width);
      && |rows| == RowsEnd(lib, lines, i) - i
      && forall r, k :: 0 <= r < |rows| && 0 <= k < width ==> rows[r][k] == CellAt(lib, lines[i + r], k)
    decreases |lines| - i
  {
    hide Cells, RowAt;
    if RowAt(lib, lines, i) {
      InRange(lib, lines, i);
      RowsAre(lib, lines, i + 1, width);
    }
  }

  lemma InRange(lib: Lib, lines: seq<string>, i: nat)
    requires RowAt(lib, lines, i)
    ensures i < |lines|
  {
  }

  lemma {:induction false} RowsEndThere(lib: Lib, lines: seq<string>, i: nat, from: nat)
    requires i + 2 <= from <= |lines|
    ensures RowsEnd(lib, lines, from)
      == RunEnd(lines, from, line => lib.trim(line) != "" && '|' in line && !("```" <= lib.trim(line)))
    decreases |lines| - from
  {
    hide Index;
    if from < |lines| {
      BarMeans(lines[from]);
      RowsEndThere(lib, lines, i, from + 1);
    }
  }

  lemma {:induction false} RowsRead(lib: Lib, o: Opts, classes: seq<string>, rows: seq<seq<string>>, lines: seq<string>,
                                    from: nat, columns: seq<seq<Attribute>>, r: nat, left: nat)
    requires r <= |rows| && from + |rows| <= |lines| && |classes| == |columns|
    requires forall j :: 0 <= j < |rows| ==> |rows[j]| == |columns|
    requires forall j, k :: 0 <= j < |rows| && 0 <= k < |columns| ==> rows[j][k] == CellAt(lib, lines[from + j], k)
    requires forall k :: 0 <= k < |columns| ==> columns[k] == ClassAttribute(classes[k])
    ensures var (nodes, l) := RowNodes(lib, classes, rows, r, o, left);
      PastRows(lib, o, nodes, lines, from + r, from + |rows|, columns, left) == Some(l)
    decreases |rows| - r
  {
    hide CellNodes, PastCells, CellAt, ClassAttribute;
    if r < |rows| {
      var (cells, l) := CellNodes(lib, "td", classes, rows[r], 0, o, left);
      var (more, l') := RowNodes(lib, classes, rows, r + 1, o, l);
      CellsRead(lib, o, "td", classes, rows[r], lines[from + r], columns, 0, left);
      RowsRead(lib, o, classes, rows, lines, from, columns, r + 1, l);
      assert ([Element("tr", [], cells)] + more)[1..] == more;
    }
  }

  lemma ColumnsAre(lib: Lib, lines: seq<string>, i: nat)
    requires i < |lines| && TableAt(lib, lines, i) && TableStarts(lib, lines, i)
    ensures var rows := Rows(lib, lines, i + 2, |Cells(lib, lines[i])|);
      var classes := Classes(lib, Cells(lib, lines[i + 1]), rows);
      && TableEnd(lib, lines, i) == i + 2 + |rows| && |Columns(lib, lines, i)| == |classes|
      && forall k :: 0 <= k < |classes| ==> Columns(lib, lines, i)[k] == ClassAttribute(classes[k])
  {
    hide Cells, AlignCell, RowAt, CellAt, Rows, RowsEnd, RunEnd;
    var marks, width := Cells(lib, lines[i + 1]), |Cells(lib, lines[i])|;
    var rows := Rows(lib, lines, i + 2, width);
    RowsAre(lib, lines, i + 2, width);
    RowsEndThere(lib, lines, i, i + 2);
    forall k | 0 <= k < |marks|
      ensures Columns(lib, lines, i)[k] == ClassAttribute(ColumnClass(lib, marks[k], rows, k))
    {
      NumbersAgree(lib, lines, i + 2, rows, k, width);
      AlignmentAgrees(lib, marks[k], rows, k);
    }
  }

  lemma NumbersAgree(lib: Lib, lines: seq<string>, from: nat, rows: seq<seq<string>>, k: nat, width: nat)
    requires k < width && from + |rows| <= |lines| && forall r :: 0 <= r < |rows| ==> |rows[r]| == width
    requires forall r, j :: 0 <= r < |rows| && 0 <= j < width ==> rows[r][j] == CellAt(lib, lines[from + r], j)
    ensures NumericColumn(lib, rows, k) <==> Numbers(lib, lines, from, from + |rows|, k)
  {
    hide CellAt;
    forall r | from <= r < from + |rows|
      ensures CellAt(lib, lines[r], k) == rows[r - from][k]
    {
      assert lines[r] == lines[from + (r - from)];
    }
  }

  lemma AlignmentAgrees(lib: Lib, d: string, rows: seq<seq<string>>, k: nat)
    requires Delimiter(d) && forall r :: 0 <= r < |rows| ==> k < |rows[r]|
    ensures d != ""
    ensures Alignment(d, NumericColumn(lib, rows, k)) == ClassAttribute(ColumnClass(lib, d, rows, k))
  {
    hide NumericColumn;
    assert d != "";
    assert ":" <= d <==> d[0] == ':';
    assert EndsWith(d, ":") <==> d[|d| - 1] == ':';
  }

  lemma TableReads(lib: Lib, o: Opts, lines: seq<string>, i: nat, left: nat)
    requires i < |lines| && TableAt(lib, lines, i) && TableStarts(lib, lines, i)
    ensures var out := TableBlock(lib, lines, i, o, left);
      && |out.nodes| == 1 && PastTable(lib, o, out.nodes[0], lines, i, left) == Some(out.left)
      && out.next == TableEnd(lib, lines, i)
  {
    hide Cells, AlignCell, Rows, RowsEnd, Classes, CellNodes, RowNodes, PastCells, PastRows, Columns, TableEnd;
    var head, rows := Cells(lib, lines[i]), Rows(lib, lines, i + 2, |Cells(lib, lines[i])|);
    var classes := Classes(lib, Cells(lib, lines[i + 1]), rows);
    var (heads, l) := CellNodes(lib, "th", classes, head, 0, o, left);
    var columns := Columns(lib, lines, i);
    ColumnsAre(lib, lines, i);
    RowsAre(lib, lines, i + 2, |head|);
    HeadCells(lib, lines[i]);
    CellsRead(lib, o, "th", classes, head, lines[i], columns, 0, left);
    RowsRead(lib, o, classes, rows, lines, i + 2, columns, 0, l);
  }

  lemma HeadCells(lib: Lib, line: string)
    ensures forall k :: 0 <= k < |Cells(lib, line)| ==> Cells(lib, line)[k] == CellAt(lib, line, k)
  {
  }

  // ----- reading items and blocks -----

  /** The boxes of a task list, with the style and the caption that they get. */
  const BOXES: map<string, (string, string)> :=
    map["[ ] " := ("task", "to do: "), "[x] " := ("task done", "done: "), "[X] " := ("task done", "done: ")]

  /** The first line of an item: what is left of its nodes and the budget. */
  function PastHead(lib: Lib, o: Opts, item: Node, text: string, left: nat): Option<(seq<Node>, nat)>
    requires item.Element?
  {
    if o.doc && |text| >= 4 && text[..4] in BOXES then
      var (style, caption) := BOXES[text[..4]];
      if item.attrs == [Attribute("class", style)] && item.kids != []
         && item.kids[0] == Element("span", [Attribute("class", "sr")], [Text(caption)])
      then PastLine(lib, o, item.kids[1..], text[4..], left)
      else None
    else if item.attrs == [] then PastLine(lib, o, item.kids, text, left)
    else None
  }

  /** The lines that belong to the item above them. */
  predicate Belongs(lib: Lib, line: string) {
    lib.trim(line) == "" || " " <= line || "\t" <= line
  }

  /** The lines that are not blank. */
  function Filled(lib: Lib, lines: seq<string>): seq<string> {
    if lines == [] then []
    else (if lib.trim(lines[0]) == "" then [] else [lines[0]]) + Filled(lib, lines[1..])
  }

  /** Inside the deepest lists the lines of an item are one paragraph. */
  function PastFlat(lib: Lib, o: Opts, nodes: seq<Node>, lines: seq<string>, left: nat): Option<nat> {
    var parts := Filled(lib, lines);
    if parts == [] then (if nodes == [] then Some(left) else None)
    else if |nodes| == 1 && Named(nodes[0], "p") then
      WholeLines(lib, o, nodes[0].kids, parts, left)
    else None
  }

  function ItemText(line: string, ordered: bool): string {
    if ordered then Numbered(line) else Bulleted(line)
  }

  /** The nodes are the items from line i on: the line behind the last one, and the budget left. */
  function PastItems(lib: Lib, o: Opts, nodes: seq<Node>, lines: seq<string>, i: nat, ordered: bool, depth: nat,
                     left: nat): Option<(nat, nat)>
    requires i <= |lines|
    decreases 0, |lines|, |lines| - i, 1
  {
    if i == |lines| || ItemText(lines[i], ordered) == "" then (if nodes == [] then Some((i, left)) else None)
    else if nodes == [] || !nodes[0].Element? || nodes[0].name != "li" then None
    else
      match PastHead(lib, o, nodes[0], ItemText(lines[i], ordered), left)
      case None => None
      case Some((rest, l)) =>
        var j := RunEnd(lines, i + 1, line => Belongs(lib, line));
        var inner := Dedented(lib, lines[i + 1..j]);
        match (if depth < 5 then PastBlocks(lib, o, rest, inner, 0, false, depth + 1, l)
               else PastFlat(lib, o, rest, inner, l))
        case None => None
        case Some(l') => PastItems(lib, o, nodes[1..], lines, j, ordered, depth, l')
  }

  /** The text is these lines with a line break between them. */
  predicate JoinOf(text: string, lines: seq<string>)
    decreases |lines|
  {
    if |lines| == 0 then text == ""
    else if |lines| == 1 then text == lines[0]
    else lines[0] + "\n" <= text && JoinOf(text[|lines[0]| + 1..], lines[1..])
  }

  /** A block of code with these lines. */
  predicate CodeOf(node: Node, lines: seq<string>) {
    && node.Element? && |node.kids| == 1 && node.kids[0].Element? && |node.kids[0].kids| == 1
    && node.kids[0].kids[0].Text? && JoinOf(node.kids[0].kids[0].text, lines)
    && node == Element("pre", [], [Element("code", [], [node.kids[0].kids[0]])])
  }

  /** Where the plain lines from line j on end. */
  function TextEnd(lib: Lib, lines: seq<string>, j: nat, quotes: bool): (k: nat)
    requires j <= |lines|
    ensures j <= k <= |lines|
    decreases |lines| - j
  {
    if j < |lines| && KindOf(lib, lines, j, quotes) == TextLine then TextEnd(lib, lines, j + 1, quotes) else j
  }

  /** The number that an ordered list starts with, unless it is one or does not fit 32 bits. */
  function StartOf(line: string): seq<Attribute> {
    var n := Value(line[..NumberEnd(line)]);
    if n == 1 || n > 2147483647 then [] else [Attribute("start", Decimal(n))]
  }

  /** The quoted lines without their marks. */
  function QuotedLines(lines: seq<string>, from: nat, to: nat): (inner: seq<string>)
    requires from <= to <= |lines|
    ensures |inner| == to - from
    decreases |lines| - from
  {
    if from == to then []
    else
      [if "> " <= lines[from] then lines[from][2..] else if lines[from] == "" then "" else lines[from][1..]]
      + QuotedLines(lines, from + 1, to)
  }

  /** The node is the block at line i: the line behind it, and the budget left. */
  function PastBlock(lib: Lib, o: Opts, node: Node, lines: seq<string>, i: nat, quotes: bool, depth: nat, left: nat)
    : (r: Option<(nat, nat)>)
    requires i < |lines| && KindOf(lib, lines, i, quotes) != BlankLine
    ensures r.Some? ==> r.value.0 > i
    decreases Flag(quotes), |lines|, |lines| - i, 2
  {
    var line := lines[i];
    match KindOf(lib, lines, i, quotes)
    case FenceLine =>
      var j := RunEnd(lines, i + 1, l => !("```" <= lib.trim(l)));
      if CodeOf(node, lines[i + 1..j]) then Some((j + 1, left)) else None
    case RuleLine => if node == Void("hr", []) then Some((i + 1, left)) else None
    case HeadLine(level) =>
      if Named(node, ["", "h3", "h3", "h4", "h4", "h4", "h4"][level]) then
        match WholeLine(lib, o, node.kids, lib.trim(line[level..]), left)
        case None => None
        case Some(l) => Some((i + 1, l))
      else None
    case QuoteLine =>
      var j := RunEnd(lines, i, l => ">" <= l);
      if Named(node, "blockquote") then
        match PastBlocks(lib, o, node.kids, QuotedLines(lines, i, j), 0, false, depth, left)
        case None => None
        case Some(l) => Some((j, l))
      else None
    case TableLine =>
      var l := PastTable(lib, o, node, lines, i, left);
      if l.Some? then Some((TableEnd(lib, lines, i), l.value)) else None
    case BulletLine =>
      if Named(node, "ul") then
        Behind(PastItems(lib, o, node.kids, lines, i, false, depth, left), i)
      else None
    case NumberLine =>
      if node.Element? && node.attrs == StartOf(line) && node.name == "ol" then
        Behind(PastItems(lib, o, node.kids, lines, i, true, depth, left), i)
      else None
    case TextLine =>
      var j := TextEnd(lib, lines, i + 1, quotes);
      if Named(node, "p") then
        match WholeLines(lib, o, node.kids, lines[i..j], left)
        case None => None
        case Some(l) => Some((j, l))
      else None
  }

  /** A result that gets past line i. */
  function Behind(r: Option<(nat, nat)>, i: nat): (past: Option<(nat, nat)>)
    ensures past.Some? ==> past.value.0 > i
  {
    if r.Some? && r.value.0 > i then r else None
  }

  /** The nodes are the blocks from line i on: the budget left. */
  function PastBlocks(lib: Lib, o: Opts, nodes: seq<Node>, lines: seq<string>, i: nat, quotes: bool, depth: nat,
                      left: nat): Option<nat>
    decreases Flag(quotes), |lines|, if i < |lines| then |lines| - i else 0, 3
  {
    if i >= |lines| then (if nodes == [] then Some(left) else None)
    else if KindOf(lib, lines, i, quotes) == BlankLine then PastBlocks(lib, o, nodes, lines, i + 1, quotes, depth, left)
    else if nodes == [] then None
    else
      match PastBlock(lib, o, nodes[0], lines, i, quotes, depth, left)
      case None => None
      case Some((next, l)) => PastBlocks(lib, o, nodes[1..], lines, next, quotes, depth, l)
  }

  // ----- every page is read -----

  lemma {:induction false} FenceEndThere(lib: Lib, lines: seq<string>, j: nat)
    requires j <= |lines|
    ensures FenceEnd(lib, lines, j) == RunEnd(lines, j, l => !("```" <= lib.trim(l)))
    decreases |lines| - j
  {
    if j < |lines| {
      FenceEndThere(lib, lines, j + 1);
    }
  }

  lemma {:induction false} QuoteEndThere(lines: seq<string>, j: nat)
    requires j <= |lines|
    ensures QuoteEnd(lines, j) == RunEnd(lines, j, l => ">" <= l)
    decreases |lines| - j
  {
    if j < |lines| {
      QuoteEndThere(lines, j + 1);
    }
  }

  lemma {:induction false} ItemEndThere(lib: Lib, lines: seq<string>, j: nat)
    requires j <= |lines|
    ensures ItemEnd(lib, lines, j) == RunEnd(lines, j, line => Belongs(lib, line))
    decreases |lines| - j
  {
    if j < |lines| {
      assert Continues(lib, lines[j]) <==> Belongs(lib, lines[j]);
      ItemEndThere(lib, lines, j + 1);
    }
  }

  lemma {:induction false} ParagraphEndThere(lib: Lib, lines: seq<string>, from: nat, i: nat, quotes: bool)
    requires from < i <= |lines|
    ensures ParagraphEnd(lib, lines, from, i, quotes) == TextEnd(lib, lines, i, quotes)
    decreases |lines| - i
  {
    hide KindOf, Rule, Heading, TableAt, Item;
    if i < |lines| {
      KindsAgree(lib, lines, i, quotes);
      ParagraphEndThere(lib, lines, from, i + 1, quotes);
    }
  }

  lemma {:induction false} QuotedAre(lines: seq<string>, from: nat, to: nat)
    requires from <= to <= |lines| && forall x :: from <= x < to ==> ">" <= lines[x]
    ensures Quoted(lines, from, to) == QuotedLines(lines, from, to)
    decreases |lines| - from
  {
    if from < to {
      QuotedAre(lines, from + 1, to);
      assert Quoted(lines, from, to)[0] == Unquoted(lines[from]);
      assert Quoted(lines, from, to)[1..] == Quoted(lines, from + 1, to);
      Unquoting(lines[from]);
    }
  }

  lemma Unquoting(line: string)
    requires ">" <= line
    ensures Unquoted(line) == if "> " <= line then line[2..] else line[1..]
  {
    assert line[0] == '>';
    if |line| > 1 {
      assert line[1..][0] == line[1];
    }
  }

  lemma {:induction false} FilledFrom(lib: Lib, a: seq<string>, b: seq<string>)
    ensures Filled(lib, a + b) == Filled(lib, a) + Filled(lib, b)
  {
    if a == [] {
      assert a + b == b;
    } else {
      var first := if lib.trim(a[0]) == "" then [] else [a[0]];
      FilledFrom(lib, a[1..], b);
      assert (a + b)[1..] == a[1..] + b && (a + b)[0] == a[0];
      assert Filled(lib, a + b) == first + Filled(lib, a[1..] + b);
      assert first + (Filled(lib, a[1..]) + Filled(lib, b)) == first + Filled(lib, a[1..]) + Filled(lib, b);
    }
  }

  lemma {:induction false} FilledAre(lib: Lib, lines: seq<string>)
    ensures NonBlank(lib, lines) == Filled(lib, lines)
    decreases |lines|
  {
    if lines != [] {
      var last := lines[|lines| - 1];
      FilledAre(lib, lines[..|lines| - 1]);
      FilledFrom(lib, lines[..|lines| - 1], [last]);
      assert lines == lines[..|lines| - 1] + [last];
      assert [last][1..] == [];
    }
  }

  lemma {:induction false} JoinedLines(lines: seq<string>)
    ensures JoinOf(JoinLines(lines), lines)
  {
    if |lines| > 1 {
      JoinedLines(lines[1..]);
      var text := lines[0] + "\n" + JoinLines(lines[1..]);
      assert text[|lines[0]| + 1..] == JoinLines(lines[1..]);
    }
  }

  lemma StartsThere(line: string)
    ensures StartAttribute(line, true) == StartOf(line)
  {
    hide RunEnd, Digits, Value, Decimal;
    DigitsRun(line, 0);
  }

  lemma BoxesAre(text: string)
    ensures TaskOf(text)
      == if |text| >= 4 && text[..4] in BOXES then Task(BOXES[text[..4]].0, BOXES[text[..4]].1, text[4..]) else NoTask
  {
    if |text| >= 4 {
      var box := text[..4];
      assert box == [text[0], text[1], text[2], text[3]];
      assert "[ ] " == ['[', ' ', ']', ' '] && "[x] " == ['[', 'x', ']', ' '] && "[X] " == ['[', 'X', ']', ' '];
    }
  }

  lemma HeadReads(lib: Lib, o: Opts, text: string, left: nat, rest: seq<Node>)
    ensures var (attrs, head, l) := ItemHead(lib, text, o, left);
      PastHead(lib, o, Element("li", attrs, head + rest), text, left) == Some((rest, l))
  {
    hide PlainInline, PastLine, WholeLine, TaskOf, BOXES;
    BoxesAre(text);
    var (attrs, head, l) := ItemHead(lib, text, o, left);
    if o.doc && TaskOf(text).Task? {
      var task := TaskOf(text);
      var kids := PlainInline(lib, task.rest, 0, true, o, left).0;
      assert (head + rest)[1..] == kids + rest;
      LineReads(lib, o, task.rest, left, rest);
    } else {
      LineReads(lib, o, text, left, rest);
    }
  }

  lemma FlatReads(lib: Lib, o: Opts, lines: seq<string>, left: nat)
    ensures var (nodes, l) := FlatNodes(lib, lines, o, left); PastFlat(lib, o, nodes, lines, left) == Some(l)
  {
    hide Joined, WholeLines, Filled;
    FilledAre(lib, lines);
    LinesRead(lib, o, Filled(lib, lines), left);
    NoParts(lib, o, left);
  }

  lemma {:induction false} ItemsRead(lib: Lib, o: Opts, lines: seq<string>, i: nat, ordered: bool, depth: nat,
                                     left: nat)
    requires i <= |lines|
    ensures var items := Items(lib, lines, i, ordered, o, depth, left);
      PastItems(lib, o, items.nodes, lines, i, ordered, depth, left) == Some((items.next, items.left))
    decreases 0, |lines|, |lines| - i, 1
  {
    hide ItemHead, Blocks, FlatNodes, Dedented, PastHead, PastBlocks, PastFlat, PastItems, RunEnd, ItemEnd, Item,
      Bulleted, Numbered;
    if i < |lines| {
      ItemsAgree(lines[i]);
      var text := Item(lines[i], ordered);
      if text != "" {
        var (attrs, head, l) := ItemHead(lib, text, o, left);
        var j := ItemEnd(lib, lines, i + 1);
        var inner := Dedented(lib, lines[i + 1..j]);
        ItemEndThere(lib, lines, i + 1);
        var (kids, l') :=
          if depth + 1 < MAX_LIST_DEPTH then Blocks(lib, inner, 0, false, o, depth + 1, l)
          else FlatNodes(lib, inner, o, l);
        HeadReads(lib, o, text, left, kids);
        if depth < 5 {
          BlocksRead(lib, o, inner, 0, false, depth + 1, l);
        } else {
          FlatReads(lib, o, inner, l);
        }
        var more := Items(lib, lines, j, ordered, o, depth, l');
        ItemsRead(lib, o, lines, j, ordered, depth, l');
        PastItem(lib, o, Element("li", attrs, head + kids), more.nodes, kids, lines, i, ordered, depth, left, l, l');
      } else {
        PastNoItem(lib, o, lines, i, ordered, depth, left);
      }
    } else {
      PastNoItem(lib, o, lines, i, ordered, depth, left);
    }
  }

  lemma PastNoItem(lib: Lib, o: Opts, lines: seq<string>, i: nat, ordered: bool, depth: nat, left: nat)
    requires i <= |lines| && (i < |lines| ==> ItemText(lines[i], ordered) == "")
    ensures PastItems(lib, o, [], lines, i, ordered, depth, left) == Some((i, left))
  {
    hide ItemText;
  }

  /** One item is read, and then the items behind it. */
  lemma PastItem(lib: Lib, o: Opts, item: Node, more: seq<Node>, kids: seq<Node>, lines: seq<string>, i: nat,
                 ordered: bool, depth: nat, left: nat, l: nat, l': nat)
    requires i < |lines| && ItemText(lines[i], ordered) != "" && item.Element? && item.name == "li"
    requires PastHead(lib, o, item, ItemText(lines[i], ordered), left) == Some((kids, l))
    requires var j := RunEnd(lines, i + 1, line => Belongs(lib, line));
      var inner := Dedented(lib, lines[i + 1..j]);
      (if depth < 5 then PastBlocks(lib, o, kids, inner, 0, false, depth + 1, l)
       else PastFlat(lib, o, kids, inner, l)) == Some(l')
    ensures PastItems(lib, o, [item] + more, lines, i, ordered, depth, left)
      == PastItems(lib, o, more, lines, RunEnd(lines, i + 1, line => Belongs(lib, line)), ordered, depth, l')
  {
    hide Dedented, PastHead, PastBlocks, PastFlat, RunEnd, ItemText;
    assert ([item] + more)[1..] == more && ([item] + more)[0] == item;
  }

  /** Blocks of one line, and code. */
  lemma PlainBlockReads(lib: Lib, o: Opts, lines: seq<string>, i: nat, quotes: bool, depth: nat, left: nat)
    requires i < |lines| && !Blank(lib, lines[i]) && KindOf(lib, lines, i, quotes) != BlankLine
    requires Fence(lib, lines[i]) || Rule(lib, lines[i]) || Heading(lines[i]) > 0
    ensures BlockIsRead(lib, o, lines, i, quotes, depth, left)
  {
    hide PlainInline, Blocks, Items, Joined, TableBlock, Rule, Heading, TableAt, Item, KindOf, RunEnd, FenceEnd,
      JoinLines, WholeLine, JoinOf;
    KindsAgree(lib, lines, i, quotes);
    if Fence(lib, lines[i]) {
      FenceEndThere(lib, lines, i + 1);
      JoinedLines(lines[i + 1..FenceEnd(lib, lines, i + 1)]);
    } else if !Rule(lib, lines[i]) {
      var level := Heading(lines[i]);
      LevelAgrees(lines[i]);
      HeadNames(level);
      LineReads(lib, o, lib.trim(lines[i][level..]), left, []);
    }
  }

  ghost predicate BlockIsRead(lib: Lib, o: Opts, lines: seq<string>, i: nat, quotes: bool, depth: nat, left: nat)
    requires i < |lines| && !Blank(lib, lines[i]) && KindOf(lib, lines, i, quotes) != BlankLine
  {
    var b := Block(lib, lines, i, quotes, o, depth, left);
    && |b.nodes| == 1
    && PastBlock(lib, o, b.nodes[0], lines, i, quotes, depth, left) == Some((b.next, b.left))
  }

  lemma ParagraphReads(lib: Lib, o: Opts, lines: seq<string>, i: nat, quotes: bool, depth: nat, left: nat)
    requires i < |lines| && !Blank(lib, lines[i]) && KindOf(lib, lines, i, quotes) == TextLine
    ensures BlockIsRead(lib, o, lines, i, quotes, depth, left)
  {
    hide Joined, Rule, Heading, TableAt, Item, KindOf, ParagraphEnd, WholeLines, TextEnd;
    KindsAgree(lib, lines, i, quotes);
    ParagraphStart(lib, lines, i, quotes);
    LinesRead(lib, o, lines[i..ParagraphEnd(lib, lines, i, i, quotes)], left);
  }

  lemma TableBlockReads(lib: Lib, o: Opts, lines: seq<string>, i: nat, quotes: bool, depth: nat, left: nat)
    requires i < |lines| && !Blank(lib, lines[i]) && KindOf(lib, lines, i, quotes) == TableLine
    ensures BlockIsRead(lib, o, lines, i, quotes, depth, left)
  {
    hide TableBlock, Rule, Heading, TableAt, TableStarts, Item, KindOf, PastTable, TableEnd;
    KindsAgree(lib, lines, i, quotes);
    TablesAgree(lib, lines, i);
    TableReads(lib, o, lines, i, left);
  }

  /** Every block is the one its line asks for. */
  lemma {:induction false} BlockReads(lib: Lib, o: Opts, lines: seq<string>, i: nat, quotes: bool, depth: nat,
                                      left: nat)
    requires i < |lines| && !Blank(lib, lines[i]) && KindOf(lib, lines, i, quotes) != BlankLine
    ensures BlockIsRead(lib, o, lines, i, quotes, depth, left)
    decreases Flag(quotes), |lines|, |lines| - i, 2
  {
    hide Blocks, Items, Rule, Heading, TableAt, Item, KindOf, RunEnd, QuoteEnd, Quoted, QuotedLines, StartAttribute,
      StartOf, PastItems, PastBlocks, Block, PastBlock, BlockIsRead;
    KindsAgree(lib, lines, i, quotes);
    match KindOf(lib, lines, i, quotes)
    case QuoteLine =>
      QuotedAre(lines, i, QuoteEnd(lines, i));
      BlocksRead(lib, o, QuotedLines(lines, i, QuoteEnd(lines, i)), 0, false, depth, left);
      QuoteReads(lib, o, lines, i, depth, left);
    case TableLine =>
      TableBlockReads(lib, o, lines, i, quotes, depth, left);
    case BulletLine =>
      ItemsRead(lib, o, lines, i, false, depth, left);
      ListReads(lib, o, lines, i, quotes, false, depth, left);
    case NumberLine =>
      ItemsRead(lib, o, lines, i, true, depth, left);
      ListReads(lib, o, lines, i, quotes, true, depth, left);
    case TextLine =>
      ParagraphReads(lib, o, lines, i, quotes, depth, left);
    case _ =>
      PlainBlockReads(lib, o, lines, i, quotes, depth, left);
  }

  lemma QuoteReads(lib: Lib, o: Opts, lines: seq<string>, i: nat, depth: nat, left: nat)
    requires i < |lines| && !Blank(lib, lines[i]) && KindOf(lib, lines, i, true) == QuoteLine
    requires var inner := QuotedLines(lines, i, QuoteEnd(lines, i));
      var (kids, l) := Blocks(lib, inner, 0, false, o, depth, left);
      inner == Quoted(lines, i, QuoteEnd(lines, i)) && PastBlocks(lib, o, kids, inner, 0, false, depth, left) == Some(l)
    ensures BlockIsRead(lib, o, lines, i, true, depth, left)
  {
    hide Blocks, Rule, Heading, TableAt, Item, KindOf, RunEnd, QuoteEnd, Quoted, QuotedLines, PastBlocks;
    KindsAgree(lib, lines, i, true);
    QuoteEndThere(lines, i);
  }

  lemma ListReads(lib: Lib, o: Opts, lines: seq<string>, i: nat, quotes: bool, ordered: bool, depth: nat, left: nat)
    requires i < |lines| && !Blank(lib, lines[i])
    requires KindOf(lib, lines, i, quotes) == if ordered then NumberLine else BulletLine
    requires var items := Items(lib, lines, i, ordered, o, depth, left);
      PastItems(lib, o, items.nodes, lines, i, ordered, depth, left) == Some((items.next, items.left))
    ensures BlockIsRead(lib, o, lines, i, quotes, depth, left)
  {
    hide Items, Rule, Heading, TableAt, Item, KindOf, StartAttribute, StartOf, PastItems;
    KindsAgree(lib, lines, i, quotes);
    StartsThere(lines[i]);
  }

  lemma HeadNames(level: nat)
    requires 1 <= level <= 6
    ensures ["", "h3", "h3", "h4", "h4", "h4", "h4"][level] == if level > 2 then "h4" else "h3"
  {
    assert level == 1 || level == 2 || level == 3 || level == 4 || level == 5 || level == 6;
  }

  lemma ParagraphStart(lib: Lib, lines: seq<string>, i: nat, quotes: bool)
    requires i < |lines| && !Blank(lib, lines[i])
    ensures ParagraphEnd(lib, lines, i, i, quotes) == TextEnd(lib, lines, i + 1, quotes)
  {
    ParagraphEndThere(lib, lines, i, i + 1, quotes);
  }

  /** The tree of a page is read back from its lines, block by block and line by line. */
  lemma {:induction false} BlocksRead(lib: Lib, o: Opts, lines: seq<string>, i: nat, quotes: bool, depth: nat,
                                      left: nat)
    ensures var (nodes, l) := Blocks(lib, lines, i, quotes, o, depth, left);
      PastBlocks(lib, o, nodes, lines, i, quotes, depth, left) == Some(l)
    decreases Flag(quotes), |lines|, if i < |lines| then |lines| - i else 0, 3
  {
    hide Block, PastBlock, KindOf, Rule, Heading, TableAt, Item;
    if i < |lines| {
      KindsAgree(lib, lines, i, quotes);
      if Blank(lib, lines[i]) {
        BlocksRead(lib, o, lines, i + 1, quotes, depth, left);
      } else {
        var b := Block(lib, lines, i, quotes, o, depth, left);
        var more := Blocks(lib, lines, b.next, quotes, o, depth, b.left).0;
        BlockReads(lib, o, lines, i, quotes, depth, left);
        BlocksRead(lib, o, lines, b.next, quotes, depth, b.left);
        assert (b.nodes + more)[0] == b.nodes[0] && (b.nodes + more)[1..] == more;
      }
    }
  }

  // ----- indentation -----

  predicate Spacing(s: string) {
    forall k :: 0 <= k < |s| ==> s[k] == ' ' || s[k] == '\t'
  }

  /** The lines without their first n bytes of white space; blank lines are empty. */
  predicate ShiftedBy(lib: Lib, out: seq<string>, lines: seq<string>, n: nat) {
    && |out| == |lines|
    && forall k :: 0 <= k < |lines| ==>
         if lib.trim(lines[k]) == "" then out[k] == ""
         else n <= |lines[k]| && Spacing(lines[k][..n]) && out[k] == lines[k][n..]
  }

  /** A line that is not blank and not indented. */
  predicate Flush(lib: Lib, line: string, out: string) {
    lib.trim(line) != "" && !(" " <= out) && !("\t" <= out)
  }

  /** Dedenting takes the same white space off every line, and so much that one line is flush. */
  lemma DedentMeans(lib: Lib, lines: seq<string>)
    ensures var out := Dedented(lib, lines);
      && (exists n :: 0 <= n && ShiftedBy(lib, out, lines, n))
      && ((exists k :: 0 <= k < |lines| && lib.trim(lines[k]) != "") ==>
            exists k :: 0 <= k < |lines| && Flush(lib, lines[k], out[k]))
  {
    var out, cut := Dedented(lib, lines), Cut(lib, lines);
    forall k | 0 <= k < |lines| && lib.trim(lines[k]) != ""
      ensures cut >= 0 && cut <= |lines[k]| && Spacing(lines[k][..cut]) && out[k] == lines[k][cut..]
    {
      IndentMeans(lines[k]);
    }
    assert ShiftedBy(lib, out, lines, if cut < 0 then 0 else cut);
    if cut >= 0 {
      var k := CutMet(lib, lines);
      IndentMeans(lines[k]);
      assert Flush(lib, lines[k], out[k]);
    }
  }

  lemma {:induction false} IndentMeans(line: string)
    ensures Spacing(line[..Indent(line)])
    ensures Indent(line) < |line| ==> line[Indent(line)] != ' ' && line[Indent(line)] != '\t'
  {
    if line != "" && (line[0] == ' ' || line[0] == '\t') {
      IndentMeans(line[1..]);
      assert line[..Indent(line)] == [line[0]] + line[1..][..Indent(line[1..])];
    }
  }

  lemma {:induction false} CutMet(lib: Lib, lines: seq<string>) returns (k: nat)
    requires Cut(lib, lines) >= 0
    ensures k < |lines| && lib.trim(lines[k]) != "" && Indent(lines[k]) == Cut(lib, lines)
    decreases |lines|
  {
    hide Indent;
    var init, last := lines[..|lines| - 1], lines[|lines| - 1];
    var cut := Cut(lib, init);
    if lib.trim(last) != "" && (cut < 0 || Indent(last) < cut) {
      k := |lines| - 1;
    } else {
      k := CutMet(lib, init);
    }
  }

  // ----- rows -----

  /** The parts with bars between them. */
  function Barred(parts: seq<string>): string
    requires |parts| > 0
  {
    if |parts| == 1 then parts[0] else parts[0] + "|" + Barred(parts[1..])
  }

  /** Every bar in s comes after a backslash. */
  predicate BarsEscaped(s: string) {
    forall k :: 0 <= k < |s| && s[k] == '|' ==> k > 0 && s[k - 1] == '\\'
  }

  /** The text is cut at exactly the bars that no backslash stands before. */
  predicate CutAtBars(parts: seq<string>, text: string) {
    && |parts| > 0 && Barred(parts) == text
    && (forall k :: 0 <= k < |parts| ==> BarsEscaped(parts[k]))
    && (forall k :: 0 <= k < |parts| - 1 ==> !EndsWith(parts[k], "\\"))
  }

  /** The cells of a row are the trimmed parts between its bars. */
  lemma CellsMean(lib: Lib, line: string)
    ensures var cells := Cells(lib, line);
      exists parts :: CutAtBars(parts, RowText(lib, line)) && |parts| == |cells|
                      && forall k :: 0 <= k < |cells| ==> cells[k] == Unescaped(lib.trim(parts[k]))
  {
    hide RowText;
    var text := RowText(lib, line);
    var parts := PartsOf(lib, text, 0, 0);
    assert text[0..] == text;
  }

  lemma {:induction false} PartsOf(lib: Lib, t: string, start: nat, j: nat) returns (parts: seq<string>)
    requires start <= j <= |t| && (start == 0 || t[start - 1] == '|')
    requires EscapedUpTo(t, start, j)
    ensures CutAtBars(parts, t[start..]) && |parts| == |CellsFrom(lib, t, start, j)|
    ensures forall k :: 0 <= k < |parts| ==> CellsFrom(lib, t, start, j)[k] == Unescaped(lib.trim(parts[k]))
    decreases |t| - j
  {
    hide Unescaped, CutAtBars, BarsEscaped, EndsWith, EscapedUpTo;
    EscapedMore(t, start, j);
    PartEscaped(t, start, j);
    if j == |t| {
      assert t[start..j] == t[start..];
      parts := [t[start..]];
      OnePart(t[start..]);
    } else if t[j] == '|' && (j == 0 || t[j - 1] != '\\') {
      var more := PartsOf(lib, t, j + 1, j + 1);
      parts := [t[start..j]] + more;
      MoreParts(t[start..j], more, t[j + 1..]);
      assert t[start..] == t[start..j] + "|" + t[j + 1..];
    } else {
      parts := PartsOf(lib, t, start, j + 1);
    }
  }

  predicate EscapedUpTo(t: string, start: nat, j: nat)
    requires start <= j <= |t|
  {
    forall k :: start <= k < j && t[k] == '|' ==> k > 0 && t[k - 1] == '\\'
  }

  lemma EscapedMore(t: string, start: nat, j: nat)
    requires start <= j <= |t| && EscapedUpTo(t, start, j)
    ensures j < |t| ==> EscapedUpTo(t, j + 1, j + 1)
    ensures j < |t| && !(t[j] == '|' && (j == 0 || t[j - 1] != '\\')) ==> EscapedUpTo(t, start, j + 1)
  {
  }

  lemma PartEscaped(t: string, start: nat, j: nat)
    requires start <= j <= |t| && (start == 0 || t[start - 1] == '|')
    requires EscapedUpTo(t, start, j)
    ensures BarsEscaped(t[start..j]) && (j == 0 || t[j - 1] != '\\' ==> !EndsWith(t[start..j], "\\"))
  {
    var part := t[start..j];
    forall k | 0 <= k < |part| && part[k] == '|'
      ensures k > 0 && part[k - 1] == '\\'
    {
      assert t[start + k] == '|';
    }
    if start < j {
      assert part[|part| - 1] == t[j - 1];
    }
  }

  lemma OnePart(part: string)
    requires BarsEscaped(part)
    ensures CutAtBars([part], part)
  {
    hide BarsEscaped;
  }

  lemma MoreParts(part: string, more: seq<string>, rest: string)
    requires CutAtBars(more, rest) && BarsEscaped(part) && !EndsWith(part, "\\")
    ensures CutAtBars([part] + more, part + "|" + rest)
  {
    hide BarsEscaped, EndsWith;
    var parts := [part] + more;
    assert parts[1..] == more;
    forall k | 0 <= k < |parts|
      ensures BarsEscaped(parts[k]) && (k < |parts| - 1 ==> !EndsWith(parts[k], "\\"))
    {
      if k > 0 {
        assert parts[k] == more[k - 1];
      }
    }
  }

  lemma Endings(s: string)
    ensures EndsWith(s, "|") <==> |s| > 0 && s[|s| - 1] == '|'
    ensures EndsWith(s, "\\") <==> |s| > 0 && s[|s| - 1] == '\\'
    ensures EndsWith(s, "\\|") <==> |s| > 1 && s[|s| - 2] == '\\' && s[|s| - 1] == '|'
  {
  }

  /** The row stands in its line between white space and up to two bars, which are not cells. */
  lemma RowTextMeans(lib: Lib, line: string)
    ensures var t, row := lib.trim(line), RowText(lib, line);
      var lead := if "|" <= t then "|" else "";
      || (t == lead + row && (EndsWith(row, "|") ==> EndsWith(row, "\\|")))
      || (t == lead + row + "|" && !EndsWith(row, "\\"))
  {
    hide EndsWith;
    var t, row := lib.trim(line), RowText(lib, line);
    var lead := if "|" <= t then "|" else "";
    var u := if "|" <= t then t[1..] else t;
    assert t == lead + u;
    Endings(u);
    Endings(row);
    if EndsWith(u, "|") && !EndsWith(u, "\\|") {
      assert row == u[..|u| - 1] && u == row + "|";
      assert lead + u == lead + row + "|";
    }
  }

  /** A text with a backslash before every bar. */
  function BackslashedBars(s: string): string {
    if s == "" then "" else (if s[0] == '|' then "\\|" else [s[0]]) + BackslashedBars(s[1..])
  }

  /** The backslashes before bars are taken off, and no others. */
  lemma {:induction false} BackslashesGo(s: string)
    ensures Unescaped(BackslashedBars(s)) == s && !("|" <= BackslashedBars(s))
  {
    if s != "" {
      var more := BackslashedBars(s[1..]);
      BackslashesGo(s[1..]);
      if s[0] == '|' {
        assert ("\\|" + more)[2..] == more;
      } else {
        assert ([s[0]] + more)[1..] == more;
        assert "\\|" <= [s[0]] + more ==> "|" <= more;
      }
    }
  }
}
