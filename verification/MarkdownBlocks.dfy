/** Block structure: headings, quotes, lists, tables and paragraphs over a list of lines. The
    functions give the tree, the methods write its text in the order of the source. */
module MarkdownBlocks {
  import opened Basics
  import opened Html
  import opened MarkdownInline

  const MAX_PATHS := 50
  const MAX_LIST_DEPTH := 6

  // ----- lines -----

  predicate Blank(lib: Lib, line: string) {
    lib.trim(line) == ""
  }

  predicate Fence(lib: Lib, line: string) {
    "```" <= lib.trim(line)
  }

  function WithoutSpaces(s: string): string {
    if s == "" then "" else (if s[0] == ' ' then "" else [s[0]]) + WithoutSpaces(s[1..])
  }

  predicate Rule(lib: Lib, line: string) {
    var t := WithoutSpaces(lib.trim(line));
    |t| >= 3 && (forall k :: 0 <= k < |t| ==> t[k] == t[0]) && Among(t[0], "-*_")
  }

  function Hashes(line: string, n: nat): (k: nat)
    requires n <= |line| && n <= 7
    ensures n <= k <= |line| && k <= 7
    decreases 7 - n
  {
    if n < |line| && n < 7 && line[n] == '#' then Hashes(line, n + 1) else n
  }

  function Heading(line: string): (n: nat)
    ensures n <= |line|
  {
    var n := Hashes(line, 0);
    if n == 0 || n > 6 || n == |line| || line[n] != ' ' then 0 else n
  }

  function Item(line: string, ordered: bool): (rest: string)
    ensures |rest| <= |line|
  {
    if !ordered then
      if "- " <= line || "* " <= line then line[2..] else ""
    else
      var n := Digits(line, 0);
      if n > 0 && ". " <= line[n..] then line[n + 2..] else ""
  }

  datatype TaskItem = NoTask | Task(style: string, caption: string, rest: string)

  function TaskOf(text: string): TaskItem {
    if |text| < 4 || text[0] != '[' || text[2] != ']' || text[3] != ' ' then NoTask
    else if text[1] == ' ' then Task("task", "to do: ", text[4..])
    else if text[1] == 'x' || text[1] == 'X' then Task("task done", "done: ", text[4..])
    else NoTask
  }

  // ----- tables -----

  function Unescaped(s: string): string {
    if s == "" then ""
    else if "\\|" <= s then "|" + Unescaped(s[2..])
    else [s[0]] + Unescaped(s[1..])
  }

  /** The cells of t from byte `start` on, with the scan at byte j. */
  function CellsFrom(lib: Lib, t: string, start: nat, j: nat): (cells: seq<string>)
    requires start <= j <= |t|
    ensures |cells| > 0
    decreases |t| - j
  {
    if j == |t| then [Unescaped(lib.trim(t[start..]))]
    else if t[j] == '|' && (j == 0 || t[j - 1] != '\\') then
      [Unescaped(lib.trim(t[start..j]))] + CellsFrom(lib, t, j + 1, j + 1)
    else CellsFrom(lib, t, start, j + 1)
  }

  function RowText(lib: Lib, line: string): string {
    var t := lib.trim(line);
    var u := if "|" <= t then t[1..] else t;
    if EndsWith(u, "|") && !EndsWith(u, "\\|") then u[..|u| - 1] else u
  }

  function Cells(lib: Lib, line: string): (cells: seq<string>)
    ensures |cells| > 0
  {
    CellsFrom(lib, RowText(lib, line), 0, 0)
  }

  predicate OnlyDashes(s: string) {
    s != "" && forall k :: 0 <= k < |s| ==> s[k] == '-'
  }

  /** ^:?-+:?$ */
  predicate AlignCell(d: string) {
    var a := if ":" <= d then d[1..] else d;
    var b := if EndsWith(a, ":") then a[..|a| - 1] else a;
    OnlyDashes(b)
  }

  predicate AlignCells(delims: seq<string>) {
    forall k :: 0 <= k < |delims| ==> AlignCell(delims[k])
  }

  predicate TableAt(lib: Lib, lines: seq<string>, i: nat)
    requires i < |lines|
  {
    && i + 1 < |lines| && Index(lines[i], "|") >= 0
    && AlignCells(Cells(lib, lines[i + 1]))
    && |Cells(lib, lines[i + 1])| == |Cells(lib, lines[i])|
  }

  predicate RowAt(lib: Lib, lines: seq<string>, i: nat) {
    i < |lines| && !Blank(lib, lines[i]) && Index(lines[i], "|") >= 0 && !Fence(lib, lines[i])
  }

  /** A row cut or padded to the width of the head. */
  function Row(lib: Lib, line: string, width: nat): (row: seq<string>)
    ensures |row| == width
  {
    var cells := Cells(lib, line);
    if |cells| >= width then cells[..width] else cells + seq(width - |cells|, _ => "")
  }

  function Rows(lib: Lib, lines: seq<string>, i: nat, width: nat): (rows: seq<seq<string>>)
    ensures forall k :: 0 <= k < |rows| ==> |rows[k]| == width
    decreases |lines| - i
  {
    if RowAt(lib, lines, i) then [Row(lib, lines[i], width)] + Rows(lib, lines, i + 1, width) else []
  }

  function RowsEnd(lib: Lib, lines: seq<string>, i: nat): (j: nat)
    requires i <= |lines|
    ensures i <= j <= |lines|
    decreases |lines| - i
  {
    if RowAt(lib, lines, i) then RowsEnd(lib, lines, i + 1) else i
  }

  predicate NumericColumn(lib: Lib, rows: seq<seq<string>>, k: nat)
    requires forall r :: 0 <= r < |rows| ==> k < |rows[r]|
  {
    && (forall r :: 0 <= r < |rows| && rows[r][k] != "" ==> lib.numeric(rows[r][k]))
    && (exists r :: 0 <= r < |rows| && rows[r][k] != "")
  }

  function ColumnClass(lib: Lib, d: string, rows: seq<seq<string>>, k: nat): string
    requires forall r :: 0 <= r < |rows| ==> k < |rows[r]|
  {
    if ":" <= d && EndsWith(d, ":") then "c"
    else if EndsWith(d, ":") then "r"
    else if ":" <= d then "l"
    else if NumericColumn(lib, rows, k) then "r"
    else ""
  }

  function Classes(lib: Lib, delims: seq<string>, rows: seq<seq<string>>): (classes: seq<string>)
    requires forall r :: 0 <= r < |rows| ==> |rows[r]| == |delims|
    ensures |classes| == |delims|
  {
    seq(|delims|, k requires 0 <= k < |delims| && (forall r :: 0 <= r < |rows| ==> |rows[r]| == |delims|) =>
      ColumnClass(lib, delims[k], rows, k))
  }

  // ----- trees -----

  /** Nodes, the next line and the path budget left. */
  datatype Out = Out(nodes: seq<Node>, next: nat, left: nat)

  function ClassAttribute(style: string): seq<Attribute> {
    if style == "" then [] else [Attribute("class", style)]
  }

  function CellNodes(lib: Lib, tag: string, classes: seq<string>, cells: seq<string>, k: nat, o: Opts, left: nat)
    : (r: (seq<Node>, nat))
    requires |classes| == |cells| && k <= |cells|
    decreases |cells| - k
  {
    if k == |cells| then ([], left)
    else
      var (kids, l) := PlainInline(lib, cells[k], 0, true, o, left);
      var (more, l') := CellNodes(lib, tag, classes, cells, k + 1, o, l);
      ([Element(tag, ClassAttribute(classes[k]), kids)] + more, l')
  }

  function RowNodes(lib: Lib, classes: seq<string>, rows: seq<seq<string>>, r: nat, o: Opts, left: nat)
    : (out: (seq<Node>, nat))
    requires r <= |rows| && forall j :: 0 <= j < |rows| ==> |rows[j]| == |classes|
    decreases |rows| - r
  {
    if r == |rows| then ([], left)
    else
      var (cells, l) := CellNodes(lib, "td", classes, rows[r], 0, o, left);
      var (more, l') := RowNodes(lib, classes, rows, r + 1, o, l);
      ([Element("tr", [], cells)] + more, l')
  }

  const TABLE_BOX: seq<Attribute> :=
    [Attribute("class", "table"), Attribute("role", "region"), Attribute("aria-label", "Table"),
     Attribute("tabindex", "0")]

  function TableBlock(lib: Lib, lines: seq<string>, i: nat, o: Opts, left: nat): (out: Out)
    requires i < |lines| && TableAt(lib, lines, i)
    ensures i < out.next <= |lines|
  {
    var head, rows := Cells(lib, lines[i]), Rows(lib, lines, i + 2, |Cells(lib, lines[i])|);
    var classes := Classes(lib, Cells(lib, lines[i + 1]), rows);
    var (heads, l) := CellNodes(lib, "th", classes, head, 0, o, left);
    var (body, l') := RowNodes(lib, classes, rows, 0, o, l);
    Out([Element("div", TABLE_BOX, [Element("table", [],
           [Element("thead", [], [Element("tr", [], heads)]), Element("tbody", [], body)])])],
        RowsEnd(lib, lines, i + 2), l')
  }

  /** The lines of a paragraph, separated by line breaks. */
  function Joined(lib: Lib, parts: seq<string>, o: Opts, left: nat): (r: (seq<Node>, nat))
  {
    if parts == [] then ([], left)
    else
      var (first, l) := PlainInline(lib, parts[0], 0, true, o, left);
      var (more, l') := Joined(lib, parts[1..], o, l);
      (first + (if |parts| > 1 then [Void("br", [])] else []) + more, l')
  }

  predicate Starts(lib: Lib, lines: seq<string>, i: nat, quotes: bool)
    requires i < |lines|
  {
    var line := lines[i];
    Fence(lib, line) || Rule(lib, line) || Heading(line) > 0 || (quotes && ">" <= line) || TableAt(lib, lines, i)
    || Item(line, false) != "" || Item(line, true) != ""
  }

  /** Where the paragraph that starts at line `from` ends, with the scan at line i. */
  function ParagraphEnd(lib: Lib, lines: seq<string>, from: nat, i: nat, quotes: bool): (j: nat)
    requires from <= i <= |lines|
    ensures i <= j <= |lines|
    ensures from < |lines| && !Blank(lib, lines[from]) && i == from ==> j > from
    decreases |lines| - i
  {
    if i < |lines| && !Blank(lib, lines[i]) && (i == from || !Starts(lib, lines, i, quotes))
    then ParagraphEnd(lib, lines, from, i + 1, quotes) else i
  }

  function FenceEnd(lib: Lib, lines: seq<string>, j: nat): (k: nat)
    requires j <= |lines|
    ensures j <= k <= |lines|
    decreases |lines| - j
  {
    if j < |lines| && !Fence(lib, lines[j]) then FenceEnd(lib, lines, j + 1) else j
  }

  function QuoteEnd(lines: seq<string>, j: nat): (k: nat)
    requires j <= |lines|
    ensures j <= k <= |lines|
    ensures forall x :: j <= x < k ==> ">" <= lines[x]
    decreases |lines| - j
  {
    if j < |lines| && ">" <= lines[j] then QuoteEnd(lines, j + 1) else j
  }

  function Unquoted(line: string): string
    requires ">" <= line
  {
    if " " <= line[1..] then line[2..] else line[1..]
  }

  function Quoted(lines: seq<string>, from: nat, to: nat): (inner: seq<string>)
    requires from <= to <= |lines| && forall x :: from <= x < to ==> ">" <= lines[x]
    ensures |inner| == to - from
  {
    seq(to - from, k requires 0 <= k < to - from && to <= |lines| && (forall x :: from <= x < to ==> ">" <= lines[x]) =>
      Unquoted(lines[from + k]))
  }

  function JoinLines(lines: seq<string>): string {
    if lines == [] then "" else if |lines| == 1 then lines[0] else lines[0] + "\n" + JoinLines(lines[1..])
  }

  // ----- lists -----

  function Indent(line: string): (n: nat)
    ensures n <= |line|
  {
    if line != "" && (line[0] == ' ' || line[0] == '\t') then 1 + Indent(line[1..]) else 0
  }

  /** The least indentation of the lines that are not blank; -1 when all are. */
  function Cut(lib: Lib, lines: seq<string>): (cut: int)
    ensures cut >= -1
    ensures forall k :: 0 <= k < |lines| && !Blank(lib, lines[k]) ==> 0 <= cut <= Indent(lines[k])
  {
    if lines == [] then -1
    else
      var cut, last := Cut(lib, lines[..|lines| - 1]), lines[|lines| - 1];
      if !Blank(lib, last) && (cut < 0 || Indent(last) < cut) then Indent(last) else cut
  }

  function Dedented(lib: Lib, lines: seq<string>): (out: seq<string>)
    ensures |out| == |lines|
  {
    var cut := Cut(lib, lines);
    seq(|lines|, k requires 0 <= k < |lines| && cut == Cut(lib, lines) =>
      if Blank(lib, lines[k]) then "" else lines[k][cut..])
  }

  predicate Continues(lib: Lib, line: string) {
    Blank(lib, line) || (line != "" && (line[0] == ' ' || line[0] == '\t'))
  }

  function ItemEnd(lib: Lib, lines: seq<string>, j: nat): (k: nat)
    requires j <= |lines|
    ensures j <= k <= |lines|
    decreases |lines| - j
  {
    if j < |lines| && Continues(lib, lines[j]) then ItemEnd(lib, lines, j + 1) else j
  }

  function NonBlank(lib: Lib, lines: seq<string>): (out: seq<string>)
    ensures |out| <= |lines|
  {
    if lines == [] then []
    else NonBlank(lib, lines[..|lines| - 1]) + (if Blank(lib, lines[|lines| - 1]) then [] else [lines[|lines| - 1]])
  }

  function FlatNodes(lib: Lib, lines: seq<string>, o: Opts, left: nat): (r: (seq<Node>, nat)) {
    var parts := NonBlank(lib, lines);
    var (kids, l) := Joined(lib, parts, o, left);
    (if parts == [] then [] else [Element("p", [], kids)], l)
  }

  function StartAttribute(line: string, ordered: bool): seq<Attribute> {
    var n := Value(line[..Digits(line, 0)]);
    if ordered && n < 0x8000_0000 && n != 1 then [Attribute("start", Decimal(n))] else []
  }

  function ItemHead(lib: Lib, text: string, o: Opts, left: nat): (r: (seq<Attribute>, seq<Node>, nat)) {
    var task := TaskOf(text);
    if o.doc && task.Task? then
      var (kids, l) := PlainInline(lib, task.rest, 0, true, o, left);
      ([Attribute("class", task.style)], [Element("span", [Attribute("class", "sr")], [Text(task.caption)])] + kids, l)
    else
      var (kids, l) := PlainInline(lib, text, 0, true, o, left);
      ([], kids, l)
  }

  function Items(lib: Lib, lines: seq<string>, i: nat, ordered: bool, o: Opts, depth: nat, left: nat): (out: Out)
    requires i <= |lines|
    ensures i <= out.next <= |lines|
    ensures i < |lines| && Item(lines[i], ordered) != "" ==> i < out.next
    decreases 0, |lines|, |lines| - i, 1
  {
    if i == |lines| || Item(lines[i], ordered) == "" then Out([], i, left)
    else
      var (attrs, head, l) := ItemHead(lib, Item(lines[i], ordered), o, left);
      var j := ItemEnd(lib, lines, i + 1);
      var inner := Dedented(lib, lines[i + 1..j]);
      var (kids, l') :=
        if depth + 1 < MAX_LIST_DEPTH then Blocks(lib, inner, 0, false, o, depth + 1, l)
        else FlatNodes(lib, inner, o, l);
      var more := Items(lib, lines, j, ordered, o, depth, l');
      Out([Element("li", attrs, head + kids)] + more.nodes, more.next, more.left)
  }

  // ----- blocks -----

  function Flag(b: bool): nat {
    if b then 1 else 0
  }

  /** One block at line i, which is not blank. */
  function Block(lib: Lib, lines: seq<string>, i: nat, quotes: bool, o: Opts, depth: nat, left: nat): (out: Out)
    requires i < |lines| && !Blank(lib, lines[i])
    ensures i < out.next <= |lines| + 1
    decreases Flag(quotes), |lines|, |lines| - i, 2
  {
    var line := lines[i];
    if Fence(lib, line) then
      var j := FenceEnd(lib, lines, i + 1);
      Out([Element("pre", [], [Element("code", [], [Text(JoinLines(lines[i + 1..j]))])])], j + 1, left)
    else if Rule(lib, line) then Out([Void("hr", [])], i + 1, left)
    else if Heading(line) > 0 then
      var (kids, l) := PlainInline(lib, lib.trim(line[Heading(line)..]), 0, true, o, left);
      Out([Element(if Heading(line) > 2 then "h4" else "h3", [], kids)], i + 1, l)
    else if quotes && ">" <= line then
      var j := QuoteEnd(lines, i);
      var (kids, l) := Blocks(lib, Quoted(lines, i, j), 0, false, o, depth, left);
      Out([Element("blockquote", [], kids)], j, l)
    else if TableAt(lib, lines, i) then TableBlock(lib, lines, i, o, left)
    else if Item(line, false) != "" then
      var items := Items(lib, lines, i, false, o, depth, left);
      Out([Element("ul", [], items.nodes)], items.next, items.left)
    else if Item(line, true) != "" then
      var items := Items(lib, lines, i, true, o, depth, left);
      Out([Element("ol", StartAttribute(line, true), items.nodes)], items.next, items.left)
    else
      var j := ParagraphEnd(lib, lines, i, i, quotes);
      var (kids, l) := Joined(lib, lines[i..j], o, left);
      Out([Element("p", [], kids)], j, l)
  }

  /** The blocks from line i on. Quotes open only at the top level and lists cap their depth; the
      measure is the quotes flag, then the number of lines, then the lines left. */
  function Blocks(lib: Lib, lines: seq<string>, i: nat, quotes: bool, o: Opts, depth: nat, left: nat)
    : (r: (seq<Node>, nat))
    decreases Flag(quotes), |lines|, if i < |lines| then |lines| - i else 0, 3
  {
    if i >= |lines| then ([], left)
    else if Blank(lib, lines[i]) then Blocks(lib, lines, i + 1, quotes, o, depth, left)
    else
      var b := Block(lib, lines, i, quotes, o, depth, left);
      var (more, l) := Blocks(lib, lines, b.next, quotes, o, depth, b.left);
      (b.nodes + more, l)
  }

  // ----- the loops of the source -----

  method CutCells(lib: Lib, line: string) returns (cells: seq<string>)
    ensures cells == Cells(lib, line)
  {
    var t := RowText(lib, line);
    cells := [];
    var start, j := 0, 0;
    while j < |t|
      invariant 0 <= start <= j <= |t|
      invariant cells + CellsFrom(lib, t, start, j) == Cells(lib, line)
    {
      if t[j] == '|' && (j == 0 || t[j - 1] != '\\') {
        cells := cells + [Unescaped(lib.trim(t[start..j]))];
        start := j + 1;
      }
      j := j + 1;
    }
    cells := cells + [Unescaped(lib.trim(t[start..]))];
  }

  method Dedent(lib: Lib, lines: seq<string>) returns (out: seq<string>)
    ensures out == Dedented(lib, lines)
  {
    var cut := -1;
    for k := 0 to |lines|
      invariant cut == Cut(lib, lines[..k])
    {
      assert lines[..k + 1][..k] == lines[..k];
      if !Blank(lib, lines[k]) {
        var n := Indent(lines[k]);
        if cut < 0 || n < cut {
          cut := n;
        }
      }
    }
    assert lines[..|lines|] == lines;
    out := seq(|lines|, _ => "");
    for k := 0 to |lines|
      invariant |out| == |lines|
      invariant forall x :: 0 <= x < k ==> out[x] == Dedented(lib, lines)[x]
      invariant forall x :: k <= x < |lines| ==> out[x] == ""
    {
      if !Blank(lib, lines[k]) {
        out := out[k := lines[k][cut..]];
      }
    }
  }

  method WriteCells(lib: Lib, tag: string, classes: seq<string>, cells: seq<string>, o: Opts, left: nat)
    returns (out: string, l: nat)
    requires |classes| == |cells|
    ensures out == Print(CellNodes(lib, tag, classes, cells, 0, o, left).0)
      && l == CellNodes(lib, tag, classes, cells, 0, o, left).1
  {
    hide PlainInline, Print, OpenTag, CloseTag;
    PrintNothing();
    out, l := "", left;
    ghost var all := CellNodes(lib, tag, classes, cells, 0, o, left);
    for k := 0 to |cells|
      invariant Print(all.0) == out + Print(CellNodes(lib, tag, classes, cells, k, o, l).0)
      invariant all.1 == CellNodes(lib, tag, classes, cells, k, o, l).1
    {
      ghost var (kids, l0) := PlainInline(lib, cells[k], 0, true, o, l);
      PrintElement(tag, ClassAttribute(classes[k]), kids);
      PrintConcat([Element(tag, ClassAttribute(classes[k]), kids)],
        CellNodes(lib, tag, classes, cells, k + 1, o, l0).0);
      var text;
      text, l := Inline(lib, cells[k], true, o, l);
      out := out + (OpenTag(tag, ClassAttribute(classes[k])) + text + CloseTag(tag));
    }
  }

  method WriteRows(lib: Lib, classes: seq<string>, rows: seq<seq<string>>, o: Opts, left: nat)
    returns (out: string, l: nat)
    requires forall j :: 0 <= j < |rows| ==> |rows[j]| == |classes|
    ensures out == Print(RowNodes(lib, classes, rows, 0, o, left).0) && l == RowNodes(lib, classes, rows, 0, o, left).1
  {
    hide CellNodes, Print, OpenTag, CloseTag;
    PrintNothing();
    out, l := "", left;
    ghost var all := RowNodes(lib, classes, rows, 0, o, left);
    for r := 0 to |rows|
      invariant Print(all.0) == out + Print(RowNodes(lib, classes, rows, r, o, l).0)
      invariant all.1 == RowNodes(lib, classes, rows, r, o, l).1
    {
      ghost var (cells, l0) := CellNodes(lib, "td", classes, rows[r], 0, o, l);
      PrintElement("tr", [], cells);
      PrintConcat([Element("tr", [], cells)], RowNodes(lib, classes, rows, r + 1, o, l0).0);
      var text;
      text, l := WriteCells(lib, "td", classes, rows[r], o, l);
      out := out + (OpenTag("tr", []) + text + CloseTag("tr"));
    }
  }

  method CollectRows(lib: Lib, lines: seq<string>, i: nat, width: nat) returns (rows: seq<seq<string>>, next: nat)
    requires i <= |lines|
    ensures rows == Rows(lib, lines, i, width) && next == RowsEnd(lib, lines, i)
  {
    hide Row, RowText, CellsFrom;
    rows, next := [], i;
    while next < |lines| && !Blank(lib, lines[next]) && Index(lines[next], "|") >= 0 && !Fence(lib, lines[next])
      invariant i <= next <= |lines|
      invariant rows + Rows(lib, lines, next, width) == Rows(lib, lines, i, width)
      invariant RowsEnd(lib, lines, next) == RowsEnd(lib, lines, i)
    {
      var row := CutRow(lib, lines[next], width);
      rows := rows + [row];
      next := next + 1;
    }
  }

  method CutRow(lib: Lib, line: string, width: nat) returns (row: seq<string>)
    ensures row == Row(lib, line, width)
  {
    row := CutCells(lib, line);
    ghost var cells := row;
    while |row| < width
      invariant |cells| <= |row| && row[..|cells|] == cells
      invariant forall k :: |cells| <= k < |row| ==> row[k] == ""
      invariant |row| <= width || row == cells
    {
      row := row + [""];
    }
    row := row[..width];
  }

  method WriteTable(lib: Lib, lines: seq<string>, i: nat, o: Opts, left: nat) returns (out: string, next: nat, l: nat)
    requires i < |lines| && TableAt(lib, lines, i)
    ensures var b := TableBlock(lib, lines, i, o, left); out == Print(b.nodes) && next == b.next && l == b.left
  {
    hide CellNodes, RowNodes, Print, OpenTag, CloseTag, Cells, Rows, RowsEnd;
    var head := CutCells(lib, lines[i]);
    var delims := CutCells(lib, lines[i + 1]);
    var rows;
    rows, next := CollectRows(lib, lines, i + 2, |head|);
    var classes := Classes(lib, delims, rows);
    var heads, body, middle;
    heads, middle := WriteCells(lib, "th", classes, head, o, left);
    body, l := WriteRows(lib, classes, rows, o, middle);
    out := OpenTag("div", TABLE_BOX) + OpenTag("table", []) + OpenTag("thead", []) + OpenTag("tr", []) + heads
      + CloseTag("tr") + CloseTag("thead") + OpenTag("tbody", []) + body + CloseTag("tbody") + CloseTag("table")
      + CloseTag("div");
    ghost var headNodes := CellNodes(lib, "th", classes, head, 0, o, left).0;
    PrintTable(headNodes, RowNodes(lib, classes, rows, 0, o, middle).0);
  }

  lemma PrintTable(heads: seq<Node>, body: seq<Node>)
    ensures Print([Element("div", TABLE_BOX, [Element("table", [],
        [Element("thead", [], [Element("tr", [], heads)]), Element("tbody", [], body)])])]) ==
      OpenTag("div", TABLE_BOX) + OpenTag("table", []) + OpenTag("thead", []) + OpenTag("tr", []) + Print(heads)
      + CloseTag("tr") + CloseTag("thead") + OpenTag("tbody", []) + Print(body) + CloseTag("tbody") + CloseTag("table")
      + CloseTag("div")
  {
    hide OpenTag, CloseTag, Print, TABLE_BOX;
    var thead, tbody := Element("thead", [], [Element("tr", [], heads)]), Element("tbody", [], body);
    PrintElement("tr", [], heads);
    PrintElement("thead", [], [Element("tr", [], heads)]);
    PrintElement("tbody", [], body);
    PrintConcat([thead], [tbody]);
    PrintElement("table", [], [thead] + [tbody]);
    PrintElement("div", TABLE_BOX, [Element("table", [], [thead] + [tbody])]);
    assert [thead] + [tbody] == [thead, tbody];
  }

  /** The text of a paragraph whose first `done` lines are written. */
  ghost predicate Writing(lib: Lib, parts: seq<string>, o: Opts, left: nat, done: nat, out: string, l: nat)
    requires done <= |parts|
  {
    && Print(Joined(lib, parts, o, left).0) ==
         out + (if 0 < done < |parts| then OpenTag("br", []) else "") + Print(Joined(lib, parts[done..], o, l).0)
    && Joined(lib, parts, o, left).1 == Joined(lib, parts[done..], o, l).1
  }

  lemma WritingStarts(lib: Lib, parts: seq<string>, o: Opts, left: nat)
    ensures Writing(lib, parts, o, left, 0, "", left)
  {
    hide Joined;
    assert parts[0..] == parts;
    assert "" + "" + Print(Joined(lib, parts, o, left).0) == Print(Joined(lib, parts, o, left).0);
  }

  lemma WritingEnds(lib: Lib, parts: seq<string>, o: Opts, left: nat, out: string, l: nat)
    requires Writing(lib, parts, o, left, |parts|, out, l)
    ensures out == Print(Joined(lib, parts, o, left).0) && l == Joined(lib, parts, o, left).1
  {
    assert parts[|parts|..] == [];
  }

  lemma WritingGoesOn(lib: Lib, parts: seq<string>, o: Opts, left: nat, done: nat, out: string, l: nat)
    requires done < |parts| && Writing(lib, parts, o, left, done, out, l)
    ensures var (kids, l') := PlainInline(lib, parts[done], 0, true, o, l);
      Writing(lib, parts, o, left, done + 1, out + (if done > 0 then OpenTag("br", []) else "") + Print(kids), l')
  {
    hide PlainInline, Print, OpenTag;
    var rest := parts[done..];
    var (kids, l') := PlainInline(lib, parts[done], 0, true, o, l);
    var more := Joined(lib, parts[done + 1..], o, l').0;
    assert rest[1..] == parts[done + 1..];
    PrintVoid("br");
    PrintNothing();
    PrintConcat(kids, if |rest| > 1 then [Void("br", [])] else []);
    PrintConcat(kids + if |rest| > 1 then [Void("br", [])] else [], more);
  }

  lemma PrintVoid(name: string)
    ensures Print([Void(name, [])]) == OpenTag(name, [])
  {
    PrintOne(Void(name, []));
  }

  method WriteParagraph(lib: Lib, lines: seq<string>, i: nat, quotes: bool, o: Opts, left: nat)
    returns (out: string, next: nat, l: nat)
    requires i < |lines| && !Blank(lib, lines[i])
    ensures next == ParagraphEnd(lib, lines, i, i, quotes)
    ensures out == Print(Joined(lib, lines[i..next], o, left).0) && l == Joined(lib, lines[i..next], o, left).1
  {
    hide Joined, Writing, Starts, PlainInline, Print;
    ghost var end := ParagraphEnd(lib, lines, i, i, quotes);
    ghost var parts := lines[i..end];
    WritingStarts(lib, parts, o, left);
    out, next, l := "", i, left;
    while next < |lines| && !Blank(lib, lines[next]) && (next == i || !Starts(lib, lines, next, quotes))
      invariant i <= next <= end <= |lines|
      invariant ParagraphEnd(lib, lines, i, next, quotes) == end
      invariant Writing(lib, parts, o, left, next - i, out, l)
    {
      assert parts[next - i] == lines[next];
      WritingGoesOn(lib, parts, o, left, next - i, out, l);
      var text;
      out := out + (if next > i then OpenTag("br", []) else "");
      text, l := Inline(lib, lines[next], true, o, l);
      out := out + text;
      next := next + 1;
    }
    WritingEnds(lib, parts, o, left, out, l);
  }

  lemma {:induction false} NonBlankPrefix(lib: Lib, lines: seq<string>, k: nat)
    requires k <= |lines|
    ensures NonBlank(lib, lines[..k]) <= NonBlank(lib, lines)
  {
    if k == |lines| {
      assert lines[..k] == lines;
    } else {
      NonBlankPrefix(lib, lines[..|lines| - 1], k);
      assert lines[..|lines| - 1][..k] == lines[..k];
    }
  }

  method WriteFlat(lib: Lib, lines: seq<string>, o: Opts, left: nat) returns (out: string, l: nat)
    ensures out == Print(FlatNodes(lib, lines, o, left).0) && l == FlatNodes(lib, lines, o, left).1
  {
    hide Joined, Writing, PlainInline, Print, OpenTag, CloseTag;
    ghost var all := NonBlank(lib, lines);
    WritingStarts(lib, all, o, left);
    out, l := "", left;
    var count := 0;
    for k := 0 to |lines|
      invariant count == |NonBlank(lib, lines[..k])| <= |all|
      invariant Writing(lib, all, o, left, count, out, l)
    {
      assert lines[..k + 1][..k] == lines[..k];
      NonBlankPrefix(lib, lines, k + 1);
      if !Blank(lib, lines[k]) {
        assert all[count] == lines[k];
        WritingGoesOn(lib, all, o, left, count, out, l);
        var text;
        out := out + (if count > 0 then OpenTag("br", []) else "");
        text, l := Inline(lib, lines[k], true, o, l);
        out := out + text;
        count := count + 1;
      }
    }
    assert lines[..|lines|] == lines;
    WritingEnds(lib, all, o, left, out, l);
    PrintNothing();
    PrintElement("p", [], Joined(lib, all, o, left).0);
    if count > 0 {
      out := OpenTag("p", []) + out + CloseTag("p");
    } else {
      NoParts(lib, o, left);
    }
  }

  lemma NoParts(lib: Lib, o: Opts, left: nat)
    ensures Joined(lib, [], o, left) == ([], left)
  {
  }

  method WriteItemHead(lib: Lib, text: string, o: Opts, left: nat) returns (out: string, l: nat)
    ensures var (attrs, nodes, l') := ItemHead(lib, text, o, left);
      out == OpenTag("li", attrs) + Print(nodes) && l == l'
  {
    hide PlainInline, Print, OpenTag, CloseTag;
    var task := TaskOf(text);
    if o.doc && task.Task? {
      var kids;
      kids, l := Inline(lib, task.rest, true, o, left);
      var span := [Attribute("class", "sr")];
      PrintElement("span", span, [Text(task.caption)]);
      PrintText(task.caption);
      PrintConcat([Element("span", span, [Text(task.caption)])], PlainInline(lib, task.rest, 0, true, o, left).0);
      out := OpenTag("li", [Attribute("class", task.style)])
        + ((OpenTag("span", span) + Escape(task.caption) + CloseTag("span")) + kids);
    } else {
      var kids;
      kids, l := Inline(lib, text, true, o, left);
      out := OpenTag("li", []) + kids;
    }
  }

  method FindItemEnd(lib: Lib, lines: seq<string>, from: nat) returns (j: nat)
    requires from <= |lines|
    ensures j == ItemEnd(lib, lines, from)
  {
    j := from;
    while j < |lines| && Continues(lib, lines[j])
      invariant from <= j <= |lines| && ItemEnd(lib, lines, j) == ItemEnd(lib, lines, from)
    {
      j := j + 1;
    }
  }

  method WriteItems(lib: Lib, lines: seq<string>, i: nat, ordered: bool, o: Opts, depth: nat, left: nat)
    returns (out: string, next: nat, l: nat)
    requires i <= |lines|
    ensures var items := Items(lib, lines, i, ordered, o, depth, left);
      out == Print(items.nodes) && next == items.next && l == items.left
    decreases 0, |lines|, 1
  {
    hide Items, Print, Blocks, OneItem, Item;
    ghost var all := Items(lib, lines, i, ordered, o, depth, left);
    out, next, l := "", i, left;
    ItemsStep(lib, lines, next, ordered, o, depth, l);
    while next < |lines| && Item(lines[next], ordered) != ""
      invariant i <= next <= |lines|
      invariant var rest := Items(lib, lines, next, ordered, o, depth, l);
        Print(all.nodes) == out + Print(rest.nodes) && all.next == rest.next && all.left == rest.left
    {
      ItemsStep(lib, lines, next, ordered, o, depth, l);
      var piece;
      piece, next, l := WriteItem(lib, lines, next, ordered, o, depth, l);
      out := out + piece;
    }
    ItemsStep(lib, lines, next, ordered, o, depth, l);
    PrintNothing();
  }

  /** One list item and the line after it. */
  function OneItem(lib: Lib, lines: seq<string>, i: nat, ordered: bool, o: Opts, depth: nat, left: nat): (out: Out)
    requires i < |lines|
    ensures i < out.next <= |lines|
  {
    var (attrs, head, l) := ItemHead(lib, Item(lines[i], ordered), o, left);
    var j := ItemEnd(lib, lines, i + 1);
    var inner := Dedented(lib, lines[i + 1..j]);
    var (kids, l') :=
      if depth + 1 < MAX_LIST_DEPTH then Blocks(lib, inner, 0, false, o, depth + 1, l)
      else FlatNodes(lib, inner, o, l);
    Out([Element("li", attrs, head + kids)], j, l')
  }

  lemma ItemsStep(lib: Lib, lines: seq<string>, i: nat, ordered: bool, o: Opts, depth: nat, left: nat)
    requires i <= |lines|
    ensures var here := Items(lib, lines, i, ordered, o, depth, left);
      if i == |lines| || Item(lines[i], ordered) == "" then here == Out([], i, left)
      else
        var item := OneItem(lib, lines, i, ordered, o, depth, left);
        var more := Items(lib, lines, item.next, ordered, o, depth, item.left);
        && Print(here.nodes) == Print(item.nodes) + Print(more.nodes)
        && here.next == more.next && here.left == more.left
  {
    hide Print, Blocks, ItemHead, FlatNodes, Dedented;
    if i < |lines| && Item(lines[i], ordered) != "" {
      var item := OneItem(lib, lines, i, ordered, o, depth, left);
      PrintConcat(item.nodes, Items(lib, lines, item.next, ordered, o, depth, item.left).nodes);
    }
  }

  method WriteItem(lib: Lib, lines: seq<string>, i: nat, ordered: bool, o: Opts, depth: nat, left: nat)
    returns (out: string, next: nat, l: nat)
    requires i < |lines|
    ensures var item := OneItem(lib, lines, i, ordered, o, depth, left);
      out == Print(item.nodes) && next == item.next && l == item.left
    decreases 0, |lines|, 0
  {
    hide Print, Blocks, ItemHead, FlatNodes, Dedented, OpenTag, CloseTag;
    var head;
    head, l := WriteItemHead(lib, Item(lines[i], ordered), o, left);
    next := FindItemEnd(lib, lines, i + 1);
    var inner := Dedent(lib, lines[i + 1..next]);
    ghost var (attrs, headNodes, middle) := ItemHead(lib, Item(lines[i], ordered), o, left);
    var kids;
    if depth + 1 < MAX_LIST_DEPTH {
      PrintConcat(headNodes, Blocks(lib, inner, 0, false, o, depth + 1, l).0);
      PrintElement("li", attrs, headNodes + Blocks(lib, inner, 0, false, o, depth + 1, l).0);
      kids, l := WriteBlocks(lib, inner, false, o, depth + 1, l);
    } else {
      PrintConcat(headNodes, FlatNodes(lib, inner, o, l).0);
      PrintElement("li", attrs, headNodes + FlatNodes(lib, inner, o, l).0);
      kids, l := WriteFlat(lib, inner, o, l);
    }
    out := head + kids + CloseTag("li");
  }

  method FindFenceEnd(lib: Lib, lines: seq<string>, from: nat) returns (j: nat)
    requires from <= |lines|
    ensures j == FenceEnd(lib, lines, from)
  {
    j := from;
    while j < |lines| && !Fence(lib, lines[j])
      invariant from <= j <= |lines| && FenceEnd(lib, lines, j) == FenceEnd(lib, lines, from)
    {
      j := j + 1;
    }
  }

  method TakeQuote(lines: seq<string>, i: nat) returns (inner: seq<string>, next: nat)
    requires i <= |lines|
    ensures next == QuoteEnd(lines, i) && inner == Quoted(lines, i, next)
  {
    inner, next := [], i;
    while next < |lines| && ">" <= lines[next]
      invariant i <= next <= |lines| && QuoteEnd(lines, next) == QuoteEnd(lines, i)
      invariant forall x :: i <= x < next ==> ">" <= lines[x]
      invariant inner == Quoted(lines, i, next)
    {
      inner := inner + [Unquoted(lines[next])];
      next := next + 1;
    }
  }

  method WriteBlock(lib: Lib, lines: seq<string>, i: nat, quotes: bool, o: Opts, depth: nat, left: nat)
    returns (out: string, next: nat, l: nat)
    requires i < |lines| && !Blank(lib, lines[i])
    ensures var b := Block(lib, lines, i, quotes, o, depth, left);
      out == Print(b.nodes) && next == b.next && l == b.left
    decreases Flag(quotes), |lines|, 2
  {
    hide Print, OpenTag, CloseTag, PlainInline, Blocks, Items, Joined, TableBlock, Rule, Heading, TableAt, Escape;
    var line := lines[i];
    l := left;
    if Fence(lib, line) {
      var j := FindFenceEnd(lib, lines, i + 1);
      var text := JoinLines(lines[i + 1..j]);
      PrintText(text);
      PrintElement("code", [], [Text(text)]);
      PrintElement("pre", [], [Element("code", [], [Text(text)])]);
      out := OpenTag("pre", []) + (OpenTag("code", []) + Escape(text) + CloseTag("code")) + CloseTag("pre");
      next := j + 1;
    } else if Rule(lib, line) {
      PrintVoid("hr");
      out, next := OpenTag("hr", []), i + 1;
    } else if Heading(line) > 0 {
      var tag := if Heading(line) > 2 then "h4" else "h3";
      var text := lib.trim(line[Heading(line)..]);
      PrintElement(tag, [], PlainInline(lib, text, 0, true, o, left).0);
      var kids;
      kids, l := Inline(lib, text, true, o, left);
      out, next := OpenTag(tag, []) + kids + CloseTag(tag), i + 1;
    } else if quotes && ">" <= line {
      var inner;
      inner, next := TakeQuote(lines, i);
      PrintElement("blockquote", [], Blocks(lib, inner, 0, false, o, depth, left).0);
      var kids;
      kids, l := WriteBlocks(lib, inner, false, o, depth, left);
      out := OpenTag("blockquote", []) + kids + CloseTag("blockquote");
    } else if TableAt(lib, lines, i) {
      out, next, l := WriteTable(lib, lines, i, o, left);
    } else if Item(line, false) != "" {
      PrintElement("ul", [], Items(lib, lines, i, false, o, depth, left).nodes);
      var kids;
      kids, next, l := WriteItems(lib, lines, i, false, o, depth, left);
      out := OpenTag("ul", []) + kids + CloseTag("ul");
    } else if Item(line, true) != "" {
      PrintElement("ol", StartAttribute(line, true), Items(lib, lines, i, true, o, depth, left).nodes);
      var kids;
      kids, next, l := WriteItems(lib, lines, i, true, o, depth, left);
      out := OpenTag("ol", StartAttribute(line, true)) + kids + CloseTag("ol");
    } else {
      var kids;
      kids, next, l := WriteParagraph(lib, lines, i, quotes, o, left);
      PrintElement("p", [], Joined(lib, lines[i..next], o, left).0);
      out := OpenTag("p", []) + kids + CloseTag("p");
    }
  }

  lemma BlocksStep(lib: Lib, lines: seq<string>, i: nat, quotes: bool, o: Opts, depth: nat, left: nat)
    ensures var here := Blocks(lib, lines, i, quotes, o, depth, left);
      if i >= |lines| then here == ([], left)
      else if Blank(lib, lines[i]) then here == Blocks(lib, lines, i + 1, quotes, o, depth, left)
      else
        var b := Block(lib, lines, i, quotes, o, depth, left);
        var more := Blocks(lib, lines, b.next, quotes, o, depth, b.left);
        Print(here.0) == Print(b.nodes) + Print(more.0) && here.1 == more.1
  {
    hide Print, Block;
    if i < |lines| && !Blank(lib, lines[i]) {
      var b := Block(lib, lines, i, quotes, o, depth, left);
      PrintConcat(b.nodes, Blocks(lib, lines, b.next, quotes, o, depth, b.left).0);
    }
  }

  /** blocks: terminates on every input and writes the text of the tree. */
  method WriteBlocks(lib: Lib, lines: seq<string>, quotes: bool, o: Opts, depth: nat, left: nat)
    returns (out: string, l: nat)
    ensures out == Print(Blocks(lib, lines, 0, quotes, o, depth, left).0)
    ensures l == Blocks(lib, lines, 0, quotes, o, depth, left).1
    decreases Flag(quotes), |lines|, 3
  {
    hide Print, Block, Blocks;
    ghost var all := Blocks(lib, lines, 0, quotes, o, depth, left);
    out, l := "", left;
    PrintNothing();
    var i := 0;
    while i < |lines|
      invariant 0 <= i <= |lines| + 1
      invariant var rest := Blocks(lib, lines, i, quotes, o, depth, l);
        Print(all.0) == out + Print(rest.0) && all.1 == rest.1
    {
      BlocksStep(lib, lines, i, quotes, o, depth, l);
      if Blank(lib, lines[i]) {
        i := i + 1;
      } else {
        var piece;
        piece, i, l := WriteBlock(lib, lines, i, quotes, o, depth, l);
        out := out + piece;
      }
    }
    BlocksStep(lib, lines, i, quotes, o, depth, l);
  }
}
