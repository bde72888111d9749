/** The log viewer's line writer: numbered lines in chunks, with the colours of the terminal
    (SGR, section 8.3.117 of ECMA-48). The page is a sequence of HTML tokens; a reader that keeps
    the stack of open elements says what a browser shows, and in which style. */
module LineWriter {
  import opened Basics
  import opened TextPages

  const CHUNK_LINES := 500
  const MAX_MARKS := 20000
  const READ_BUFFER := 0x1_0000

  // ----- the page -----

  datatype Style = Style(color: string, bold: bool)

  const PLAIN := Style("", false)

  /** The open elements. */
  datatype Tag =
    | Chunk(from: int)
    | Source
    | Gutter
    | Class(name: string)
    | Partial
    | Painted(style: Style)
    | Marked(code: int)
    | Cut

  datatype Element = Div | Pre | Span

  function ElementOf(t: Tag): Element {
    match t
    case Chunk(_) => Div
    case Source => Pre
    case Gutter => Pre
    case _ => Span
  }

  datatype Token =
    | Open(tag: Tag)
    | Shut(element: Element)
    | Plain(text: string)
    | Escaped(c: char)
    | Encoded(text: string)
    | Symbol(code: int)
    | Replacement
    | NewLine
    | CutNote(cut: nat)
    | Numbers(numbers: seq<int>)

  datatype Glyph =
    | Char(c: char)
    | Rune(text: string)
    | Control(code: int)
    | Unreadable
    | LineEnd
    | More(cut: nat)

  /** Something shown, and the style it is shown in. */
  datatype Cell = Cell(glyph: Glyph, style: Style)

  /** Where in its line something is shown: in the class of a diff line, in a line without its end, in
      the note of a cut. */
  datatype Frame = Frame(name: string, unended: bool, note: bool)

  const NO_FRAME := Frame("", false, false)

  datatype Seen = Seen(cell: Cell, frame: Frame)

  /** A browser's state: whether every tag matched so far, what is open, what was shown, the
      gutters, and how many control marks were opened. */
  datatype Screen = Screen(ok: bool, stack: seq<Tag>, shown: seq<Seen>, gutters: seq<seq<int>>, marks: nat)

  const BLANK := Screen(true, [], [], [], 0)

  /** The innermost painted style. */
  function StyleOf(stack: seq<Tag>): Style {
    if stack == [] then PLAIN
    else if stack[|stack| - 1].Painted? then stack[|stack| - 1].style
    else StyleOf(stack[..|stack| - 1])
  }

  function FrameOf(stack: seq<Tag>): Frame {
    if stack == [] then NO_FRAME
    else
      var outer := FrameOf(stack[..|stack| - 1]);
      match stack[|stack| - 1]
      case Class(name) => outer.(name := name)
      case Partial => outer.(unended := true)
      case Cut => outer.(note := true)
      case _ => outer
  }

  /** Cells that are all shown in one frame. */
  function In(cells: seq<Cell>, frame: Frame): (r: seq<Seen>)
    ensures |r| == |cells|
  {
    seq(|cells|, k requires 0 <= k < |cells| => Seen(cells[k], frame))
  }

  lemma InConcat(a: seq<Cell>, b: seq<Cell>, frame: Frame)
    ensures In(a + b, frame) == In(a, frame) + In(b, frame)
  {
  }

  lemma InFirst(cell: Cell, more: seq<Cell>, frame: Frame)
    ensures In([cell] + more, frame) == [Seen(cell, frame)] + In(more, frame)
  {
  }

  function CharCells(text: string, style: Style): (r: seq<Cell>)
    ensures |r| == |text|
  {
    if text == "" then [] else [Cell(Char(text[0]), style)] + CharCells(text[1..], style)
  }

  predicate PlainByte(c: char) {
    ' ' <= c < '\U{7f}' && c != '<' && c != '>' && c != '&' && c != '"' && c != '\''
  }

  function Step(p: Screen, t: Token): Screen {
    var style, frame := StyleOf(p.stack), FrameOf(p.stack);
    match t
    case Open(tag) => p.(stack := p.stack + [tag], marks := p.marks + if tag.Marked? then 1 else 0)
    case Shut(element) =>
      if p.stack != [] && ElementOf(p.stack[|p.stack| - 1]) == element then p.(stack := p.stack[..|p.stack| - 1])
      else p.(ok := false)
    case Plain(text) =>
      p.(ok := p.ok && forall i :: 0 <= i < |text| ==> PlainByte(text[i]),
         shown := p.shown + In(CharCells(text, style), frame))
    case Escaped(c) => p.(shown := p.shown + [Seen(Cell(Char(c), style), frame)])
    case Encoded(text) =>
      p.(ok := p.ok && text != "" && text[0] >= '\U{80}', shown := p.shown + [Seen(Cell(Rune(text), style), frame)])
    case Symbol(code) => p.(shown := p.shown + [Seen(Cell(Control(code), style), frame)])
    case Replacement => p.(shown := p.shown + [Seen(Cell(Unreadable, style), frame)])
    case NewLine => p.(shown := p.shown + [Seen(Cell(LineEnd, style), frame)])
    case CutNote(cut) => p.(shown := p.shown + [Seen(Cell(More(cut), style), frame)])
    case Numbers(numbers) => p.(gutters := p.gutters + [numbers])
  }

  function Read(out: seq<Token>): Screen {
    if out == [] then BLANK else Step(Read(out[..|out| - 1]), out[|out| - 1])
  }

  // ----- SGR -----

  /** Parameters are separated by semicolons. */
  function Split(s: string): (r: seq<string>)
    ensures r != []
  {
    if s == "" then [""]
    else
      var rest := Split(s[1..]);
      if s[0] == ';' then [""] + rest else [[s[0]] + rest[0]] + rest[1..]
  }

  function Digits(s: string, n: int): Option<int> {
    if s == "" then Some(n)
    else if '0' <= s[0] <= '9' then Digits(s[1..], 10 * n + (s[0] as int - '0' as int))
    else None
  }

  /** A decimal number with an optional sign. One too wide for a machine word is an error in the
      source and matches no parameter here, with the same outcome. */
  function Atoi(s: string): Option<int> {
    var body := if s != "" && (s[0] == '+' || s[0] == '-') then s[1..] else s;
    if body == "" then None
    else match Digits(body, 0)
      case None => None
      case Some(n) => Some(if s[0] == '-' then -n else n)
  }

  function Colour(v: int): string {
    var base := if 90 <= v <= 97 then v - 60 else v;
    if 30 <= base <= 37 then ["krgybmcw"[base - 30]] else ""
  }

  /** How many parameters the one at i takes with it: a palette entry or three components. */
  function Extra(ps: seq<string>, i: nat): nat
    requires i < |ps|
  {
    var v := Atoi(ps[i]);
    if v != None && v.value in {38, 48, 58} && i + 1 < |ps| then
      if ps[i + 1] == "5" then 2 else if ps[i + 1] == "2" then 4 else 0
    else 0
  }

  function Apply(p: string, style: Style): Style {
    var v := Atoi(p);
    if p == "" then PLAIN
    else if v == None then style
    else if v.value == 0 then PLAIN
    else if v.value == 1 then style.(bold := true)
    else if v.value == 22 then style.(bold := false)
    else if v.value == 39 then style.(color := "")
    else if Colour(v.value) != "" then style.(color := Colour(v.value))
    else style
  }

  /** The style after the parameters from i on, applied in order. */
  function ApplyAll(ps: seq<string>, i: nat, style: Style): Style
    decreases |ps| - i
  {
    if i >= |ps| then style else ApplyAll(ps, i + 1 + Extra(ps, i), Apply(ps[i], style))
  }

  /** The style after an SGR sequence with these parameters. */
  function Sgr(params: string, style: Style): Style {
    ApplyAll(Split(params), 0, style)
  }

  // What each parameter means, without the functions above.

  lemma {:induction false} OneParameter(p: string)
    requires ';' !in p
    ensures Split(p) == [p]
  {
    if p != "" {
      assert p[0] in p;
      OneParameter(p[1..]);
      assert [p[0]] + p[1..] == p;
    }
  }

  lemma {:induction false} SplitFirst(a: string, b: string)
    requires ';' !in a
    ensures Split(a + ";" + b) == [a] + Split(b)
  {
    var s := a + ";" + b;
    if a == "" {
      assert s[1..] == b;
    } else {
      assert a[0] in a;
      SplitFirst(a[1..], b);
      assert s[1..] == a[1..] + ";" + b && s[0] == a[0];
      assert [a[0]] + a[1..] == a && ([a[1..]] + Split(b))[1..] == Split(b);
    }
  }

  lemma {:induction false} ApplyLater(ps: seq<string>, more: seq<string>, i: nat, style: Style)
    ensures ApplyAll(more + ps, |more| + i, style) == ApplyAll(ps, i, style)
    decreases |ps| - i
  {
    hide Apply, Atoi;
    if i < |ps| {
      ApplyLater(ps, more, i + 1 + Extra(ps, i), Apply(ps[i], style));
      assert (more + ps)[|more| + i] == ps[i];
      assert i + 1 < |ps| ==> (more + ps)[|more| + i + 1] == ps[i + 1];
    }
  }

  lemma SingleSgr(p: string, style: Style)
    requires ';' !in p
    ensures Sgr(p, style) == Apply(p, style)
  {
    hide Apply, Atoi;
    OneParameter(p);
    assert ApplyAll([p], 1 + Extra([p], 0), Apply(p, style)) == Apply(p, style);
  }

  /** The parameters that set a colour, and the letters of their classes. */
  const SGR_TABLE: seq<(string, string)> := [
    ("30", "k"), ("31", "r"), ("32", "g"), ("33", "y"), ("34", "b"), ("35", "m"), ("36", "c"), ("37", "w"),
    ("90", "k"), ("91", "r"), ("92", "g"), ("93", "y"), ("94", "b"), ("95", "m"), ("96", "c"), ("97", "w")
  ]

  /** Two digits as a number. */
  lemma TwoDigits(p: string)
    requires |p| == 2 && '0' <= p[0] <= '9' && '0' <= p[1] <= '9'
    ensures Atoi(p) == Some(10 * (p[0] as int - '0' as int) + (p[1] as int - '0' as int))
  {
    var tens, ones := p[0] as int - '0' as int, p[1] as int - '0' as int;
    assert p[1..][1..] == "" && p[1..][0] == p[1];
    assert Digits("", 10 * tens + ones) == Some(10 * tens + ones);
    assert Digits(p[1..], tens) == Digits(p[1..][1..], 10 * tens + ones);
    assert Digits(p, 0) == Digits(p[1..], tens);
  }

  lemma OneDigit(p: string)
    requires |p| == 1 && '0' <= p[0] <= '9'
    ensures Atoi(p) == Some(p[0] as int - '0' as int)
  {
    assert p[1..] == "" && Digits("", p[0] as int - '0' as int).Some?;
    assert Digits(p, 0) == Digits(p[1..], p[0] as int - '0' as int);
  }

  /** A colour parameter sets the letter of its class and nothing else. */
  lemma ColoursMean(k: nat, style: Style)
    requires k < |SGR_TABLE|
    ensures Sgr(SGR_TABLE[k].0, style) == Style(SGR_TABLE[k].1, style.bold)
  {
    hide Atoi, Sgr;
    TwoDigits(SGR_TABLE[k].0);
    SingleSgr(SGR_TABLE[k].0, style);
  }

  /** 1 and 22 change boldness only, 39 clears the colour only, 0 and the empty parameter clear both. */
  lemma FlagsMean(style: Style)
    ensures Sgr("1", style) == Style(style.color, true) && Sgr("22", style) == Style(style.color, false)
    ensures Sgr("39", style) == Style("", style.bold)
    ensures Sgr("0", style) == Sgr("", style) == Style("", false)
  {
    hide Atoi, Sgr;
    OneDigit("0");
    OneDigit("1");
    TwoDigits("22");
    TwoDigits("39");
    SingleSgr("", style);
    SingleSgr("0", style);
    SingleSgr("1", style);
    SingleSgr("22", style);
    SingleSgr("39", style);
  }

  lemma {:induction false} DigitsMore(s: string, c: char, n: int)
    ensures Digits(s + [c], n) == match Digits(s, n)
      case None => None
      case Some(m) => Digits([c], m)
  {
    if s == "" {
      assert s + [c] == [c];
    } else {
      assert (s + [c])[0] == s[0] && (s + [c])[1..] == s[1..] + [c];
      if '0' <= s[0] <= '9' {
        DigitsMore(s[1..], c, 10 * n + (s[0] as int - '0' as int));
      }
    }
  }

  lemma {:induction false} NumberReads(n: nat)
    ensures Digits(Decimal(n), 0) == Some(n)
  {
    var c := Basics.Digit(n % 10);
    assert [c][1..] == "";
    assert c as int - '0' as int == n % 10;
    if n >= 10 {
      NumberReads(n / 10);
      DigitsMore(Decimal(n / 10), c, 0);
    }
  }

  lemma DecimalIsNumber(n: nat)
    ensures Atoi(Decimal(n)) == Some(n) && ';' !in Decimal(n)
  {
    hide Decimal, Digits;
    NumberReads(n);
    DecimalReads(n);
  }

  /** Every other number changes nothing. */
  lemma OtherNumbersMeanNothing(n: nat, style: Style)
    requires n !in {0, 1, 22, 39} && !(30 <= n <= 37) && !(90 <= n <= 97)
    ensures Sgr(Decimal(n), style) == style
  {
    hide Atoi, Decimal, Sgr;
    DecimalIsNumber(n);
    SingleSgr(Decimal(n), style);
  }

  /** So does a parameter with a character that is neither a digit nor a sign. */
  lemma OtherTextsMeanNothing(p: string, k: nat, style: Style)
    requires ';' !in p && k < |p| && !('0' <= p[k] <= '9') && p[k] != '+' && p[k] != '-'
    ensures Sgr(p, style) == style
  {
    hide Sgr;
    SingleSgr(p, style);
    if p[0] == '+' || p[0] == '-' {
      NotDigits(p[1..], k - 1, 0);
    } else {
      NotDigits(p, k, 0);
    }
  }

  lemma {:induction false} NotDigits(s: string, k: nat, n: int)
    requires k < |s| && !('0' <= s[k] <= '9')
    ensures Digits(s, n) == None
  {
    if '0' <= s[0] <= '9' {
      NotDigits(s[1..], k - 1, 10 * n + (s[0] as int - '0' as int));
    }
  }

  /** The numbers that start a palette or RGB colour. */
  const LONG_COLOURS: seq<string> := ["38", "48", "58"]

  /** Parameters are applied one after the other, unless the first starts a long colour. */
  lemma SgrFollows(a: string, b: string, style: Style)
    requires ';' !in a && (forall k :: 0 <= k < 3 ==> Atoi(a) != Atoi(LONG_COLOURS[k]))
    ensures Sgr(a + ";" + b, style) == Sgr(b, Sgr(a, style))
  {
    hide Apply, Atoi;
    SplitFirst(a, b);
    SingleSgr(a, style);
    LongNumbers();
    assert Atoi(a) != Atoi(LONG_COLOURS[0]) && Atoi(a) != Atoi(LONG_COLOURS[1]) && Atoi(a) != Atoi(LONG_COLOURS[2]);
    ApplyLater(Split(b), [a], 0, Apply(a, style));
  }

  lemma LongNumbers()
    ensures Atoi(LONG_COLOURS[0]) == Some(38) && Atoi(LONG_COLOURS[1]) == Some(48)
    ensures Atoi(LONG_COLOURS[2]) == Some(58)
  {
    hide Atoi;
    TwoDigits(LONG_COLOURS[0]);
    TwoDigits(LONG_COLOURS[1]);
    TwoDigits(LONG_COLOURS[2]);
  }

  lemma LongColour(k: nat, ps: seq<string>, style: Style)
    requires k < 3 && ps != [] && ps[0] == LONG_COLOURS[k]
    ensures |ps| == 1 ==> ApplyAll(ps, 0, style) == style
    ensures |ps| > 1 ==>
      ApplyAll(ps, 0, style) == ApplyAll(ps, if ps[1] == "5" then 3 else if ps[1] == "2" then 5 else 1, style)
  {
    hide Atoi;
    LongNumbers();
  }

  /** A long colour of these parameters is skipped, whatever follows. */
  lemma LongColourSkipped(k: nat, ps: seq<string>, b: string, style: Style)
    requires k < 3 && |ps| >= 3 && ps[0] == LONG_COLOURS[k]
    requires |ps| == if ps[1] == "5" then 3 else if ps[1] == "2" then 5 else 1
    ensures ApplyAll(ps, 0, style) == style
    ensures ApplyAll(ps + Split(b), 0, style) == Sgr(b, style)
  {
    hide Apply, Extra, Atoi, Split, LONG_COLOURS;
    var all := ps + Split(b);
    assert all[0] == ps[0] && all[1] == ps[1];
    LongColour(k, ps, style);
    LongColour(k, all, style);
    ApplyLater(Split(b), ps, 0, style);
  }

  /** A palette colour is skipped with its number: nothing of it is taken for a parameter. */
  lemma PaletteIsSkipped(k: nat, n: string, b: string, style: Style)
    requires k < 3 && ';' !in n
    ensures Sgr(LONG_COLOURS[k] + ";5;" + n, style) == style
    ensures Sgr(LONG_COLOURS[k] + ";5;" + n + ";" + b, style) == Sgr(b, style)
  {
    hide Split, ApplyAll;
    var c := LONG_COLOURS[k];
    PaletteParts(k, n);
    PaletteParts(k, n + ";" + b);
    assert c + ";5;" + n + ";" + b == c + ";5;" + (n + ";" + b);
    OneParameter(n);
    SplitFirst(n, b);
    assert [c, "5"] + [n] == [c, "5", n];
    assert [c, "5"] + ([n] + Split(b)) == [c, "5", n] + Split(b);
    LongColourSkipped(k, [c, "5", n], b, style);
  }

  lemma PaletteParts(k: nat, rest: string)
    requires k < 3
    ensures Split(LONG_COLOURS[k] + ";5;" + rest) == [LONG_COLOURS[k], "5"] + Split(rest)
  {
    hide Split;
    var c := LONG_COLOURS[k];
    NoSemicolon(k);
    assert c + ";5;" + rest == c + ";" + ("5" + ";" + rest);
    SplitFirst(c, "5" + ";" + rest);
    SplitFirst("5", rest);
  }

  /** So is a colour of three components. */
  lemma ComponentsAreSkipped(k: nat, red: string, green: string, blue: string, b: string, style: Style)
    requires k < 3 && ';' !in red && ';' !in green && ';' !in blue
    ensures Sgr(LONG_COLOURS[k] + ";2;" + red + ";" + green + ";" + blue, style) == style
    ensures Sgr(LONG_COLOURS[k] + ";2;" + red + ";" + green + ";" + blue + ";" + b, style) == Sgr(b, style)
  {
    hide Split, ApplyAll;
    var c := LONG_COLOURS[k];
    NoSemicolon(k);
    ComponentParts(c, red, green, blue);
    ComponentParts(c, red, green, blue + ";" + b);
    assert c + ";2;" + red + ";" + green + ";" + blue + ";" + b
      == c + ";2;" + red + ";" + green + ";" + (blue + ";" + b);
    OneParameter(blue);
    SplitFirst(blue, b);
    var five := [c, "2", red, green, blue];
    assert [c, "2", red, green] + [blue] == five;
    assert [c, "2", red, green] + ([blue] + Split(b)) == five + Split(b);
    LongColourSkipped(k, five, b, style);
  }

  lemma ComponentParts(c: string, red: string, green: string, rest: string)
    requires ';' !in c && ';' !in red && ';' !in green
    ensures Split(c + ";2;" + red + ";" + green + ";" + rest) == [c, "2", red, green] + Split(rest)
  {
    hide Split;
    assert c + ";2;" + red + ";" + green + ";" + rest == c + ";" + ("2" + ";" + (red + ";" + (green + ";" + rest)));
    SplitFirst(c, "2" + ";" + (red + ";" + (green + ";" + rest)));
    SplitFirst("2", red + ";" + (green + ";" + rest));
    SplitFirst(red, green + ";" + rest);
    SplitFirst(green, rest);
  }

  lemma NoSemicolon(k: nat)
    requires k < 3
    ensures ';' !in LONG_COLOURS[k]
  {
  }

  // ----- escape sequences -----

  datatype Decoded = Decoded(code: int, size: nat)

  /** What the scans need of a UTF-8 decoder: it consumes something, an ASCII byte is a rune of its
      own, and all bytes of a longer one are at or above 0x80. */
  ghost predicate IsDecoder(decode: string -> Decoded) {
    forall s: string :: s != "" ==>
      && 1 <= decode(s).size <= |s|
      && (s[0] < '\U{80}' ==> decode(s).size == 1)
      && (s[0] >= '\U{80}' ==> forall k :: 0 <= k < decode(s).size ==> s[k] >= '\U{80}')
  }

  const ESC: char := '\U{1b}'

  /** The first byte from i on that ends a control sequence. */
  function FinalByte(b: string, i: nat): (k: nat)
    requires i <= |b|
    ensures i <= k <= |b|
    decreases |b| - i
  {
    if i < |b| && (b[i] < '@' || b[i] > '~') then FinalByte(b, i + 1) else i
  }

  /** After the terminator of an operating system command. */
  function CommandEnd(b: string, i: nat): (k: nat)
    requires i <= |b|
    ensures i <= k <= |b|
    decreases |b| - i
  {
    if i == |b| then i
    else if b[i] == '\U{07}' then i + 1
    else if b[i] == ESC && i + 1 < |b| && b[i + 1] == '\\' then i + 2
    else CommandEnd(b, i + 1)
  }

  /** Where the escape sequence at at ends. It always consumes input. */
  function EscapeEnd(decode: string -> Decoded, b: string, at: nat): (k: nat)
    requires IsDecoder(decode) && at < |b|
    ensures at < k <= |b|
  {
    if |b| - at < 2 then |b|
    else match b[at + 1]
      case '[' => Min(FinalByte(b, at + 2) + 1, |b|)
      case ']' => CommandEnd(b, at + 2)
      case c =>
        if c in "()*+#%" then Min(at + 3, |b|)
        else
          assert b[at + 1..] != "";
          at + 1 + decode(b[at + 1..]).size
  }

  function EscapeStyle(b: string, at: nat, style: Style): Style
    requires at < |b|
  {
    if |b| - at >= 2 && b[at + 1] == '[' then
      var i := FinalByte(b, at + 2);
      if i < |b| && b[i] == 'm' then Sgr(b[at + 2..i], style) else style
    else style
  }

  // ----- the reference: what a line shows -----

  predicate ControlByte(c: char) {
    (c < ' ' && c != '\t') || c == '\U{7f}'
  }

  predicate Bidi(code: int) {
    0x202A <= code <= 0x202E || 0x2066 <= code <= 0x2069 || code == 0x200E || code == 0x200F || code == 0x061C
  }

  function GlyphSize(decode: string -> Decoded, b: string, at: nat): (n: nat)
    requires IsDecoder(decode) && at < |b|
    ensures 1 <= n && at + n <= |b|
    ensures forall k :: at < k < at + n ==> b[k] >= '\U{80}'
  {
    if b[at] < '\U{80}' then 1
    else
      var s := b[at..];
      assert forall k :: at <= k < at + decode(s).size ==> b[k] == s[k - at];
      decode(s).size
  }

  function GlyphAt(decode: string -> Decoded, b: string, at: nat): Glyph
    requires IsDecoder(decode) && at < |b|
  {
    if ControlByte(b[at]) then Control(b[at] as int)
    else if b[at] < '\U{80}' then Char(b[at])
    else
      var d := decode(b[at..]);
      if d.code == 0xFFFD && d.size == 1 then Unreadable
      else if 0x80 <= d.code <= 0x9f || Bidi(d.code) then Control(d.code)
      else Rune(b[at..at + GlyphSize(decode, b, at)])
  }

  /** What is shown of b from at on: every character in the style of all SGR sequences before it. */
  function Scan(decode: string -> Decoded, b: string, at: nat, style: Style): seq<Cell>
    requires IsDecoder(decode) && at <= |b|
    decreases |b| - at
  {
    if at == |b| then []
    else if b[at] == ESC then Scan(decode, b, EscapeEnd(decode, b, at), EscapeStyle(b, at, style))
    else [Cell(GlyphAt(decode, b, at), style)] + Scan(decode, b, at + GlyphSize(decode, b, at), style)
  }

  /** The style at the end of such a scan. */
  function ScanStyle(decode: string -> Decoded, b: string, at: nat, style: Style): Style
    requires IsDecoder(decode) && at <= |b|
    decreases |b| - at
  {
    if at == |b| then style
    else if b[at] == ESC then ScanStyle(decode, b, EscapeEnd(decode, b, at), EscapeStyle(b, at, style))
    else ScanStyle(decode, b, at + GlyphSize(decode, b, at), style)
  }

  /** Jumping from escape to escape meets the same sequences as showing the text. */
  lemma {:induction false} JumpsAreScans(decode: string -> Decoded, b: string, at: nat, style: Style)
    requires IsDecoder(decode) && at <= |b|
    ensures ScanStyle(decode, b, at, style) == ScanStyle(decode, b, IndexFrom(b, ESC, at), style)
    decreases |b| - at
  {
    if at < |b| && b[at] != ESC {
      var next := at + GlyphSize(decode, b, at);
      NoEscapeBetween(b, at, next);
      JumpsAreScans(decode, b, next, style);
    }
  }

  lemma {:induction false} NoEscapeBetween(b: string, at: nat, next: nat)
    requires at <= next <= |b| && forall k :: at <= k < next ==> b[k] != ESC
    ensures IndexFrom(b, ESC, at) == IndexFrom(b, ESC, next)
    decreases next - at
  {
    if at < next {
      NoEscapeBetween(b, at + 1, next);
    }
  }

  function LastReturn(b: string, end: nat): (k: int)
    requires end <= |b|
    ensures -1 <= k < end
  {
    if end == 0 then -1 else if b[end - 1] == '\r' then end - 1 else LastReturn(b, end - 1)
  }

  /** Only what comes after the last carriage return is shown, in the style of everything before. */
  function LineCells(decode: string -> Decoded, b: string, style: Style): seq<Cell>
    requires IsDecoder(decode)
  {
    var i := LastReturn(b, |b|);
    if i < 0 then Scan(decode, b, 0, style)
    else Scan(decode, b[i + 1..], 0, ScanStyle(decode, b[..i], 0, style))
  }

  function LineStyle(decode: string -> Decoded, b: string, style: Style): Style
    requires IsDecoder(decode)
  {
    var i := LastReturn(b, |b|);
    if i < 0 then ScanStyle(decode, b, 0, style)
    else ScanStyle(decode, b[i + 1..], 0, ScanStyle(decode, b[..i], 0, style))
  }

  // What each kind of sequence does, without the functions above.

  /** Behind byte `next` the text is shown and styled as from byte at on, in another style. */
  ghost predicate Skips(decode: string -> Decoded, b: string, at: nat, next: nat, style: Style, style': Style)
    requires IsDecoder(decode) && at <= |b| && next <= |b|
  {
    && Scan(decode, b, at, style) == Scan(decode, b, next, style')
    && ScanStyle(decode, b, at, style) == ScanStyle(decode, b, next, style')
  }

  lemma {:induction false} FinalByteIs(b: string, i: nat, k: nat)
    requires i <= k <= |b| && (forall j :: i <= j < k ==> b[j] < '@' || b[j] > '~')
    requires k < |b| ==> '@' <= b[k] <= '~'
    ensures FinalByte(b, i) == k
    decreases k - i
  {
    if i < k {
      FinalByteIs(b, i + 1, k);
    }
  }

  /** A control sequence goes up to its final byte; the letter m sets the style by its parameters, and
      every other one changes nothing. */
  lemma ControlSequenceMeans(decode: string -> Decoded, b: string, at: nat, k: nat, style: Style)
    requires IsDecoder(decode) && at + 2 <= k < |b| && b[at] == ESC && b[at + 1] == '['
    requires (forall j :: at + 2 <= j < k ==> b[j] < '@' || b[j] > '~') && '@' <= b[k] <= '~'
    ensures Skips(decode, b, at, k + 1, style, if b[k] == 'm' then Sgr(b[at + 2..k], style) else style)
  {
    hide Sgr;
    FinalByteIs(b, at + 2, k);
  }

  /** One without a final byte takes the rest of the line. */
  lemma OpenControlSequenceMeans(decode: string -> Decoded, b: string, at: nat, style: Style)
    requires IsDecoder(decode) && at + 2 <= |b| && b[at] == ESC && b[at + 1] == '['
    requires forall j :: at + 2 <= j < |b| ==> b[j] < '@' || b[j] > '~'
    ensures Skips(decode, b, at, |b|, style, style)
  {
    FinalByteIs(b, at + 2, |b|);
  }

  /** Byte j ends an operating system command, or the first of the two bytes that do stands there. */
  predicate Terminates(b: string, j: nat)
    requires j < |b|
  {
    b[j] == '\U{07}' || (b[j] == ESC && j + 1 < |b| && b[j + 1] == '\\')
  }

  lemma {:induction false} CommandEndIs(b: string, i: nat, k: nat)
    requires i <= k <= |b| && (forall j :: i <= j < k ==> !Terminates(b, j)) && (k < |b| ==> Terminates(b, k))
    ensures CommandEnd(b, i) == if k == |b| then k else if b[k] == '\U{07}' then k + 1 else k + 2
    decreases k - i
  {
    if i < k {
      assert !Terminates(b, i);
      CommandEndIs(b, i + 1, k);
    }
  }

  /** A command for the terminal is hidden up to BEL or ESC \ and changes nothing; one that does not
      end takes the rest of the line. */
  lemma CommandMeans(decode: string -> Decoded, b: string, at: nat, k: nat, style: Style)
    requires IsDecoder(decode) && at + 2 <= k <= |b| && b[at] == ESC && b[at + 1] == ']'
    requires (forall j :: at + 2 <= j < k ==> !Terminates(b, j)) && (k < |b| ==> Terminates(b, k))
    ensures Skips(decode, b, at, if k == |b| then k else if b[k] == '\U{07}' then k + 1 else k + 2, style, style)
  {
    CommandEndIs(b, at + 2, k);
  }

  /** The choice of a character set takes three bytes. */
  lemma CharacterSetMeans(decode: string -> Decoded, b: string, at: nat, style: Style)
    requires IsDecoder(decode) && at + 2 <= |b| && b[at] == ESC && b[at + 1] in "()*+#%"
    ensures Skips(decode, b, at, if at + 3 <= |b| then at + 3 else |b|, style, style)
  {
  }

  /** Every other sequence is ESC and one character. */
  lemma OtherEscapesMean(decode: string -> Decoded, b: string, at: nat, style: Style)
    requires IsDecoder(decode) && at + 1 < |b| && b[at] == ESC && b[at + 1] !in "[]()*+#%"
    ensures b[at + 1..] != ""
    ensures Skips(decode, b, at, at + 1 + decode(b[at + 1..]).size, style, style)
  {
    assert b[at + 1..] != "";
    assert b[at + 1] != '[' && b[at + 1] != ']' && b[at + 1] !in "()*+#%" by {
      assert "[]()*+#%" == "[]" + "()*+#%" && "[]"[0] == '[' && "[]"[1] == ']';
    }
  }

  /** An ESC at the end of the line is hidden. */
  lemma LastEscapeMeans(decode: string -> Decoded, b: string, style: Style)
    requires IsDecoder(decode) && b != "" && b[|b| - 1] == ESC
    ensures Skips(decode, b, |b| - 1, |b|, style, style)
  {
  }

  /** The bidirectional controls that are shown as symbols. */
  const BIDI: set<int> := {
    0x061C, 0x200E, 0x200F, 0x202A, 0x202B, 0x202C, 0x202D, 0x202E, 0x2066, 0x2067, 0x2068, 0x2069
  }

  /** What one character is shown as. */
  lemma GlyphsMean(decode: string -> Decoded, b: string, at: nat)
    requires IsDecoder(decode) && at < |b|
    ensures ' ' <= b[at] <= '~' || b[at] == '\t' ==> GlyphAt(decode, b, at) == Char(b[at])
    ensures b[at] == '\U{7f}' || (b[at] < ' ' && b[at] != '\t') ==> GlyphAt(decode, b, at) == Control(b[at] as int)
    ensures b[at] >= '\U{80}' ==>
      var d := decode(b[at..]);
      GlyphAt(decode, b, at)
      == if d == Decoded(0xFFFD, 1) then Unreadable
         else if 0x80 <= d.code <= 0x9f || d.code in BIDI then Control(d.code)
         else Rune(b[at..at + d.size])
  {
  }

  /** Of a line with carriage returns only what follows the last one is shown; the rest sets the style. */
  lemma ReturnMeans(decode: string -> Decoded, hidden: string, rest: string, style: Style)
    requires IsDecoder(decode) && '\r' !in rest
    ensures LineCells(decode, rest, style) == Scan(decode, rest, 0, style)
    ensures LineCells(decode, hidden + "\r" + rest, style) == Scan(decode, rest, 0, ScanStyle(decode, hidden, 0, style))
  {
    hide Scan, ScanStyle, IsDecoder;
    LastReturnIs(rest, |rest|, -1);
    var b := hidden + "\r" + rest;
    assert forall j :: |hidden| < j < |b| ==> b[j] == rest[j - |hidden| - 1];
    LastReturnIs(b, |b|, |hidden|);
    assert b[|hidden| + 1..] == rest && b[..|hidden|] == hidden;
  }

  lemma {:induction false} LastReturnIs(b: string, end: nat, k: int)
    requires -1 <= k < end <= |b| || (k == -1 && end <= |b|)
    requires (k >= 0 ==> b[k] == '\r') && forall j :: k < j < end ==> b[j] != '\r'
    ensures LastReturn(b, end) == k
    decreases end
  {
    if end > 0 && k != end - 1 {
      LastReturnIs(b, end - 1, k);
    }
  }

  // ----- the writer -----

  lemma ReadMore(out: seq<Token>, t: Token)
    ensures Read(out + [t]) == Step(Read(out), t)
  {
    assert (out + [t])[..|out|] == out;
  }

  lemma StyleOfTop(base: seq<Tag>, tag: Tag)
    ensures StyleOf(base + [tag]) == if tag.Painted? then tag.style else StyleOf(base)
  {
    assert (base + [tag])[..|base|] == base;
  }

  lemma FrameOfTop(base: seq<Tag>, tag: Tag)
    ensures FrameOf(base + [tag]) == match tag
      case Class(name) => FrameOf(base).(name := name)
      case Partial => FrameOf(base).(unended := true)
      case Cut => FrameOf(base).(note := true)
      case _ => FrameOf(base)
  {
    assert (base + [tag])[..|base|] == base;
  }

  lemma FrameOfChunk(from: int)
    ensures FrameOf([Chunk(from), Source]) == NO_FRAME
  {
    assert [Chunk(from)] == [] + [Chunk(from)] && [Chunk(from), Source] == [Chunk(from)] + [Source];
    FrameOfTop([], Chunk(from));
    FrameOfTop([Chunk(from)], Source);
  }

  function DiffClass(b: string): string {
    if "diff " <= b || "index " <= b || "+++ " <= b || "--- " <= b then "d-file"
    else if "@@" <= b then "d-hunk"
    else if "+" <= b then "d-add"
    else if "-" <= b then "d-del"
    else ""
  }

  /** The starts of the lines of a diff and their classes; the first that fits counts. */
  const DIFF_CLASSES: seq<(string, string)> := [
    ("diff ", "d-file"), ("index ", "d-file"), ("+++ ", "d-file"), ("--- ", "d-file"),
    ("@@", "d-hunk"), ("+", "d-add"), ("-", "d-del")
  ]

  lemma DiffClassesMean(b: string, k: nat)
    requires k <= 7 && forall j :: 0 <= j < k ==> !(DIFF_CLASSES[j].0 <= b)
    ensures k < 7 && DIFF_CLASSES[k].0 <= b ==> DiffClass(b) == DIFF_CLASSES[k].1
    ensures k == 7 ==> DiffClass(b) == ""
  {
    assert k > 0 ==> !(DIFF_CLASSES[0].0 <= b);
    assert k > 1 ==> !(DIFF_CLASSES[1].0 <= b);
    assert k > 2 ==> !(DIFF_CLASSES[2].0 <= b);
    assert k > 3 ==> !(DIFF_CLASSES[3].0 <= b);
    assert k > 4 ==> !(DIFF_CLASSES[4].0 <= b);
    assert k > 5 ==> !(DIFF_CLASSES[5].0 <= b);
    assert k > 6 ==> !(DIFF_CLASSES[6].0 <= b);
  }

  /** What a line adds: its text, a note of how much was cut, and its end, all in the line's class. */
  function WholeLine(decode: string -> Decoded, b: string, cut: nat, partial: bool, style: Style, name: string)
    : seq<Seen>
    requires IsDecoder(decode)
  {
    In(LineCells(decode, b, style), Frame(name, partial, false))
    + (if cut > 0 then [Seen(Cell(More(cut), PLAIN), Frame(name, partial, true))] else [])
    + (if partial then [] else [Seen(Cell(LineEnd, PLAIN), Frame(name, false, false))])
  }

  /** What a stream shows from the line at p on. A line without its newline is left out when only
      complete lines are wanted. */
  function StreamCells(decode: string -> Decoded, r: string, p: nat, maxLine: nat, onlyDone: bool, diff: bool,
                       style: Style)
    : seq<Seen>
    requires IsDecoder(decode) && p <= |r|
    decreases |r| - p
  {
    var unended := EndOfLine(r, p) == |r|;
    if p == |r| || (unended && onlyDone) then []
    else
      var text := LineText(r, p, maxLine);
      WholeLine(decode, text, Max(EndOfLine(r, p) - p - maxLine, 0), unended, style,
                if diff then DiffClass(text) else "")
      + StreamCells(decode, r, NextLine(r, p), maxLine, onlyDone, diff, LineStyle(decode, text, style))
  }

  function Flat(gutters: seq<seq<int>>): seq<int> {
    if gutters == [] then [] else Flat(gutters[..|gutters| - 1]) + gutters[|gutters| - 1]
  }

  function Range(from: int, count: nat): seq<int> {
    seq(count, i => from + i)
  }

  class LineWriter {
    const decode: string -> Decoded
    const onlyDone: bool
    const diff: bool
    ghost const start: int
    var out: seq<Token>
    var n: int
    var from: int
    var chunk: nat
    var gut: seq<int>
    var color: string
    var bold: bool
    var open: bool
    var done: nat
    var partial: bool
    var marks: nat

    function Current(): Style
      reads `color, `bold
    {
      Style(color, bold)
    }

    ghost function Shows(): Screen
      reads `out
    {
      Read(out)
    }

    /** Inside the elements of base, with at most a painted span in them, which has the current style. */
    ghost predicate Inside(base: seq<Tag>)
      reads `out, `open, `color, `bold, `marks
    {
      && IsDecoder(decode)
      && Shows().ok
      && StyleOf(base) == PLAIN
      && Shows().stack == base + (if open then [Painted(Current())] else [])
      && (open ==> Current() != PLAIN)
      && Shows().marks == Min(marks, MAX_MARKS)
    }

    /** Between lines: everything but the chunk is closed, the gutter has the numbers of its lines,
        and all gutters together have every number once, in order. */
    ghost predicate Between()
      reads this
    {
      && Inside(if chunk == 0 then [] else [Chunk(from), Source])
      && !open
      && gut == Range(n - chunk, chunk)
      && (chunk > 0 ==> from == n - chunk)
      && start <= n
      && Flat(Shows().gutters) + gut == Range(start, n - start)
    }

    ghost predicate Valid()
      reads this
    {
      Between() && chunk < CHUNK_LINES
    }

    constructor (decode: string -> Decoded, n: int, onlyDone: bool, diff: bool)
      requires IsDecoder(decode)
      ensures Valid() && out == [] && chunk == 0 && this.n == n && Current() == PLAIN && !partial && done == 0
      ensures this.decode == decode && this.onlyDone == onlyDone && this.diff == diff
    {
      this.decode, this.n, this.onlyDone, this.diff, start := decode, n, onlyDone, diff, n;
      out, from, chunk, gut, color, bold, open, done, partial, marks := [], 0, 0, [], "", false, false, 0, false, 0;
    }

    method OpenTag(tag: Tag)
      modifies `out
      ensures var p := old(Shows());
        Shows() == p.(stack := p.stack + [tag], marks := p.marks + if tag.Marked? then 1 else 0)
    {
      ReadMore(out, Open(tag));
      out := out + [Open(tag)];
    }

    method ShutTag(ghost base: seq<Tag>, ghost tag: Tag, element: Element)
      requires Shows().stack == base + [tag] && element == ElementOf(tag)
      modifies `out
      ensures Shows() == old(Shows()).(stack := base)
    {
      ReadMore(out, Shut(element));
      out := out + [Shut(element)];
      assert (base + [tag])[..|base|] == base;
    }

    method CloseSpan(ghost base: seq<Tag>)
      requires Inside(base)
      modifies `out, `open
      ensures Inside(base) && !open
      ensures Shows() == old(Shows()).(stack := base)
    {
      hide Read, StyleOf, FrameOf, In, IsDecoder;
      assert base + [] == base;
      if open {
        ShutTag(base, Painted(Current()), Span);
        open := false;
      }
    }

    method Paint(ghost base: seq<Tag>)
      requires Inside(base)
      modifies `out, `open
      ensures Inside(base) && StyleOf(Shows().stack) == Current()
      ensures Shows() == old(Shows()).(stack := Shows().stack)
    {
      hide Read, StyleOf, FrameOf, In, IsDecoder;
      StyleOfTop(base, Painted(Current()));
      assert base + [] == base;
      if open || Current() == PLAIN {
        return;
      }
      open := true;
      OpenTag(Painted(Current()));
    }

    method SetSgr(params: string, ghost base: seq<Tag>)
      requires Inside(base)
      modifies `out, `open, `color, `bold
      ensures Inside(base)
      ensures Current() == Sgr(params, old(Current()))
      ensures Shows() == old(Shows()).(stack := Shows().stack)
    {
      hide Read, StyleOf, FrameOf, In, IsDecoder, Split, Extra, Apply;
      CloseSpan(base);
      var ps := Split(params);
      var i := 0;
      while i < |ps|
        invariant Inside(base) && !open
        invariant ApplyAll(ps, i, Current()) == ApplyAll(ps, 0, old(Current()))
        invariant Shows() == old(Shows()).(stack := base)
      {
        i := ApplyOne(ps, i);
      }
    }

    method ApplyOne(ps: seq<string>, i: nat) returns (next: nat)
      requires i < |ps|
      modifies `color, `bold
      ensures Current() == Apply(ps[i], old(Current())) && next == i + 1 + Extra(ps, i)
    {
      hide Split, Digits;
      next := i;
      var p := ps[i];
      var v := Atoi(p);
      if p != "" && v == None {
      } else if p == "" || v.value == 0 {
        color, bold := "", false;
      } else if v.value == 1 {
        bold := true;
      } else if v.value == 22 {
        bold := false;
      } else if v.value == 39 {
        color := "";
      } else if v.value in {38, 48, 58} {
        if i + 1 < |ps| {
          if ps[i + 1] == "5" {
            next := i + 2;
          } else if ps[i + 1] == "2" {
            next := i + 4;
          }
        }
      } else if Colour(v.value) != "" {
        color := Colour(v.value);
      }
      next := next + 1;
    }

    method Escape(b: string, at: nat, ghost base: seq<Tag>) returns (next: nat)
      requires Inside(base) && at < |b|
      modifies `out, `open, `color, `bold
      ensures Inside(base)
      ensures next == EscapeEnd(decode, b, at)
      ensures Current() == EscapeStyle(b, at, old(Current()))
      ensures Shows() == old(Shows()).(stack := Shows().stack)
    {
      hide Read, StyleOf, FrameOf, In, Split, ApplyAll;
      if |b| - at < 2 {
        return |b|;
      }
      match b[at + 1]
      case '[' =>
        var i := FinalByte(b, at + 2);
        if i < |b| && b[i] == 'm' {
          SetSgr(b[at + 2..i], base);
        }
        return Min(i + 1, |b|);
      case ']' =>
        return CommandEnd(b, at + 2);
      case c =>
        if c in "()*+#%" {
          return Min(at + 3, |b|);
        }
        assert b[at + 1..] != "";
        return at + 1 + decode(b[at + 1..]).size;
    }

    method Put(t: Token)
      requires !t.Open? && !t.Shut?
      modifies `out
      ensures Shows() == Step(old(Shows()), t)
      ensures Shows().stack == old(Shows().stack) && Shows().marks == old(Shows().marks)
    {
      ReadMore(out, t);
      out := out + [t];
    }

    /** A painted span does not change the frame. */
    lemma FrameInside(base: seq<Tag>)
      requires Inside(base)
      ensures FrameOf(Shows().stack) == FrameOf(base)
    {
      hide Read, StyleOf, FrameOf, In, IsDecoder;
      assert base + [] == base;
      FrameOfTop(base, Painted(Current()));
    }

    /** A control character is shown by its symbol, marked while there are not too many marks. */
    method Ctl(code: int, ghost base: seq<Tag>)
      requires Inside(base) && StyleOf(Shows().stack) == Current()
      modifies `out, `marks
      ensures Inside(base)
      ensures Shows() ==
        old(Shows()).(shown := old(Shows().shown) + [Seen(Cell(Control(code), Current()), FrameOf(base))],
                      marks := Shows().marks)
    {
      hide Read, StyleOf, FrameOf, In, IsDecoder;
      ghost var stack := Shows().stack;
      FrameInside(base);
      var marked := marks < MAX_MARKS;
      marks := marks + 1;
      StyleOfTop(stack, Marked(code));
      FrameOfTop(stack, Marked(code));
      if marked {
        OpenTag(Marked(code));
      }
      Put(Symbol(code));
      if marked {
        ShutTag(stack, Marked(code), Span);
      }
    }

    /** One character that is not an escape. */
    method Wide(b: string, at: nat, ghost base: seq<Tag>) returns (next: nat)
      requires Inside(base) && StyleOf(Shows().stack) == Current()
      requires at < |b| && b[at] >= '\U{80}'
      modifies `out, `marks
      ensures Inside(base) && next == at + GlyphSize(decode, b, at)
      ensures Shows() == old(Shows()).(
        shown := old(Shows().shown) + [Seen(Cell(GlyphAt(decode, b, at), Current()), FrameOf(base))],
        marks := Shows().marks)
    {
      hide Read, StyleOf, FrameOf, In, IsDecoder, Bidi, CharCells, PlainByte;
      FrameInside(base);
      var d := decode(b[at..]);
      next := at + GlyphSize(decode, b, at);
      if d.code == 0xFFFD && d.size == 1 {
        Put(Replacement);
      } else if 0x80 <= d.code <= 0x9f {
        Ctl(d.code, base);
      } else if Bidi(d.code) {
        Ctl(d.code, base);
      } else {
        Put(Encoded(b[at..next]));
      }
    }

    /** One character that is not an escape, or a run of plain ones. */
    method Character(b: string, at: nat, ghost base: seq<Tag>) returns (next: nat)
      requires Inside(base) && StyleOf(Shows().stack) == Current()
      requires at < |b| && b[at] != ESC
      modifies `out, `marks
      ensures Inside(base) && at < next <= |b|
      ensures Shows() == old(Shows()).(shown := Shows().shown, marks := Shows().marks)
      ensures Shows().shown + In(Scan(decode, b, next, Current()), FrameOf(base))
        == old(Shows().shown) + In(Scan(decode, b, at, Current()), FrameOf(base))
      ensures ScanStyle(decode, b, next, Current()) == ScanStyle(decode, b, at, Current())
    {
      hide Read, StyleOf, FrameOf, In, IsDecoder, Scan, ScanStyle, CharCells;
      if b[at] < '\U{80}' && !ControlByte(b[at]) {
        next := PlainEnd(b, at);
        if next > at {
          Run(b, at, next, base);
          return;
        }
      }
      next := One(b, at, base);
      ScanGlyph(decode, b, at, Current());
      InFirst(Cell(GlyphAt(decode, b, at), Current()), Scan(decode, b, next, Current()), FrameOf(base));
    }

    /** A run of plain characters. */
    method Run(b: string, at: nat, next: nat, ghost base: seq<Tag>)
      requires Inside(base) && StyleOf(Shows().stack) == Current()
      requires at <= next <= |b| && forall j :: at <= j < next ==> PlainByte(b[j])
      modifies `out
      ensures Inside(base)
      ensures Shows() == old(Shows()).(shown := Shows().shown)
      ensures Shows().shown + In(Scan(decode, b, next, Current()), FrameOf(base))
        == old(Shows().shown) + In(Scan(decode, b, at, Current()), FrameOf(base))
      ensures ScanStyle(decode, b, next, Current()) == ScanStyle(decode, b, at, Current())
    {
      hide Read, StyleOf, FrameOf, In, IsDecoder, Scan, ScanStyle, CharCells, PlainByte;
      FrameInside(base);
      PlainRun(decode, b, at, next, Current());
      InConcat(CharCells(b[at..next], Current()), Scan(decode, b, next, Current()), FrameOf(base));
      Put(Plain(b[at..next]));
    }

    /** One character that is not plain. */
    method One(b: string, at: nat, ghost base: seq<Tag>) returns (next: nat)
      requires Inside(base) && StyleOf(Shows().stack) == Current()
      requires at < |b| && b[at] != ESC
      modifies `out, `marks
      ensures Inside(base) && next == at + GlyphSize(decode, b, at)
      ensures Shows() == old(Shows()).(
        shown := old(Shows().shown) + [Seen(Cell(GlyphAt(decode, b, at), Current()), FrameOf(base))],
        marks := Shows().marks)
    {
      hide Read, StyleOf, FrameOf, In, IsDecoder, CharCells;
      var c := b[at];
      FrameInside(base);
      if ControlByte(c) {
        Ctl(c as int, base);
        return at + 1;
      }
      if c < '\U{80}' {
        Put(Escaped(c));
        return at + 1;
      }
      next := Wide(b, at, base);
    }

    method Text(line: string, ghost base: seq<Tag>)
      requires Inside(base)
      modifies `out, `open, `color, `bold, `marks
      ensures Inside(base)
      ensures Shows() == old(Shows()).(
        shown := old(Shows().shown) + In(LineCells(decode, line, old(Current())), FrameOf(base)),
        stack := Shows().stack, marks := Shows().marks)
      ensures Current() == LineStyle(decode, line, old(Current()))
    {
      hide Read, StyleOf, FrameOf, In, IsDecoder, Scan, ScanStyle, EscapeStyle, EscapeEnd;
      var b := line;
      var i := LastReturn(b, |b|);
      if i >= 0 {
        Track(b[..i], base);
        b := b[i + 1..];
      }
      ghost var style := Current();
      var at := 0;
      while at < |b|
        invariant 0 <= at <= |b| && Inside(base)
        invariant Shows() == old(Shows()).(shown := Shows().shown, stack := Shows().stack, marks := Shows().marks)
        invariant Shows().shown + In(Scan(decode, b, at, Current()), FrameOf(base))
          == old(Shows().shown) + In(Scan(decode, b, 0, style), FrameOf(base))
        invariant ScanStyle(decode, b, at, Current()) == ScanStyle(decode, b, 0, style)
      {
        if b[at] == ESC {
          ScanEscape(decode, b, at, Current());
          at := Escape(b, at, base);
        } else {
          Paint(base);
          at := Character(b, at, base);
        }
      }
      ScanEnd(decode, b, Current());
    }

    /** The hidden part of a line still sets the style. */
    method Track(b: string, ghost base: seq<Tag>)
      requires Inside(base)
      modifies `out, `open, `color, `bold
      ensures Inside(base)
      ensures Shows() == old(Shows()).(stack := Shows().stack)
      ensures Current() == ScanStyle(decode, b, 0, old(Current()))
    {
      hide Read, StyleOf, FrameOf, In, IsDecoder, Scan, ScanStyle, EscapeStyle, EscapeEnd;
      var at := 0;
      while at < |b|
        invariant 0 <= at <= |b| && Inside(base)
        invariant Shows() == old(Shows()).(stack := Shows().stack)
        invariant ScanStyle(decode, b, at, Current()) == ScanStyle(decode, b, 0, old(Current()))
      {
        var i := IndexFrom(b, ESC, at);
        JumpsAreScans(decode, b, at, Current());
        if i == |b| {
          ScanEnd(decode, b, Current());
          return;
        }
        ScanEscape(decode, b, i, Current());
        at := Escape(b, i, base);
      }
      ScanEnd(decode, b, Current());
    }

    /** Every element opened for the line is closed at its end; the chunk stays open for the next
        lines until it is full. */
    method Line(b: string, cut: nat, unended: bool)
      requires Valid()
      modifies `out, `n, `from, `chunk, `gut, `color, `bold, `open, `marks
      ensures Valid() && n == old(n) + 1
      ensures chunk == (old(chunk) + 1) % CHUNK_LINES
      ensures Shows().shown
        == old(Shows().shown) + WholeLine(decode, b, cut, unended, old(Current()), if diff then DiffClass(b) else "")
      ensures Current() == LineStyle(decode, b, old(Current()))
    {
      hide Read, StyleOf, FrameOf, In, IsDecoder, LineCells, LineStyle, Range, Flat, WholeLine;
      if chunk == 0 {
        StartChunk();
      }
      FrameOfChunk(from);
      Body(b, cut, unended, [Chunk(from), Source]);
      Number();
      if chunk == CHUNK_LINES {
        Close();
      }
    }

    method Body(b: string, cut: nat, unended: bool, ghost outer: seq<Tag>)
      requires Inside(outer) && !open && FrameOf(outer) == NO_FRAME
      modifies `out, `color, `bold, `open, `marks
      ensures Inside(outer) && !open && Shows().gutters == old(Shows().gutters)
      ensures Shows().shown
        == old(Shows().shown) + WholeLine(decode, b, cut, unended, old(Current()), if diff then DiffClass(b) else "")
      ensures Current() == LineStyle(decode, b, old(Current()))
    {
      hide Read, StyleOf, FrameOf, In, IsDecoder, LineCells, LineStyle;
      var kind := if diff then DiffClass(b) else "";
      ghost var inner := Enter(kind, unended, outer);
      Text(b, inner);
      CloseSpan(inner);
      if cut > 0 {
        Cutting(cut, inner);
      }
      Leave(kind, unended, outer, inner);
    }

    method Number()
      requires Inside([Chunk(from), Source]) && !open && chunk < CHUNK_LINES && from == n - chunk
      requires gut == Range(n - chunk, chunk)
      requires start <= n && Flat(Shows().gutters) + gut == Range(start, n - start)
      modifies `n, `chunk, `gut
      ensures Between() && n == old(n) + 1 && chunk == old(chunk) + 1
    {
      hide Inside, Read, Flat, Range;
      RangeMore(n - chunk, chunk);
      RangeMore(start, n - start);
      assert Flat(Shows().gutters) + (gut + [n]) == Flat(Shows().gutters) + gut + [n];
      gut := gut + [n];
      n := n + 1;
      chunk := chunk + 1;
    }

    /** A whole stream: everything opened is closed, each character is shown in its style, every
        line has its number, and done is the end of the last complete line. */
    method Stream(r: string, maxLine: nat) returns (used: nat)
      requires Valid()
      modifies `out, `n, `from, `chunk, `gut, `color, `bold, `open, `marks, `done, `partial
      ensures Valid() && Shows().ok && Shows().stack == [] && used == |r|
      ensures Shows().shown == old(Shows().shown) + StreamCells(decode, r, 0, maxLine, onlyDone, diff, old(Current()))
      ensures Flat(Shows().gutters) == Range(start, n - start)
      ensures r != "" ==> partial == (r[|r| - 1] != '\n')
      ensures n == old(n) + Count(r, 0, |r|) + if r != "" && partial && !onlyDone then 1 else 0
      ensures done == if LastNewline(r, 0, |r|) >= 0 then LastNewline(r, 0, |r|) + 1 else old(done)
    {
      hide Read, StyleOf, FrameOf, In, IsDecoder, Range, Flat, Count, LastNewline, StreamCells, EndOfLine, NextLine;
      used := 0;
      CountNone(r, 0, 0);
      while true
        invariant Valid() && used <= |r| && (used == 0 || r[used - 1] == '\n')
        invariant Shows().shown + StreamCells(decode, r, used, maxLine, onlyDone, diff, Current())
               == old(Shows().shown) + StreamCells(decode, r, 0, maxLine, onlyDone, diff, old(Current()))
        invariant n == old(n) + Count(r, 0, used)
        invariant done == if used == 0 then old(done) else used
        invariant used > 0 ==> !partial
        decreases |r| - used
      {
        StreamEnds(r, used);
        var ended;
        used, ended := NextOf(r, used, maxLine);
        if !ended {
          Close();
          return;
        }
      }
    }

    method NextOf(r: string, used: nat, maxLine: nat) returns (next: nat, ended: bool)
      requires Valid() && used <= |r|
      modifies `out, `n, `from, `chunk, `gut, `color, `bold, `open, `marks, `done, `partial
      ensures Valid() && next == NextLine(r, used) && ended == (EndOfLine(r, used) < |r|)
      ensures Shows().shown + (if ended then StreamCells(decode, r, next, maxLine, onlyDone, diff, Current()) else [])
              == old(Shows().shown) + StreamCells(decode, r, used, maxLine, onlyDone, diff, old(Current()))
      ensures n == old(n) + if ended || (used < |r| && !onlyDone) then 1 else 0
      ensures done == if ended then next else old(done)
      ensures partial == if used < |r| then !ended else old(partial)
    {
      hide Read, StyleOf, FrameOf, In, IsDecoder, WholeLine, LineStyle, LineText, Range, Flat, EndOfLine, NextLine,
        StreamCells;
      StreamStep(decode, r, used, maxLine, onlyDone, diff, Current());
      var l := ReadLine(r, used, READ_BUFFER, maxLine);
      next, ended := used + l.read, l.ended;
      if l.read > 0 {
        partial := !l.ended;
        if l.ended {
          done := next;
        }
        if l.ended || !onlyDone {
          Line(l.text, l.cut, !l.ended);
        }
      }
    }

    method StartChunk()
      requires Valid() && chunk == 0
      modifies `out, `from
      ensures Inside([Chunk(from), Source]) && from == n
      ensures Shows() == old(Shows()).(stack := Shows().stack)
    {
      hide Read, StyleOf, FrameOf, In, IsDecoder, Range;
      from := n;
      StyleOfNothing();
      assert [] + [Chunk(from)] == [Chunk(from)] && [Chunk(from)] + [Source] == [Chunk(from), Source];
      StyleOfTop([], Chunk(from));
      StyleOfTop([Chunk(from)], Source);
      OpenTag(Chunk(n));
      OpenTag(Source);
      assert Shows().stack == [Chunk(from), Source] == [Chunk(from), Source] + [];
    }

    method Enter(kind: string, unended: bool, ghost outer: seq<Tag>) returns (ghost inner: seq<Tag>)
      requires Inside(outer) && !open
      modifies `out
      ensures inner == outer + (if kind != "" then [Class(kind)] else []) + (if unended then [Partial] else [])
      ensures Inside(inner) && (FrameOf(outer) == NO_FRAME ==> FrameOf(inner) == Frame(kind, unended, false))
      ensures Shows() == old(Shows()).(stack := inner)
    {
      hide Read, StyleOf, FrameOf, In, IsDecoder;
      inner := outer;
      assert outer + [] == outer;
      if kind != "" {
        StyleOfTop(inner, Class(kind));
        FrameOfTop(inner, Class(kind));
        OpenTag(Class(kind));
        inner := inner + [Class(kind)];
      }
      if unended {
        StyleOfTop(inner, Partial);
        FrameOfTop(inner, Partial);
        OpenTag(Partial);
        inner := inner + [Partial];
      }
    }

    method Cutting(cut: nat, ghost base: seq<Tag>)
      requires Inside(base) && !open
      modifies `out
      ensures Inside(base)
      ensures Shows() == old(Shows()).(
        shown := old(Shows().shown) + [Seen(Cell(More(cut), PLAIN), FrameOf(base).(note := true))])
    {
      hide Read, StyleOf, FrameOf, In, IsDecoder;
      assert base + [] == base;
      StyleOfTop(base, Cut);
      FrameOfTop(base, Cut);
      OpenTag(Cut);
      Put(CutNote(cut));
      ShutTag(base, Cut, Span);
    }

    method Leave(kind: string, unended: bool, ghost outer: seq<Tag>, ghost inner: seq<Tag>)
      requires Inside(inner) && !open && StyleOf(outer) == PLAIN
      requires inner == outer + (if kind != "" then [Class(kind)] else []) + (if unended then [Partial] else [])
      modifies `out
      ensures Inside(outer)
      ensures Shows() == old(Shows()).(stack := outer,
                                       shown := old(Shows().shown)
                                         + if unended then [] else [Seen(Cell(LineEnd, PLAIN), FrameOf(inner))])
    {
      hide Read, StyleOf, FrameOf, In, IsDecoder;
      assert inner + [] == inner && outer + [] == outer;
      ghost var middle := outer + if kind != "" then [Class(kind)] else [];
      assert middle + [] == middle;
      if unended {
        ShutTag(middle, Partial, Span);
      } else {
        Put(NewLine);
      }
      if kind != "" {
        ShutTag(outer, Class(kind), Span);
      }
    }

    method Close()
      requires Between()
      modifies `out, `chunk, `gut
      ensures Valid() && chunk == 0 && Shows().ok && Shows().stack == []
      ensures Flat(Shows().gutters) == Range(start, n - start)
      ensures Shows().shown == old(Shows().shown)
    {
      hide Read, StyleOf, FrameOf, In, IsDecoder, Range, Flat;
      StyleOfNothing();
      if chunk == 0 {
        return;
      }
      ghost var base := [Chunk(from), Source];
      assert base + [] == base == [Chunk(from)] + [Source] && [Chunk(from)] == [] + [Chunk(from)];
      FlatMore(Shows().gutters, gut);
      ShutTag([Chunk(from)], Source, Pre);
      OpenTag(Gutter);
      Put(Numbers(gut));
      ShutTag([Chunk(from)], Gutter, Pre);
      ShutTag([], Chunk(from), Div);
      gut := [];
      chunk := 0;
    }
  }

  lemma StreamStep(decode: string -> Decoded, r: string, p: nat, maxLine: nat, onlyDone: bool, diff: bool, style: Style)
    requires IsDecoder(decode) && p <= |r|
    ensures p <= EndOfLine(r, p) <= |r| && (NextLine(r, p) == p <==> p == |r|)
    ensures var text := LineText(r, p, maxLine);
      var line := WholeLine(decode, text, Max(EndOfLine(r, p) - p - maxLine, 0), EndOfLine(r, p) == |r|, style,
                            if diff then DiffClass(text) else "");
      StreamCells(decode, r, p, maxLine, onlyDone, diff, style)
      == if EndOfLine(r, p) < |r|
         then line + StreamCells(decode, r, NextLine(r, p), maxLine, onlyDone, diff, LineStyle(decode, text, style))
         else if p == |r| || onlyDone then [] else line
  {
    hide WholeLine, LineText, LineStyle, IsDecoder;
  }

  lemma StreamEnds(r: string, p: nat)
    requires p <= |r| && (p == 0 || r[p - 1] == '\n')
    ensures var e := EndOfLine(r, p);
      if e < |r| then
        p < NextLine(r, p) <= |r| && r[NextLine(r, p) - 1] == '\n' && Count(r, 0, NextLine(r, p)) == Count(r, 0, p) + 1
      else
        && NextLine(r, p) == |r|
        && Count(r, 0, |r|) == Count(r, 0, p)
        && LastNewline(r, 0, |r|) == p - 1
        && (p < |r| ==> r[|r| - 1] != '\n')
  {
    var e := EndOfLine(r, p);
    CountNone(r, p, e);
    CountSplits(r, 0, p, e);
    if e < |r| {
      CountSplits(r, 0, e, e + 1);
    }
  }

  lemma FlatMore(gutters: seq<seq<int>>, gut: seq<int>)
    ensures Flat(gutters + [gut]) == Flat(gutters) + gut == Flat(gutters + [gut]) + []
  {
    assert (gutters + [gut])[..|gutters|] == gutters;
  }

  lemma StyleOfNothing()
    ensures StyleOf([]) == PLAIN
    ensures var none: seq<Tag> := []; none + none == none
    ensures forall n :: Range(n, 0) == []
    ensures forall gutters :: Flat(gutters) + [] == Flat(gutters)
  {
  }

  lemma RangeMore(from: int, count: nat)
    ensures Range(from, count + 1) == Range(from, count) + [from + count]
  {
  }

  lemma ScanEscape(decode: string -> Decoded, b: string, at: nat, style: Style)
    requires IsDecoder(decode) && at < |b| && b[at] == ESC
    ensures Scan(decode, b, at, style) == Scan(decode, b, EscapeEnd(decode, b, at), EscapeStyle(b, at, style))
    ensures ScanStyle(decode, b, at, style) == ScanStyle(decode, b, EscapeEnd(decode, b, at), EscapeStyle(b, at, style))
  {
  }

  lemma ScanEnd(decode: string -> Decoded, b: string, style: Style)
    requires IsDecoder(decode)
    ensures Scan(decode, b, |b|, style) == [] && ScanStyle(decode, b, |b|, style) == style
  {
  }

  lemma ScanGlyph(decode: string -> Decoded, b: string, at: nat, style: Style)
    requires IsDecoder(decode) && at < |b| && b[at] != ESC
    ensures Scan(decode, b, at, style)
            == [Cell(GlyphAt(decode, b, at), style)] + Scan(decode, b, at + GlyphSize(decode, b, at), style)
    ensures ScanStyle(decode, b, at, style) == ScanStyle(decode, b, at + GlyphSize(decode, b, at), style)
  {
  }

  function PlainEnd(b: string, i: nat): (k: nat)
    requires i <= |b|
    ensures i <= k <= |b| && forall j :: i <= j < k ==> PlainByte(b[j])
    decreases |b| - i
  {
    if i < |b| && PlainByte(b[i]) then PlainEnd(b, i + 1) else i
  }

  lemma {:induction false} PlainRun(decode: string -> Decoded, b: string, at: nat, next: nat, style: Style)
    requires IsDecoder(decode) && at <= next <= |b| && forall j :: at <= j < next ==> PlainByte(b[j])
    ensures Scan(decode, b, at, style) == CharCells(b[at..next], style) + Scan(decode, b, next, style)
    ensures ScanStyle(decode, b, at, style) == ScanStyle(decode, b, next, style)
    decreases next - at
  {
    hide Scan, ScanStyle, IsDecoder;
    if at < next {
      PlainRun(decode, b, at + 1, next, style);
      assert b[at..next][1..] == b[at + 1..next];
      ScanGlyph(decode, b, at, style);
    } else {
      assert b[at..next] == "";
    }
  }
}
