/** The function patterns of a symbol (finders, timing, alignment, format and version bits), the
    data masks, and the values a grid of modules takes when they are drawn
    (sections 6.3, 7.8, 7.9 and 7.10 of ISO/IEC 18004:2015). */
module QrPatterns {
  import opened Basics
  import opened QrPath
  import opened QrData

  /** The modules of a symbol: true is dark. */
  type Grid = imap<Pos, bool>

  function SizeOf(v: nat): nat {
    17 + 4 * v
  }

  // ----- format and version words -----

  /** rem<<1 ^ (rem>>top)*poly on a register of bits, highest first: the bit shifted out selects
      whether the low bits of the generator are added. */
  function Clock(register: seq<bool>, poly: seq<bool>): (next: seq<bool>)
    requires |register| == |poly| > 0
    ensures |next| == |poly|
  {
    seq(|poly|, i requires 0 <= i < |poly| =>
      (i + 1 < |poly| && register[i + 1]) != (register[0] && poly[i]))
  }

  function ShiftRegister(start: seq<bool>, poly: seq<bool>, rounds: nat): (register: seq<bool>)
    requires |start| == |poly| > 0
    ensures |register| == |poly|
  {
    if rounds == 0 then start else Clock(ShiftRegister(start, poly, rounds - 1), poly)
  }

  /** The low ten bits of 0x537 and the low twelve bits of 0x1F25. */
  const FORMAT_POLY := [false, true, false, false, true, true, false, true, true, true]
  const VERSION_POLY := [true, true, true, true, false, false, true, false, false, true, false, true]

  /** 0x5412 */
  const FORMAT_XOR := [
    true, false, true, false, true, false, false, false, false, false, true, false, false, true, false
  ]

  /** The fifteen format bits, highest first: five data bits (level M and the mask) and ten check
      bits, under the fixed exclusive-or. */
  function FormatWord(mask: nat): (word: seq<bool>)
    ensures |word| == 15
  {
    var plain := NatBits(mask, 5) + ShiftRegister(NatBits(mask, 10), FORMAT_POLY, 10);
    seq(15, i requires 0 <= i < 15 => plain[i] != FORMAT_XOR[i])
  }

  /** The eighteen version bits, highest first. */
  function VersionWord(v: nat): (word: seq<bool>)
    ensures |word| == 18
  {
    NatBits(v, 6) + ShiftRegister(NatBits(v, 12), VERSION_POLY, 12)
  }

  method QrFormatWord(mask: nat) returns (word: seq<bool>)
    ensures word == FormatWord(mask)
  {
    hide ShiftRegister, NatBits, Clock;
    var rem := ClockRounds(NatBits(mask, 10), FORMAT_POLY, 10);
    var plain := NatBits(mask, 5) + rem;
    word := seq(15, i requires 0 <= i < 15 => plain[i] != FORMAT_XOR[i]);
  }

  method ClockRounds(start: seq<bool>, poly: seq<bool>, rounds: nat) returns (rem: seq<bool>)
    requires |start| == |poly| > 0
    ensures rem == ShiftRegister(start, poly, rounds)
  {
    rem := start;
    for k := 0 to rounds
      invariant rem == ShiftRegister(start, poly, k)
    {
      rem := Clock(rem, poly);
    }
  }

  function ReadMask(bit12: bool, bit11: bool, bit10: bool): (mask: nat)
    ensures mask < 8
  {
    (if bit12 then 0 else 4) + (if bit11 then 2 else 0) + (if bit10 then 0 else 1)
  }

  /** Bits 12 to 10 of the format word give the mask back. */
  lemma MaskFromFormat(mask: nat)
    requires mask < 8
    ensures var word := FormatWord(mask); ReadMask(word[2], word[3], word[4]) == mask
  {
    hide ShiftRegister, NatBits;
    NatBitsAt(mask, 5, 2);
    NatBitsAt(mask, 5, 3);
    NatBitsAt(mask, 5, 4);
    assert ShiftRight(mask, 0) == mask && ShiftRight(mask, 1) == mask / 2 && ShiftRight(mask, 2) == mask / 2 / 2;
  }

  // ----- patterns -----

  function Abs(a: int): nat {
    if a < 0 then -a else a
  }

  function Ring(p: Pos, cx: int, cy: int): nat {
    if Abs(p.x - cx) > Abs(p.y - cy) then Abs(p.x - cx) else Abs(p.y - cy)
  }

  /** A drawing that fixes the colour of some modules. */
  datatype Pattern =
    | Timing
    | Finder(cx: int, cy: int)
    | Alignment(cx: int, cy: int)
    | Format(mask: nat)
    | Version(v: nat)
  {
    /** The colour given to module p of a symbol of size n, if any. */
    function At(n: nat, p: Pos): Option<bool> {
      match this
      case Timing =>
        if p.x == 6 then Some(p.y % 2 == 0) else if p.y == 6 then Some(p.x % 2 == 0) else None
      case Finder(cx, cy) =>
        var ring := Ring(p, cx, cy);
        if ring <= 4 then Some(ring != 2 && ring != 4) else None
      case Alignment(cx, cy) =>
        var ring := Ring(p, cx, cy);
        if ring <= 2 then Some(ring != 1) else None
      case Format(mask) =>
        if p == Pos(8, n - 8) then Some(true)
        else
          var i := FormatIndex(n, p);
          if 0 <= i < 15 then Some(FormatWord(mask)[14 - i]) else None
      case Version(v) =>
        var i := VersionIndex(n, p);
        if 0 <= i < 18 then Some(VersionWord(v)[17 - i]) else None
    }
  }

  /** Which format bit module p shows, or -1. */
  function FormatIndex(n: nat, p: Pos): int {
    if p.x == 8 && 0 <= p.y < 6 then p.y
    else if p == Pos(8, 7) then 6
    else if p == Pos(8, 8) then 7
    else if p == Pos(7, 8) then 8
    else if p.y == 8 && 0 <= p.x < 6 then 14 - p.x
    else if p.y == 8 && n - 8 <= p.x < n then n - 1 - p.x
    else if p.x == 8 && n - 7 <= p.y < n then p.y + 15 - n
    else -1
  }

  /** Which version bit module p shows, or -1. */
  function VersionIndex(n: nat, p: Pos): int {
    if n - 11 <= p.x < n - 8 && 0 <= p.y < 6 then 3 * p.y + (p.x - (n - 11))
    else if n - 11 <= p.y < n - 8 && 0 <= p.x < 6 then 3 * p.x + (p.y - (n - 11))
    else -1
  }

  const ALIGN: seq<seq<int>> :=
    [[], [], [6, 18], [6, 22], [6, 26], [6, 30], [6, 34], [6, 22, 38], [6, 24, 42], [6, 26, 46], [6, 28, 50]]

  /** The grid positions (i, j) that carry an alignment pattern: all but the three finder corners. */
  predicate HasAlignment(count: nat, i: nat, j: nat) {
    !((i == 0 && j == 0) || (i == 0 && j == count - 1) || (i == count - 1 && j == 0))
  }

  /** Alignment patterns of the first k grid positions, row by row. */
  function Alignments(pos: seq<int>, i: nat, j: nat): seq<Pattern>
    requires i <= |pos| && j <= |pos|
    decreases i, j
  {
    if j > 0 then
      Alignments(pos, i, j - 1) +
      (if i < |pos| && HasAlignment(|pos|, i, j - 1) then [Alignment(pos[j - 1], pos[i])] else [])
    else if i > 0 then Alignments(pos, i - 1, |pos|)
    else []
  }

  /** The patterns of version v in drawing order. */
  function Patterns(v: nat): seq<Pattern>
    requires IsVersion(v)
  {
    var n := SizeOf(v);
    [Timing, Finder(3, 3), Finder(n - 4, 3), Finder(3, n - 4)]
    + Alignments(ALIGN[v], |ALIGN[v]|, 0)
    + [Format(0)]
    + (if v >= 7 then [Version(v)] else [])
  }

  // ----- drawing on a grid -----

  ghost function Painted(g: Grid, n: nat, pattern: Pattern): Grid {
    imap p | p in g :: match pattern.At(n, p) case Some(dark) => dark case None => g[p]
  }

  ghost function Cells(n: nat, pattern: Pattern): iset<Pos> {
    iset p | InGrid(n, p) && pattern.At(n, p).Some?
  }

  ghost function PaintedAll(g: Grid, n: nat, patterns: seq<Pattern>): Grid {
    if patterns == [] then g
    else Painted(PaintedAll(g, n, patterns[..|patterns| - 1]), n, patterns[|patterns| - 1])
  }

  ghost function CellsAll(n: nat, patterns: seq<Pattern>): iset<Pos> {
    iset p | InGrid(n, p) && exists k :: 0 <= k < |patterns| && patterns[k].At(n, p).Some?
  }

  // ----- masks -----

  /** The eight data masks. */
  predicate Flips(mask: nat, p: Pos)
    requires p.x >= 0 && p.y >= 0
  {
    var x, y := p.x, p.y;
    match mask
    case 0 => (x + y) % 2 == 0
    case 1 => y % 2 == 0
    case 2 => x % 3 == 0
    case 3 => (x + y) % 3 == 0
    case 4 => (x / 3 + y / 2) % 2 == 0
    case 5 => x * y % 2 + x * y % 3 == 0
    case 6 => (x * y % 2 + x * y % 3) % 2 == 0
    case _ => ((x + y) % 2 + x * y % 3) % 2 == 0
  }

  ghost function Masked(g: Grid, reserve: iset<Pos>, mask: nat): Grid {
    imap p | p in g :: if p in reserve || p.x < 0 || p.y < 0 then g[p] else g[p] != Flips(mask, p)
  }

  /** Masking twice changes nothing. */
  lemma MaskTwice(g: Grid, reserve: iset<Pos>, mask: nat)
    ensures Masked(Masked(g, reserve, mask), reserve, mask) == g
  {
    hide Flips;
  }

  /** The matrix of one trial: the masked data with the format bits of that mask. */
  ghost function Finished(g: Grid, n: nat, reserve: iset<Pos>, mask: nat): Grid {
    Painted(Masked(g, reserve, mask), n, Format(mask))
  }
}
