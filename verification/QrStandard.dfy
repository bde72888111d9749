/** Pictures and words that ISO/IEC 18004:2015 prints, as they are printed there: what a reader of
    symbols goes by, whatever the encoder computes. */
module QrStandard {
  import opened QrPath

  // ----- the data masks, section 7.8.2: row y of twelve, repeated over the symbol -----

  function Mask0(y: nat): (row: string)
    ensures |row| == 12
  {
    match y
    case 0 => "#.#.#.#.#.#."
    case 1 => ".#.#.#.#.#.#"
    case 2 => "#.#.#.#.#.#."
    case 3 => ".#.#.#.#.#.#"
    case 4 => "#.#.#.#.#.#."
    case 5 => ".#.#.#.#.#.#"
    case 6 => "#.#.#.#.#.#."
    case 7 => ".#.#.#.#.#.#"
    case 8 => "#.#.#.#.#.#."
    case 9 => ".#.#.#.#.#.#"
    case 10 => "#.#.#.#.#.#."
    case _ => ".#.#.#.#.#.#"
  }

  function Mask1(y: nat): (row: string)
    ensures |row| == 12
  {
    match y
    case 0 => "############"
    case 1 => "............"
    case 2 => "############"
    case 3 => "............"
    case 4 => "############"
    case 5 => "............"
    case 6 => "############"
    case 7 => "............"
    case 8 => "############"
    case 9 => "............"
    case 10 => "############"
    case _ => "............"
  }

  function Mask2(y: nat): (row: string)
    ensures |row| == 12
  {
    match y
    case 0 => "#..#..#..#.."
    case 1 => "#..#..#..#.."
    case 2 => "#..#..#..#.."
    case 3 => "#..#..#..#.."
    case 4 => "#..#..#..#.."
    case 5 => "#..#..#..#.."
    case 6 => "#..#..#..#.."
    case 7 => "#..#..#..#.."
    case 8 => "#..#..#..#.."
    case 9 => "#..#..#..#.."
    case 10 => "#..#..#..#.."
    case _ => "#..#..#..#.."
  }

  function Mask3(y: nat): (row: string)
    ensures |row| == 12
  {
    match y
    case 0 => "#..#..#..#.."
    case 1 => "..#..#..#..#"
    case 2 => ".#..#..#..#."
    case 3 => "#..#..#..#.."
    case 4 => "..#..#..#..#"
    case 5 => ".#..#..#..#."
    case 6 => "#..#..#..#.."
    case 7 => "..#..#..#..#"
    case 8 => ".#..#..#..#."
    case 9 => "#..#..#..#.."
    case 10 => "..#..#..#..#"
    case _ => ".#..#..#..#."
  }

  function Mask4(y: nat): (row: string)
    ensures |row| == 12
  {
    match y
    case 0 => "###...###..."
    case 1 => "###...###..."
    case 2 => "...###...###"
    case 3 => "...###...###"
    case 4 => "###...###..."
    case 5 => "###...###..."
    case 6 => "...###...###"
    case 7 => "...###...###"
    case 8 => "###...###..."
    case 9 => "###...###..."
    case 10 => "...###...###"
    case _ => "...###...###"
  }

  function Mask5(y: nat): (row: string)
    ensures |row| == 12
  {
    match y
    case 0 => "############"
    case 1 => "#.....#....."
    case 2 => "#..#..#..#.."
    case 3 => "#.#.#.#.#.#."
    case 4 => "#..#..#..#.."
    case 5 => "#.....#....."
    case 6 => "############"
    case 7 => "#.....#....."
    case 8 => "#..#..#..#.."
    case 9 => "#.#.#.#.#.#."
    case 10 => "#..#..#..#.."
    case _ => "#.....#....."
  }

  function Mask6(y: nat): (row: string)
    ensures |row| == 12
  {
    match y
    case 0 => "############"
    case 1 => "###...###..."
    case 2 => "##.##.##.##."
    case 3 => "#.#.#.#.#.#."
    case 4 => "#.##.##.##.#"
    case 5 => "#...###...##"
    case 6 => "############"
    case 7 => "###...###..."
    case 8 => "##.##.##.##."
    case 9 => "#.#.#.#.#.#."
    case 10 => "#.##.##.##.#"
    case _ => "#...###...##"
  }

  function Mask7(y: nat): (row: string)
    ensures |row| == 12
  {
    match y
    case 0 => "#.#.#.#.#.#."
    case 1 => "...###...###"
    case 2 => "#...###...##"
    case 3 => ".#.#.#.#.#.#"
    case 4 => "###...###..."
    case 5 => ".###...###.."
    case 6 => "#.#.#.#.#.#."
    case 7 => "...###...###"
    case 8 => "#...###...##"
    case 9 => ".#.#.#.#.#.#"
    case 10 => "###...###..."
    case _ => ".###...###.."
  }

  function MaskPicture(mask: nat, y: nat): (row: string)
    ensures |row| == 12
  {
    match mask
    case 0 => Mask0(y)
    case 1 => Mask1(y)
    case 2 => Mask2(y)
    case 3 => Mask3(y)
    case 4 => Mask4(y)
    case 5 => Mask5(y)
    case 6 => Mask6(y)
    case _ => Mask7(y)
  }

  /** The mask reverses the module at p. */
  predicate MaskIsDark(mask: nat, p: Pos)
    requires p.x >= 0 && p.y >= 0
  {
    MaskPicture(mask, p.y % 12)[p.x % 12] == '#'
  }

  // ----- format and version words, annexes C and D: level M with masks 0 to 7, versions 7 to 10 -----

  const FORMAT_WORDS: seq<string> := [
    "101010000010010", "101000100100101", "101111001111100", "101101101001011",
    "100010111111001", "100000011001110", "100111110010111", "100101010100000"
  ]

  const VERSION_WORDS: seq<string> := [
    "000111110010010100", "001000010110111100", "001001101010011001", "001010010011010011"
  ]

  /** Where the first copy of the format word stands, its last bit first (figure 25). */
  const FORMAT_PLACES: seq<Pos> := [
    Pos(8, 0), Pos(8, 1), Pos(8, 2), Pos(8, 3), Pos(8, 4), Pos(8, 5), Pos(8, 7), Pos(8, 8),
    Pos(7, 8), Pos(5, 8), Pos(4, 8), Pos(3, 8), Pos(2, 8), Pos(1, 8), Pos(0, 8)
  ]

  /** The second copy, for a symbol of n modules. */
  function SecondFormatPlace(n: nat, i: nat): Pos {
    if i < 8 then Pos(n - 1 - i, 8) else Pos(8, n - 15 + i)
  }

  // ----- the finder with its separator and the alignment pattern, sections 6.3.3 to 6.3.6 -----

  const FINDER_PICTURE: seq<string> := [
    ".........",
    ".#######.",
    ".#.....#.",
    ".#.###.#.",
    ".#.###.#.",
    ".#.###.#.",
    ".#.....#.",
    ".#######.",
    "........."
  ]

  const ALIGNMENT_PICTURE: seq<string> := ["#####", "#...#", "#.#.#", "#...#", "#####"]

  // ----- the blocks of level M, table 9 -----

  /** Check bytes of a block, short blocks, their data bytes, and blocks with one data byte more. */
  datatype BlockRow = BlockRow(ecc: nat, short: nat, data: nat, long: nat)

  const BLOCK_TABLE: seq<BlockRow> := [
    BlockRow(10, 1, 16, 0), BlockRow(16, 1, 28, 0), BlockRow(26, 1, 44, 0), BlockRow(18, 2, 32, 0),
    BlockRow(24, 2, 43, 0), BlockRow(16, 4, 27, 0), BlockRow(18, 4, 31, 0), BlockRow(22, 2, 38, 2),
    BlockRow(22, 3, 36, 2), BlockRow(26, 4, 43, 1)
  ]
}
