/** Splitting the data into blocks, adding check bytes and interleaving them, together with the
    reader that takes the blocks apart again (sections 7.5 and 7.6 of ISO/IEC 18004:2015). */
module QrBlocks {
  import opened Basics
  import opened GaloisField
  import opened ReedSolomon
  import opened QrData

  /** `raw` codewords in `blocks` blocks, each with `ecc` check bytes. The last raw % blocks
      blocks are one data byte longer than the others. */
  datatype Shape = Shape(blocks: nat, ecc: nat, raw: nat) {

    ghost predicate Valid() {
      blocks > 0 && ecc > 0 && ecc <= raw / blocks
    }

    /** How many blocks are short. */
    function Short(): (n: nat)
      requires blocks > 0
      ensures 0 < n <= blocks
    {
      blocks - raw % blocks
    }

    /** The data bytes of a short block. */
    function ShortData(): nat
      requires Valid()
    {
      raw / blocks - ecc
    }

    function DataLength(j: nat): nat
      requires Valid()
    {
      if j < Short() then ShortData() else ShortData() + 1
    }

    /** The data bytes of the first k blocks. */
    function Start(k: nat): nat
      requires Valid()
    {
      if k == 0 then 0 else Start(k - 1) + DataLength(k - 1)
    }

    function DataTotal(): nat
      requires Valid()
    {
      Start(blocks)
    }

    /** The number of codewords that rank i contributes: short blocks have none at ShortData(). */
    function Width(i: nat): nat
      requires Valid()
    {
      if i == ShortData() then blocks - Short() else blocks
    }

    /** The ranks 0 .. raw / blocks. */
    function Ranks(): nat
      requires Valid()
    {
      raw / blocks + 1
    }
  }

  function ShapeOf(v: nat): (s: Shape)
    requires IsVersion(v)
  {
    Shape(BLOCKS[v], ECC[v], Raw(v))
  }

  lemma ShapeFits(v: nat)
    requires IsVersion(v)
    ensures ShapeOf(v).Valid() && ShapeOf(v).DataTotal() == Data(v)
  {
    hide Raw;
    RawCapacities();
    assert ShapeOf(v).Valid();
    TotalData(ShapeOf(v));
  }

  lemma TotalData(s: Shape)
    requires s.Valid()
    ensures s.DataTotal() == s.raw - s.blocks * s.ecc
  {
    StartFormula(s, s.blocks);
    assert s.blocks * s.ShortData() == s.blocks * (s.raw / s.blocks) - s.blocks * s.ecc;
  }

  lemma RawCapacities()
    ensures Raw(1) == 26 && Raw(2) == 44 && Raw(3) == 70 && Raw(4) == 100 && Raw(5) == 134
    ensures Raw(6) == 172 && Raw(7) == 196 && Raw(8) == 242 && Raw(9) == 292 && Raw(10) == 346
  {
  }

  lemma {:induction false} StartFormula(s: Shape, k: nat)
    requires s.Valid() && k <= s.blocks
    ensures s.Start(k) == k * s.ShortData() + if k <= s.Short() then 0 else k - s.Short()
  {
    if k > 0 {
      StartFormula(s, k - 1);
      assert k * s.ShortData() == (k - 1) * s.ShortData() + s.ShortData();
    }
  }

  // ----- the encoder -----

  function DataBlock(s: Shape, data: Poly, j: nat): (block: Poly)
    requires s.Valid() && |data| == s.DataTotal() && j < s.blocks
    ensures |block| == s.DataLength(j)
  {
    StartMonotone(s, j + 1, s.blocks);
    data[s.Start(j)..s.Start(j + 1)]
  }

  lemma {:induction false} StartMonotone(s: Shape, j: nat, k: nat)
    requires s.Valid() && j <= k
    ensures s.Start(j) <= s.Start(k)
  {
    if j < k {
      StartMonotone(s, j, k - 1);
    }
  }

  function Check(s: Shape, block: Poly): (check: Poly)
    requires s.Valid()
    ensures |check| == s.ecc
  {
    Remainder(block, Generator(s.ecc)[1..])
  }

  /** A block as the source stores it: short blocks carry one filler byte before the check bytes. */
  function Column(s: Shape, data: Poly, j: nat): (column: Poly)
    requires s.Valid() && |data| == s.DataTotal() && j < s.blocks
    ensures |column| == s.Ranks()
  {
    var block := DataBlock(s, data, j);
    block + (if j < s.Short() then [ZERO] else []) + Check(s, block)
  }

  /** The codewords of rank i: the bytes i of all blocks, without the filler bytes. */
  function Rank(s: Shape, data: Poly, i: nat): (rank: Poly)
    requires s.Valid() && |data| == s.DataTotal() && i < s.Ranks()
    ensures |rank| == s.Width(i)
  {
    RankPrefix(s, data, i, s.blocks)
  }

  function RankPrefix(s: Shape, data: Poly, i: nat, k: nat): (rank: Poly)
    requires s.Valid() && |data| == s.DataTotal() && i < s.Ranks() && k <= s.blocks
    ensures |rank| == if i != s.ShortData() then k else if k <= s.Short() then 0 else k - s.Short()
  {
    if k == 0 then []
    else
      RankPrefix(s, data, i, k - 1) +
      (if i != s.ShortData() || k - 1 >= s.Short() then [Column(s, data, k - 1)[i]] else [])
  }

  /** The ranks one after the other. */
  function Interleaved(s: Shape, data: Poly, k: nat): Poly
    requires s.Valid() && |data| == s.DataTotal() && k <= s.Ranks()
  {
    if k == 0 then [] else Interleaved(s, data, k - 1) + Rank(s, data, k - 1)
  }

  function Interleave(s: Shape, data: Poly): Poly
    requires s.Valid() && |data| == s.DataTotal()
  {
    Interleaved(s, data, s.Ranks())
  }

  method QrInterleave(s: Shape, data: Poly) returns (out: Poly)
    requires s.Valid() && |data| == s.DataTotal()
    ensures out == Interleave(s, data)
  {
    hide Column, Rank;
    var all := QrColumns(s, data);
    var short, shortLen := s.blocks - s.raw % s.blocks, s.raw / s.blocks;
    out := [];
    for i := 0 to |all[0]|
      invariant out == Interleaved(s, data, i)
    {
      for j := 0 to |all|
        invariant out == Interleaved(s, data, i) + RankPrefix(s, data, i, j)
      {
        if i != shortLen - s.ecc || j >= short {
          out := out + [all[j][i]];
        }
      }
      RankIsWhole(s, data, i);
    }
  }

  lemma RankIsWhole(s: Shape, data: Poly, i: nat)
    requires s.Valid() && |data| == s.DataTotal() && i < s.Ranks()
    ensures Rank(s, data, i) == RankPrefix(s, data, i, s.blocks)
  {
  }

  /** Cuts the data into blocks and appends the check bytes to each. */
  method QrColumns(s: Shape, data: Poly) returns (all: seq<Poly>)
    requires s.Valid() && |data| == s.DataTotal()
    ensures |all| == s.blocks
    ensures forall j :: 0 <= j < s.blocks ==> all[j] == Column(s, data, j)
  {
    hide Generator, Remainder;
    var short, shortLen := s.blocks - s.raw % s.blocks, s.raw / s.blocks;
    var div := QrDivisor(s.ecc);
    all := [];
    var k := 0;
    for i := 0 to s.blocks
      invariant k == s.Start(i) && |all| == i
      invariant div[..] == Generator(s.ecc)[1..]
      invariant forall j :: 0 <= j < i ==> all[j] == Column(s, data, j)
    {
      var n := shortLen - s.ecc;
      if i >= short {
        n := n + 1;
      }
      StartMonotone(s, i + 1, s.blocks);
      var dat := data[k..k + n];
      k := k + n;
      var rem := QrRemainder(dat, div[..]);
      if i < short {
        dat := dat + [ZERO];
      }
      all := all + [dat + rem[..]];
    }
  }

  // ----- the reader -----

  /** Where rank i begins in the stream. */
  function RankStart(s: Shape, i: nat): nat
    requires s.Valid()
  {
    if i == 0 then 0 else RankStart(s, i - 1) + s.Width(i - 1)
  }

  /** The position of byte i of block j in the stream. */
  function Position(s: Shape, i: nat, j: nat): int
    requires s.Valid()
  {
    RankStart(s, i) + (if i == s.ShortData() then j - s.Short() else j)
  }

  function ReadBlock(s: Shape, stream: Poly, j: nat): (block: Poly)
    requires s.Valid() && |stream| == RankStart(s, s.Ranks()) && j < s.blocks
    ensures |block| == s.DataLength(j)
  {
    seq(s.DataLength(j), i requires 0 <= i < s.DataLength(j) =>
      PositionInStream(s, i, j);
      stream[Position(s, i, j)])
  }

  function ReadCheck(s: Shape, stream: Poly, j: nat): (check: Poly)
    requires s.Valid() && |stream| == RankStart(s, s.Ranks()) && j < s.blocks
    ensures |check| == s.ecc
  {
    seq(s.ecc, i requires 0 <= i < s.ecc =>
      PositionInStream(s, s.ShortData() + 1 + i, j);
      stream[Position(s, s.ShortData() + 1 + i, j)])
  }

  function ReadBlocks(s: Shape, stream: Poly, k: nat): Poly
    requires s.Valid() && |stream| == RankStart(s, s.Ranks()) && k <= s.blocks
  {
    if k == 0 then [] else ReadBlocks(s, stream, k - 1) + ReadBlock(s, stream, k - 1)
  }

  /** The data bytes of all blocks, in order; check bytes are dropped. */
  function Deinterleave(s: Shape, stream: Poly): Option<Poly>
    requires s.Valid()
  {
    if |stream| != RankStart(s, s.Ranks()) then None else Some(ReadBlocks(s, stream, s.blocks))
  }

  lemma {:induction false} RankStartMonotone(s: Shape, i: nat, k: nat)
    requires s.Valid() && i <= k
    ensures RankStart(s, i) <= RankStart(s, k)
  {
    if i < k {
      RankStartMonotone(s, i, k - 1);
    }
  }

  lemma PositionInStream(s: Shape, i: nat, j: nat)
    requires s.Valid() && j < s.blocks && i < s.Ranks()
    requires i == s.ShortData() ==> j >= s.Short()
    ensures RankStart(s, i) <= Position(s, i, j) < RankStart(s, i + 1) <= RankStart(s, s.Ranks())
  {
    RankStartMonotone(s, i + 1, s.Ranks());
  }

  lemma {:induction false} InterleavedLength(s: Shape, data: Poly, k: nat)
    requires s.Valid() && |data| == s.DataTotal() && k <= s.Ranks()
    ensures |Interleaved(s, data, k)| == RankStart(s, k)
  {
    hide Rank;
    if k > 0 {
      InterleavedLength(s, data, k - 1);
    }
  }

  lemma {:induction false} RankPrefixAt(s: Shape, data: Poly, i: nat, k: nat, j: nat)
    requires s.Valid() && |data| == s.DataTotal() && i < s.Ranks() && j < k <= s.blocks
    requires i == s.ShortData() ==> j >= s.Short()
    ensures RankPrefix(s, data, i, k)[if i == s.ShortData() then j - s.Short() else j] == Column(s, data, j)[i]
  {
    hide Column;
    if j < k - 1 {
      RankPrefixAt(s, data, i, k - 1, j);
    }
  }

  /** Every kept byte is found at its position. */
  lemma {:induction false} InterleavedAt(s: Shape, data: Poly, k: nat, i: nat, j: nat)
    requires s.Valid() && |data| == s.DataTotal() && i < k <= s.Ranks() && j < s.blocks
    requires i == s.ShortData() ==> j >= s.Short()
    ensures 0 <= Position(s, i, j) < |Interleaved(s, data, k)|
    ensures Interleaved(s, data, k)[Position(s, i, j)] == Column(s, data, j)[i]
  {
    hide Column;
    InterleavedLength(s, data, k - 1);
    InterleavedLength(s, data, k);
    if i < k - 1 {
      InterleavedAt(s, data, k - 1, i, j);
    } else {
      RankPrefixAt(s, data, i, s.blocks, j);
    }
  }

  lemma ColumnParts(s: Shape, data: Poly, j: nat)
    requires s.Valid() && |data| == s.DataTotal() && j < s.blocks
    ensures var block := DataBlock(s, data, j);
      block <= Column(s, data, j) && Column(s, data, j)[s.ShortData() + 1..] == Check(s, block)
  {
    hide Check, DataBlock;
  }

  /** The reader finds the data of each block and, behind it, its check bytes. */
  lemma ReadInterleaved(s: Shape, data: Poly, j: nat)
    requires s.Valid() && |data| == s.DataTotal() && j < s.blocks
    ensures |Interleave(s, data)| == RankStart(s, s.Ranks())
    ensures ReadBlock(s, Interleave(s, data), j) == DataBlock(s, data, j)
    ensures ReadCheck(s, Interleave(s, data), j) == Check(s, DataBlock(s, data, j))
  {
    hide Column, DataBlock, Check, Interleaved, RankStart, Shape.Start;
    var stream, block, column := Interleave(s, data), DataBlock(s, data, j), Column(s, data, j);
    InterleavedLength(s, data, s.Ranks());
    ColumnParts(s, data, j);
    forall i | 0 <= i < s.DataLength(j)
      ensures ReadBlock(s, stream, j)[i] == block[i]
    {
      InterleavedAt(s, data, s.Ranks(), i, j);
    }
    var behind := s.ShortData() + 1;
    forall i | 0 <= i < s.ecc
      ensures ReadCheck(s, stream, j)[i] == Check(s, block)[i]
    {
      InterleavedAt(s, data, s.Ranks(), behind + i, j);
      assert column[behind + i] == column[behind..][i];
    }
  }

  lemma {:induction false} ReadBlocksInterleaved(s: Shape, data: Poly, k: nat)
    requires s.Valid() && |data| == s.DataTotal() && k <= s.blocks
    ensures |Interleave(s, data)| == RankStart(s, s.Ranks()) && s.Start(k) <= |data|
    ensures ReadBlocks(s, Interleave(s, data), k) == data[..s.Start(k)]
  {
    hide Interleave;
    StartMonotone(s, k, s.blocks);
    ReadInterleaved(s, data, 0);
    if k > 0 {
      ReadBlocksInterleaved(s, data, k - 1);
      ReadInterleaved(s, data, k - 1);
      assert data[..s.Start(k)] == data[..s.Start(k - 1)] + data[s.Start(k - 1)..s.Start(k)];
    }
  }

  /** Interleaving loses nothing, and every block that arrives has zero syndromes. */
  lemma InterleaveRoundTrip(s: Shape, data: Poly)
    requires s.Valid() && |data| == s.DataTotal()
    ensures Deinterleave(s, Interleave(s, data)) == Some(data)
    ensures |Interleave(s, data)| == RankStart(s, s.Ranks())
    ensures forall j, i :: 0 <= j < s.blocks && 0 <= i < s.ecc ==>
      Eval(ReadBlock(s, Interleave(s, data), j) + ReadCheck(s, Interleave(s, data), j), Root(i)) == ZERO
  {
    hide Interleave, ReadBlock, ReadCheck;
    ReadBlocksInterleaved(s, data, s.blocks);
    assert data[..|data|] == data;
    forall j, i | 0 <= j < s.blocks && 0 <= i < s.ecc
      ensures Eval(ReadBlock(s, Interleave(s, data), j) + ReadCheck(s, Interleave(s, data), j), Root(i)) == ZERO
    {
      ReadInterleaved(s, data, j);
      SyndromesVanish(DataBlock(s, data, j), s.ecc, i);
    }
  }

  /** The stream is exactly as long as the symbol's raw capacity. */
  lemma StreamLength(s: Shape)
    requires s.Valid()
    ensures RankStart(s, s.Ranks()) == s.raw
  {
    RankStartFormula(s, s.Ranks());
    assert s.raw == s.raw / s.blocks * s.blocks + s.raw % s.blocks;
  }

  lemma {:induction false} RankStartFormula(s: Shape, i: nat)
    requires s.Valid() && i <= s.Ranks()
    ensures RankStart(s, i) == i * s.blocks - if i > s.ShortData() then s.Short() else 0
  {
    if i > 0 {
      RankStartFormula(s, i - 1);
      assert i * s.blocks == (i - 1) * s.blocks + s.blocks;
    }
  }
}
