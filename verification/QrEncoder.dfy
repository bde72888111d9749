/** Encoding a text as a QR symbol, and the reader that proves nothing was lost. */
module QrEncoder {
  import opened Basics
  import opened ReedSolomon
  import opened QrConformance
  import opened QrPath
  import opened QrData
  import opened QrBlocks
  import opened QrPatterns
  import opened QrPenalty
  import opened QrStandard
  import opened QrSymbol

  // ----- the symbol as a value -----

  ghost function Blank(n: nat): Grid {
    imap p | InGrid(n, p) :: false
  }

  ghost function FunctionModules(v: nat): iset<Pos>
    requires IsVersion(v)
  {
    CellsAll(SizeOf(v), Patterns(v))
  }

  ghost function FreeModules(v: nat): seq<Pos>
    requires IsVersion(v)
  {
    Free(Path(SizeOf(v)), FunctionModules(v))
  }

  function Stream(v: nat, text: seq<Octet>): Poly
    requires IsVersion(v) && Fits(v, |text|)
  {
    ShapeFits(v);
    Interleave(ShapeOf(v), Codewords(v, text))
  }

  /** The symbol before masking: function patterns and data bits. */
  ghost function Layout(v: nat, stream: Poly): Grid
    requires IsVersion(v)
  {
    var free, bits := FreeModules(v), Unpack(stream);
    Filled(PaintedAll(Blank(SizeOf(v)), SizeOf(v), Patterns(v)), free, bits, Smaller(|free|, |bits|))
  }

  ghost function Trial(v: nat, stream: Poly, mask: nat): Grid
    requires IsVersion(v)
  {
    Finished(Layout(v, stream), SizeOf(v), FunctionModules(v), mask)
  }

  // ----- the methods -----

  /** q is the unmasked symbol of the text in its smallest version v. */
  ghost predicate IsLayout(q: QrCode, v: nat, text: seq<Octet>)
    reads q.dark, q.reserve
  {
    && q.Valid() && IsVersion(v) && q.size == SizeOf(v) && Fits(v, |text|)
    && (forall w :: 1 <= w < v ==> !Fits(w, |text|))
    && q.Reserve() == FunctionModules(v)
    && q.Dark() == Layout(v, Stream(v, text))
  }

  method QrLayout(text: seq<Octet>) returns (q: QrCode?, ghost v: nat)
    ensures q == null <==> |text| > MAX_TEXT
    ensures q != null ==> fresh(q.dark) && fresh(q.reserve) && IsLayout(q, v, text)
  {
    hide PaintedAll, CellsAll, Codewords, Interleave, Filled, Unpack, Free, Path, Patterns, Fits, QrCode.Dark,
      QrCode.Reserve;
    var version := QrVersion(|text|);
    v := version;
    if version > MAX_VERSION {
      return null, v;
    }
    var data := QrCodewords(version, text);
    q := BlankSymbol(17 + 4 * version);
    q.Functions(version);
    assert q.Reserve() == FunctionModules(version);
    ShapeFits(version);
    var stream := QrInterleave(ShapeOf(version), data);
    q.Place(stream);
  }

  method BlankSymbol(n: nat) returns (q: QrCode)
    ensures q.Valid() && q.size == n && fresh(q) && fresh(q.dark) && fresh(q.reserve)
    ensures q.Dark() == Blank(n) && q.Reserve() == iset{}
  {
    q := new QrCode(n);
  }

  /** Tries the eight masks in place, undoing each, and keeps the first of minimal penalty. */
  method QrEncode(text: seq<Octet>) returns (q: QrCode?, ghost v: nat, ghost best: nat)
    ensures q == null <==> |text| > MAX_TEXT
    ensures q != null ==>
      && q.Valid() && IsVersion(v) && q.size == SizeOf(v) && Fits(v, |text|) && best < 8
      && (forall w :: 1 <= w < v ==> !Fits(w, |text|))
      && q.Dark() == Trial(v, Stream(v, text), best)
      && (forall m :: 0 <= m < 8 ==> TrialPenalty(v, Stream(v, text), best) <= TrialPenalty(v, Stream(v, text), m))
      && (forall m :: 0 <= m < best ==> TrialPenalty(v, Stream(v, text), best) < TrialPenalty(v, Stream(v, text), m))
      && Read(q.Dark(), q.size) == Some(text)
  {
    hide QrCode.Dark, QrCode.Reserve, Layout, Masked, Painted, Cells, Penalty, FunctionModules, Fits, Read, Stream;
    best := 0;
    q, v := QrLayout(text);
    if q == null {
      return;
    }
    ghost var stream := Stream(v, text);
    ghost var g, r, n := q.Dark(), q.Reserve(), q.size;
    ghost var shown := g;
    var first, score := 0, -1;
    for m := 0 to 8
      invariant q.Valid() && q.Reserve() == r && q.Dark() == shown
      invariant shown == g || exists k :: k < 8 && shown == Painted(g, n, Format(k))
      invariant score < 0 <==> m == 0
      invariant m > 0 ==> first < m && score == TrialPenalty(v, stream, first)
      invariant forall k :: 0 <= k < m ==> score <= TrialPenalty(v, stream, k)
      invariant forall k :: 0 <= k < first ==> score < TrialPenalty(v, stream, k)
    {
      TrialIsClean(v, stream, shown, m);
      q.ApplyMask(m);
      q.PaintFormat(m);
      var s := q.Score();
      if score < 0 || s < score {
        first, score := m, s;
      }
      q.ApplyMask(m);
      shown := Painted(g, n, Format(m));
    }
    TrialIsClean(v, stream, shown, first);
    q.ApplyMask(first);
    q.PaintFormat(first);
    best := first;
    EncodingRoundTrip(v, text, best);
  }

  ghost function TrialPenalty(v: nat, stream: Poly, mask: nat): nat
    requires IsVersion(v)
  {
    TrialIsTotal(v, stream, mask);
    Penalty(Trial(v, stream, mask), SizeOf(v))
  }

  // ----- the reader -----

  /** The format word as it is printed, read at the printed places. */
  ghost function ReadFormat(g: Grid): (word: string)
    ensures |word| == 15
  {
    seq(15, k requires 0 <= k < 15 => if ReadAt(g, FORMAT_PLACES[14 - k]) then '1' else '0')
  }

  /** Takes a finished symbol apart: the mask from the printed format words, the bits along the zigzag
      without the printed picture of that mask, the codewords, the blocks and the text. */
  ghost function Read(g: Grid, n: nat): Option<seq<Octet>> {
    hide MaskOf, Reversed, FreeModules, FunctionModules, ReadStream, ReadBits, ReadFormat;
    var v := (n - 17) / 4;
    if !IsVersion(v) || SizeOf(v) != n || !Total(g, n) then None
    else
      match MaskOf(ReadFormat(g), 0)
      case None => None
      case Some(mask) => ReadStream(v, ReadBits(Reversed(g, FunctionModules(v), mask), FreeModules(v)))
  }

  function ReadStream(v: nat, bits: seq<bool>): Option<seq<Octet>>
    requires IsVersion(v)
  {
    hide Raw, RankStart, Pack, ReadCodewords, Deinterleave;
    if |bits| < 8 * Raw(v) then None
    else
      ShapeFits(v);
      match Deinterleave(ShapeOf(v), Pack(bits[..8 * Raw(v)]))
      case None => None
      case Some(data) => ReadCodewords(v, data)
  }

  ghost predicate ReadAt(g: Grid, p: Pos) {
    p in g && g[p]
  }

  ghost function ReadBits(g: Grid, free: seq<Pos>): (bits: seq<bool>)
    ensures |bits| == |free|
  {
    seq(|free|, i requires 0 <= i < |free| => ReadAt(g, free[i]))
  }

  // ----- the trials leave no residue -----

  lemma {:induction false} PaintedAllKeys(g: Grid, n: nat, patterns: seq<Pattern>)
    ensures PaintedAll(g, n, patterns).Keys == g.Keys
  {
    hide Pattern.At;
    if patterns != [] {
      PaintedAllKeys(g, n, patterns[..|patterns| - 1]);
    }
  }

  lemma {:induction false} FilledKeys(g: Grid, free: seq<Pos>, bits: seq<bool>, k: nat)
    requires k <= |free| && k <= |bits|
    requires forall i :: 0 <= i < |free| ==> free[i] in g
    ensures Filled(g, free, bits, k).Keys == g.Keys
  {
    if k > 0 {
      FilledKeys(g, free, bits, k - 1);
    }
  }

  lemma LayoutKeys(v: nat, stream: Poly)
    requires IsVersion(v)
    ensures Layout(v, stream).Keys == Blank(SizeOf(v)).Keys
  {
    hide Pattern.At, PaintedAll, CellsAll, Unpack, Path, Free;
    var n, free, bits := SizeOf(v), FreeModules(v), Unpack(stream);
    var painted := PaintedAll(Blank(n), n, Patterns(v));
    PaintedAllKeys(Blank(n), n, Patterns(v));
    forall i | 0 <= i < |free|
      ensures free[i] in painted
    {
      FreeMembers(Path(n), FunctionModules(v), free[i]);
      PathVisitsOnce(n);
    }
    FilledKeys(painted, free, bits, Smaller(|free|, |bits|));
  }

  lemma TrialIsTotal(v: nat, stream: Poly, mask: nat)
    requires IsVersion(v)
    ensures Total(Trial(v, stream, mask), SizeOf(v))
    ensures Total(Layout(v, stream), SizeOf(v))
  {
    hide Pattern.At, Layout;
    LayoutKeys(v, stream);
  }

  lemma FormatIsReserved(v: nat, mask: nat)
    requires IsVersion(v)
    ensures Cells(SizeOf(v), Format(mask)) <= FunctionModules(v)
  {
    var n, patterns, k := SizeOf(v), Patterns(v), 4 + |Alignments(ALIGN[v], |ALIGN[v]|, 0)|;
    assert patterns[k] == Format(0);
    forall p | p in Cells(n, Format(mask))
      ensures p in FunctionModules(v)
    {
      SameFormatCells(n, mask, 0, p);
      assert patterns[k].At(n, p).Some?;
    }
  }

  /** Where the format bits stand does not depend on the mask. */
  lemma SameFormatCells(n: nat, a: nat, b: nat, p: Pos)
    ensures Format(a).At(n, p).Some? == Format(b).At(n, p).Some?
  {
    hide FormatWord;
  }

  /** From the layout or from what an earlier trial left, masking and formatting gives the same
      trial matrix, and unmasking it leaves nothing but the format bits. */
  lemma TrialIsClean(v: nat, stream: Poly, shown: Grid, mask: nat)
    requires IsVersion(v)
    requires var g := Layout(v, stream);
      shown == g || exists k :: k < 8 && shown == Painted(g, SizeOf(v), Format(k))
    ensures var g, n, r := Layout(v, stream), SizeOf(v), FunctionModules(v);
      && Painted(Masked(shown, r, mask), n, Format(mask)) == Trial(v, stream, mask)
      && Masked(Trial(v, stream, mask), r, mask) == Painted(g, n, Format(mask))
      && r + Cells(n, Format(mask)) == r
  {
    hide Layout, FunctionModules, Flips, Pattern.At;
    var g, n, r := Layout(v, stream), SizeOf(v), FunctionModules(v);
    FormatIsReserved(v, mask);
    LayoutKeys(v, stream);
    forall p, k: nat
      ensures Format(k).At(n, p).Some? == Format(mask).At(n, p).Some?
    {
      SameFormatCells(n, k, mask, p);
    }
    assert Painted(Masked(shown, r, mask), n, Format(mask)) == Trial(v, stream, mask);
    assert Masked(Trial(v, stream, mask), r, mask) == Painted(g, n, Format(mask));
  }

  // ----- the free modules suffice -----

  /** Rectangles that contain the finders with their separators, the format bits and the timing
      lines; the centre alignment pattern; the other alignment patterns and the version bits. */
  function BaseAreas(n: nat): seq<Area>
    requires n >= 21
  {
    [Area(0, 0, 9, 9), Area(n - 8, 0, 8, 9), Area(0, n - 8, 9, 8), Area(9, 6, n - 17, 1), Area(6, 9, 1, n - 17)]
  }

  function LargeAreas(n: nat, q: nat): seq<Area> {
    [Area(q - 2, q - 2, 5, 5), Area(q - 2, n - 9, 5, 5), Area(n - 9, q - 2, 5, 5),
     Area(q - 2, 4, 5, 2), Area(q - 2, 7, 5, 2)]
  }

  function VersionAreas(n: nat, q: nat): seq<Area> {
    [Area(4, q - 2, 2, 5), Area(7, q - 2, 2, 5), Area(n - 11, 0, 3, 6), Area(0, n - 11, 6, 3)]
  }

  function CentreAreas(v: nat): seq<Area> {
    if v >= 2 then [Area(SizeOf(v) - 9, SizeOf(v) - 9, 5, 5)] else []
  }

  function OtherAreas(v: nat): seq<Area>
    requires IsVersion(v)
  {
    if v >= 7 then LargeAreas(SizeOf(v), ALIGN[v][1]) + VersionAreas(SizeOf(v), ALIGN[v][1]) else []
  }

  function FunctionAreas(v: nat): seq<Area>
    requires IsVersion(v)
  {
    BaseAreas(SizeOf(v)) + CentreAreas(v) + OtherAreas(v)
  }

  function SixAlignments(a: int, q: int, z: int): seq<Pattern> {
    [Alignment(q, a), Alignment(a, q), Alignment(q, q), Alignment(z, q), Alignment(q, z), Alignment(z, z)]
  }

  lemma AlignmentList(pos: seq<int>)
    ensures |pos| == 0 ==> Alignments(pos, |pos|, 0) == []
    ensures |pos| == 2 ==> Alignments(pos, |pos|, 0) == [Alignment(pos[1], pos[1])]
    ensures |pos| == 3 ==> Alignments(pos, |pos|, 0) == SixAlignments(pos[0], pos[1], pos[2])
  {
    if |pos| == 2 {
      assert Alignments(pos, 0, 2) == [];
      assert Alignments(pos, 1, 1) == [];
      assert Alignments(pos, 1, 2) == [Alignment(pos[1], pos[1])];
    } else if |pos| == 3 {
      assert Alignments(pos, 0, 1) == [];
      assert Alignments(pos, 0, 2) == [Alignment(pos[1], pos[0])];
      assert Alignments(pos, 0, 3) == [Alignment(pos[1], pos[0])];
      assert Alignments(pos, 1, 1) == [Alignment(pos[1], pos[0]), Alignment(pos[0], pos[1])];
      assert Alignments(pos, 1, 2) == Alignments(pos, 1, 1) + [Alignment(pos[1], pos[1])];
      assert Alignments(pos, 1, 3) == Alignments(pos, 1, 2) + [Alignment(pos[2], pos[1])];
      assert Alignments(pos, 2, 1) == Alignments(pos, 1, 3);
      assert Alignments(pos, 2, 2) == Alignments(pos, 2, 1) + [Alignment(pos[1], pos[2])];
      assert Alignments(pos, 2, 3) == Alignments(pos, 2, 2) + [Alignment(pos[2], pos[2])];
    }
  }

  ghost predicate Inside(areas: seq<Area>, p: Pos) {
    exists k :: 0 <= k < |areas| && areas[k].Has(p)
  }

  lemma BaseModules(n: nat, pattern: Pattern, p: Pos)
    requires n >= 21 && InGrid(n, p) && pattern.At(n, p).Some?
    requires pattern in [Timing, Finder(3, 3), Finder(n - 4, 3), Finder(3, n - 4), Format(0)]
    ensures Inside(BaseAreas(n), p)
  {
    hide FormatWord;
    var areas := BaseAreas(n);
    assert areas[0].Has(p) || areas[1].Has(p) || areas[2].Has(p) || areas[3].Has(p) || areas[4].Has(p);
  }

  lemma AlignmentModules(n: nat, q: nat, pattern: Pattern, p: Pos)
    requires n >= 21 && InGrid(n, p) && pattern.At(n, p).Some?
    requires pattern in SixAlignments(6, q, n - 7) && 11 <= q < n - 11
    ensures Inside(BaseAreas(n), p) || Inside([Area(n - 9, n - 9, 5, 5)], p)
      || Inside(LargeAreas(n, q), p) || Inside(VersionAreas(n, q), p)
  {
    var base, large, other := BaseAreas(n), LargeAreas(n, q), VersionAreas(n, q);
    if pattern == Alignment(n - 7, n - 7) {
      assert [Area(n - 9, n - 9, 5, 5)][0].Has(p);
    } else if pattern == Alignment(q, 6) {
      assert base[3].Has(p) || large[3].Has(p) || large[4].Has(p);
    } else if pattern == Alignment(6, q) {
      assert base[4].Has(p) || other[0].Has(p) || other[1].Has(p);
    } else {
      assert large[0].Has(p) || large[1].Has(p) || large[2].Has(p);
    }
  }

  lemma VersionModules(n: nat, q: nat, v: nat, p: Pos)
    requires n >= 21 && InGrid(n, p) && Version(v).At(n, p).Some?
    ensures Inside(VersionAreas(n, q), p)
  {
    hide VersionWord;
    assert VersionAreas(n, q)[2].Has(p) || VersionAreas(n, q)[3].Has(p);
  }

  lemma InsideConcat(a: seq<Area>, b: seq<Area>, p: Pos)
    requires Inside(a, p) || Inside(b, p)
    ensures Inside(a + b, p)
  {
    if Inside(a, p) {
      var k :| 0 <= k < |a| && a[k].Has(p);
      assert (a + b)[k].Has(p);
    } else {
      var k :| 0 <= k < |b| && b[k].Has(p);
      assert (a + b)[|a| + k].Has(p);
    }
  }

  /** Every function module lies in one of the rectangles. */
  lemma ModuleInAreas(v: nat, pattern: Pattern, p: Pos)
    requires IsVersion(v) && pattern in Patterns(v) && pattern.At(SizeOf(v), p).Some? && InGrid(SizeOf(v), p)
    ensures Inside(FunctionAreas(v), p)
  {
    hide Pattern.At, Alignments, Inside, BaseAreas, LargeAreas, VersionAreas, SixAlignments;
    var n, pos := SizeOf(v), ALIGN[v];
    var base, centre, other := BaseAreas(n), CentreAreas(v), OtherAreas(v);
    AlignmentList(pos);
    if pattern in [Timing, Finder(3, 3), Finder(n - 4, 3), Finder(3, n - 4), Format(0)] {
      BaseModules(n, pattern, p);
    } else if v < 7 {
      CentreModules(n, p);
    } else {
      if pattern == Version(v) {
        VersionModules(n, pos[1], v, p);
      } else {
        AlignmentModules(n, pos[1], pattern, p);
      }
      if Inside(LargeAreas(n, pos[1]), p) || Inside(VersionAreas(n, pos[1]), p) {
        InsideConcat(LargeAreas(n, pos[1]), VersionAreas(n, pos[1]), p);
      }
    }
    if Inside(base, p) || Inside(centre, p) {
      InsideConcat(base, centre, p);
    }
    InsideConcat(base + centre, other, p);
  }

  lemma CentreModules(n: nat, p: Pos)
    requires n >= 21 && InGrid(n, p) && Alignment(n - 7, n - 7).At(n, p).Some?
    ensures Inside([Area(n - 9, n - 9, 5, 5)], p)
  {
    assert [Area(n - 9, n - 9, 5, 5)][0].Has(p);
  }

  lemma {:induction false} TotalAreaConcat(a: seq<Area>, b: seq<Area>)
    ensures TotalArea(a + b) == TotalArea(a) + TotalArea(b)
  {
    if a == [] {
      assert a + b == b;
    } else {
      assert (a + b)[1..] == a[1..] + b;
      TotalAreaConcat(a[1..], b);
    }
  }

  lemma FiveAreas(a: Area, b: Area, c: Area, d: Area, e: Area)
    ensures TotalArea([a, b, c, d, e]) == a.w * a.h + TotalArea([b, c, d, e])
    ensures TotalArea([b, c, d, e]) == b.w * b.h + c.w * c.h + d.w * d.h + e.w * e.h
    ensures TotalArea([e]) == e.w * e.h
  {
    assert [a, b, c, d, e][1..] == [b, c, d, e] && [b, c, d, e][1..] == [c, d, e];
    assert [c, d, e][1..] == [d, e] && [d, e][1..] == [e] && [e][1..] == [];
    assert TotalArea([e]) == e.w * e.h;
    assert TotalArea([d, e]) == d.w * d.h + TotalArea([e]);
    assert TotalArea([c, d, e]) == c.w * c.h + TotalArea([d, e]);
  }

  /** What the rectangles leave is exactly the room that the capacity formula counts. */
  lemma AreasLeaveRoom(v: nat)
    requires IsVersion(v)
    ensures SizeOf(v) * SizeOf(v) - TotalArea(FunctionAreas(v)) == RawBits(v) >= 8 * Raw(v)
  {
    hide TotalArea, RawBits, Raw, BaseAreas, CentreAreas, OtherAreas;
    var n := SizeOf(v);
    BaseTotal(n);
    assert 2 * (n - 17) == 8 * v;
    TotalAreaConcat(BaseAreas(n), CentreAreas(v));
    TotalAreaConcat(BaseAreas(n) + CentreAreas(v), OtherAreas(v));
    OtherTotals(v);
    RoomFormula(v);
  }

  lemma BaseTotal(n: nat)
    requires n >= 21
    ensures TotalArea(BaseAreas(n)) == 225 + 2 * (n - 17)
  {
    var base := BaseAreas(n);
    FiveAreas(base[0], base[1], base[2], base[3], base[4]);
  }

  lemma RoomFormula(v: nat)
    requires IsVersion(v)
    ensures SizeOf(v) * SizeOf(v) - (225 + 8 * v) - (if v >= 2 then 25 else 0) - (if v >= 7 then 151 else 0)
      == RawBits(v)
    ensures RawBits(v) >= 8 * Raw(v)
  {
    assert (17 + 4 * v) * (17 + 4 * v) == (16 * v + 136) * v + 289;
    assert (16 * v + 136) * v == (16 * v + 128) * v + 8 * v;
  }

  lemma OtherTotals(v: nat)
    requires IsVersion(v)
    ensures TotalArea(CentreAreas(v)) == if v >= 2 then 25 else 0
    ensures TotalArea(OtherAreas(v)) == if v >= 7 then 151 else 0
  {
    var n := SizeOf(v);
    if v >= 7 {
      var large, other := LargeAreas(n, ALIGN[v][1]), VersionAreas(n, ALIGN[v][1]);
      FiveAreas(large[0], large[1], large[2], large[3], large[4]);
      FiveAreas(large[0], other[0], other[1], other[2], other[3]);
      TotalAreaConcat(large, other);
    }
  }

  /** Every version has room for all its codewords. */
  lemma RoomForCodewords(v: nat)
    requires IsVersion(v)
    ensures |FreeModules(v)| >= 8 * Raw(v)
    ensures NoDuplicates(FreeModules(v))
    ensures forall p :: p in FreeModules(v) ==> InGrid(SizeOf(v), p) && p !in FunctionModules(v)
  {
    hide Pattern.At, FunctionAreas, Path, Free, Raw, TotalArea;
    var n, r := SizeOf(v), FunctionModules(v);
    forall p | InGrid(n, p) && p.x == 6
      ensures p in r
    {
      TimingColumn(v, p);
    }
    forall p | InGrid(n, p) && p in r
      ensures exists a :: a in FunctionAreas(v) && a.Has(p)
    {
      var k :| 0 <= k < |Patterns(v)| && Patterns(v)[k].At(n, p).Some?;
      ModuleInAreas(v, Patterns(v)[k], p);
      var j :| 0 <= j < |FunctionAreas(v)| && FunctionAreas(v)[j].Has(p);
      assert FunctionAreas(v)[j] in FunctionAreas(v);
    }
    FreeCount(n, r, FunctionAreas(v));
    AreasLeaveRoom(v);
    PathVisitsOnce(n);
    FreeRepeatsNothing(Path(n), r);
    forall p | p in FreeModules(v)
      ensures InGrid(n, p) && p !in r
    {
      FreeMembers(Path(n), r, p);
    }
  }

  lemma TimingColumn(v: nat, p: Pos)
    requires IsVersion(v) && InGrid(SizeOf(v), p) && p.x == 6
    ensures p in FunctionModules(v)
  {
    hide Alignments;
    var patterns := Patterns(v);
    assert patterns[0] == Timing;
    assert patterns[0].At(SizeOf(v), p).Some?;
  }

  // ----- reading back -----

  lemma {:induction false} FilledAt(g: Grid, free: seq<Pos>, bits: seq<bool>, k: nat, i: nat)
    requires NoDuplicates(free) && i < k <= |free| && k <= |bits|
    ensures free[i] in Filled(g, free, bits, k) && Filled(g, free, bits, k)[free[i]] == bits[i]
  {
    if i < k - 1 {
      FilledAt(g, free, bits, k - 1, i);
    }
  }

  lemma {:induction false} FilledElsewhere(g: Grid, free: seq<Pos>, bits: seq<bool>, k: nat, p: Pos)
    requires k <= |free| && k <= |bits| && p in g && p !in free[..k]
    ensures p in Filled(g, free, bits, k) && Filled(g, free, bits, k)[p] == g[p]
  {
    if k > 0 {
      assert free[..k] == free[..k - 1] + [free[k - 1]];
      FilledElsewhere(g, free, bits, k - 1, p);
    }
  }

  /** Placing data in a grid of any size with any reserved modules: the bits are read back along the
      path, as many of them as there is room for, and all other modules are as before. */
  lemma PlacedReadsBack(n: nat, reserve: iset<Pos>, g: Grid, data: Poly)
    ensures var free, bits := Free(Path(n), reserve), Unpack(data);
      var k := Smaller(|free|, |bits|);
      var placed := Filled(g, free, bits, k);
      && ReadBits(placed, free)[..k] == bits[..k]
      && (8 * |data| <= |free| ==> ReadBits(placed, free)[..8 * |data|] == bits)
      && forall p :: p in g && (p in reserve || p !in free[..k]) ==> p in placed && placed[p] == g[p]
  {
    hide Path, Free, Filled, Unpack, NoDuplicates;
    var free, bits := Free(Path(n), reserve), Unpack(data);
    var k := Smaller(|free|, |bits|);
    var placed := Filled(g, free, bits, k);
    PathVisitsOnce(n);
    FreeRepeatsNothing(Path(n), reserve);
    forall i | 0 <= i < k
      ensures ReadBits(placed, free)[i] == bits[i]
    {
      FilledAt(g, free, bits, k, i);
    }
    forall p | p in g && (p in reserve || p !in free[..k])
      ensures p in placed && placed[p] == g[p]
    {
      FreeMembers(Path(n), reserve, p);
      FilledElsewhere(g, free, bits, k, p);
    }
  }

  lemma UnmaskedAt(v: nat, stream: Poly, mask: nat, p: Pos)
    requires IsVersion(v) && InGrid(SizeOf(v), p) && p !in FunctionModules(v)
    ensures p in Layout(v, stream)
    ensures ReadAt(Masked(Trial(v, stream, mask), FunctionModules(v), mask), p) == Layout(v, stream)[p]
  {
    hide Layout, FunctionModules, Pattern.At, Flips;
    LayoutKeys(v, stream);
    TrialIsClean(v, stream, Layout(v, stream), mask);
    FormatIsReserved(v, mask);
    assert p !in Cells(SizeOf(v), Format(mask));
  }

  lemma LayoutReadsBack(v: nat, stream: Poly)
    requires IsVersion(v) && 8 * |stream| <= |FreeModules(v)|
    ensures ReadBits(Layout(v, stream), FreeModules(v))[..8 * |stream|] == Unpack(stream)
  {
    hide PaintedAll, FunctionModules, Unpack, Path, Free, Filled, ReadBits;
    var n := SizeOf(v);
    PlacedReadsBack(n, FunctionModules(v), PaintedAll(Blank(n), n, Patterns(v)), stream);
  }

  /** The bits read along the path of an unmasked trial are the stream's bits. */
  lemma StreamBits(v: nat, stream: Poly, mask: nat)
    requires IsVersion(v) && |stream| == Raw(v)
    ensures |FreeModules(v)| >= 8 * Raw(v)
    ensures ReadBits(Masked(Trial(v, stream, mask), FunctionModules(v), mask), FreeModules(v))[..8 * Raw(v)]
      == Unpack(stream)
  {
    hide FunctionModules, FreeModules, Trial, Masked, Layout, Unpack, Raw;
    var free := FreeModules(v);
    RoomForCodewords(v);
    LayoutReadsBack(v, stream);
    var unmasked := Masked(Trial(v, stream, mask), FunctionModules(v), mask);
    forall i | 0 <= i < |free|
      ensures ReadBits(unmasked, free)[i] == ReadBits(Layout(v, stream), free)[i]
    {
      assert free[i] in free;
      UnmaskedAt(v, stream, mask, free[i]);
    }
    assert ReadBits(unmasked, free) == ReadBits(Layout(v, stream), free);
  }

  /** The mask is read back from the printed words. */
  lemma TrialShowsMask(v: nat, stream: Poly, mask: nat)
    requires IsVersion(v) && mask < 8
    ensures MaskOf(ReadFormat(Trial(v, stream, mask)), 0) == Some(mask)
  {
    hide Trial, MaskOf, ReadAt;
    var word := ReadFormat(Trial(v, stream, mask));
    forall k | 0 <= k < 15
      ensures word[k] == FORMAT_WORDS[mask][k]
    {
      FormatShown(v, stream, mask, 14 - k);
      FormatDigit(mask, k);
    }
    assert |FORMAT_WORDS[mask]| == 15 && word == FORMAT_WORDS[mask];
    MaskOfWord(mask, 0);
  }

  lemma FormatDigit(mask: nat, k: nat)
    requires mask < 8 && k < 15
    ensures |FORMAT_WORDS[mask]| == 15 && FORMAT_WORDS[mask][k] in "01"
  {
  }

  lemma FormatShown(v: nat, stream: Poly, mask: nat, i: nat)
    requires IsVersion(v) && mask < 8 && i < 15
    ensures ReadAt(Trial(v, stream, mask), FORMAT_PLACES[i]) == (FORMAT_WORDS[mask][14 - i] == '1')
  {
    hide Layout, FormatWord, Pattern.At, Flips;
    LayoutKeys(v, stream);
    FormatStands(SizeOf(v), mask, i);
    PlaceInGrid(SizeOf(v), i);
  }

  lemma PlaceInGrid(n: nat, i: nat)
    requires n >= 21 && i < 15
    ensures InGrid(n, FORMAT_PLACES[i])
  {
  }

  /** The stream fills the symbol, and whatever bits begin with it are read as the text. */
  lemma ReadStreamBack(v: nat, text: seq<Octet>)
    requires IsVersion(v) && Fits(v, |text|)
    ensures |Stream(v, text)| == Raw(v)
    ensures forall bits: seq<bool> :: 8 * Raw(v) <= |bits| && bits[..8 * Raw(v)] == Unpack(Stream(v, text)) ==>
      ReadStream(v, bits) == Some(text)
  {
    hide Raw, Fits, Unpack, Pack, Codewords, Interleave, RankStart, Deinterleave, ReadCodewords;
    PackUnpack(Stream(v, text));
    ShapeFits(v);
    InterleaveRoundTrip(ShapeOf(v), Codewords(v, text));
    StreamLength(ShapeOf(v));
    CodewordsRoundTrip(v, text);
  }

  /** Encoding loses nothing: the reader recovers the text from every trial matrix. */
  lemma EncodingRoundTrip(v: nat, text: seq<Octet>, mask: nat)
    requires IsVersion(v) && Fits(v, |text|) && mask < 8
    ensures Read(Trial(v, Stream(v, text), mask), SizeOf(v)) == Some(text)
  {
    hide Trial, FunctionModules, FreeModules, Raw, Fits, Stream, Unpack, ReadStream, MaskOf, Masked, Reversed, ReadBits,
      ReadFormat, Total;
    TrialIsTotal(v, Stream(v, text), mask);
    assert (SizeOf(v) - 17) / 4 == v;
    TrialShowsMask(v, Stream(v, text), mask);
    ReadStreamBack(v, text);
    StreamBits(v, Stream(v, text), mask);
    MaskedIsReversed(Trial(v, Stream(v, text), mask), FunctionModules(v), mask);
  }

  // ----- the function patterns of the finished symbol -----

  lemma {:induction false} PaintedAllAt(g: Grid, n: nat, patterns: seq<Pattern>, k: nat, p: Pos)
    requires p in g && k < |patterns| && patterns[k].At(n, p).Some?
    requires forall j :: k < j < |patterns| ==> patterns[j].At(n, p).None?
    ensures p in PaintedAll(g, n, patterns)
    ensures PaintedAll(g, n, patterns)[p] == patterns[k].At(n, p).value
  {
    hide Pattern.At;
    PaintedAllKeys(g, n, patterns[..|patterns| - 1]);
    if k < |patterns| - 1 {
      assert patterns[|patterns| - 1].At(n, p).None?;
      PaintedAllAt(g, n, patterns[..|patterns| - 1], k, p);
    }
  }

  /** A function module that no later pattern covers keeps its colour in every trial matrix: neither
      the data bits nor the masks reach it. */
  lemma FunctionModuleSurvives(v: nat, stream: Poly, mask: nat, k: nat, p: Pos)
    requires IsVersion(v) && InGrid(SizeOf(v), p) && k < |Patterns(v)|
    requires Patterns(v)[k].At(SizeOf(v), p).Some? && Format(mask).At(SizeOf(v), p).None?
    requires forall j :: k < j < |Patterns(v)| ==> Patterns(v)[j].At(SizeOf(v), p).None?
    ensures p in Trial(v, stream, mask) && Trial(v, stream, mask)[p] == Patterns(v)[k].At(SizeOf(v), p).value
  {
    hide Pattern.At, Patterns, Path, Unpack;
    var n, free, bits := SizeOf(v), FreeModules(v), Unpack(stream);
    var painted := PaintedAll(Blank(n), n, Patterns(v));
    PaintedAllAt(Blank(n), n, Patterns(v), k, p);
    FreeMembers(Path(n), FunctionModules(v), p);
    FilledElsewhere(painted, free, bits, Smaller(|free|, |bits|), p);
  }

  lemma OtherPatternsMissFinder(v: nat, c: Pos, pattern: Pattern, p: Pos)
    requires IsVersion(v) && c in [Pos(3, 3), Pos(SizeOf(v) - 4, 3), Pos(3, SizeOf(v) - 4)]
    requires InGrid(SizeOf(v), p) && Ring(p, c.x, c.y) <= 4
    requires pattern in Patterns(v) || pattern.Format?
    requires pattern != Timing && pattern != Finder(c.x, c.y)
    ensures pattern.At(SizeOf(v), p).None?
  {
    hide FormatWord, VersionWord, Alignments, Patterns;
    AlignmentList(ALIGN[v]);
    PatternKinds(v, pattern);
  }

  lemma PatternKinds(v: nat, pattern: Pattern)
    requires IsVersion(v)
    ensures pattern in Patterns(v) ==>
      || pattern in [Timing, Finder(3, 3), Finder(SizeOf(v) - 4, 3), Finder(3, SizeOf(v) - 4)]
      || pattern in Alignments(ALIGN[v], |ALIGN[v]|, 0) || pattern.Format? || pattern.Version?
  {
    hide Alignments;
  }

  /** The three finders and their light separators are complete in the finished symbol. */
  lemma FindersIntact(v: nat, stream: Poly, mask: nat, c: Pos, p: Pos)
    requires IsVersion(v) && InGrid(SizeOf(v), p)
    requires c in [Pos(3, 3), Pos(SizeOf(v) - 4, 3), Pos(3, SizeOf(v) - 4)] && Ring(p, c.x, c.y) <= 4
    ensures p in Trial(v, stream, mask)
    ensures Trial(v, stream, mask)[p] <==> Ring(p, c.x, c.y) != 2 && Ring(p, c.x, c.y) != 4
  {
    hide Trial, Alignments;
    var n, patterns := SizeOf(v), Patterns(v);
    var k := if c == Pos(3, 3) then 1 else if c.y == 3 then 2 else 3;
    assert patterns[k] == Finder(c.x, c.y);
    forall j | k < j < |patterns|
      ensures patterns[j].At(n, p).None?
    {
      LaterPatterns(v, c, j);
      OtherPatternsMissFinder(v, c, patterns[j], p);
    }
    OtherPatternsMissFinder(v, c, Format(mask), p);
    FunctionModuleSurvives(v, stream, mask, k, p);
  }

  lemma LaterPatterns(v: nat, c: Pos, j: nat)
    requires IsVersion(v) && j < |Patterns(v)| && (if c == Pos(3, 3) then 1 else if c.y == 3 then 2 else 3) < j
    requires c in [Pos(3, 3), Pos(SizeOf(v) - 4, 3), Pos(3, SizeOf(v) - 4)]
    ensures Patterns(v)[j] in Patterns(v) && Patterns(v)[j] != Timing && Patterns(v)[j] != Finder(c.x, c.y)
  {
    hide Alignments;
    AlignmentList(ALIGN[v]);
  }
}
