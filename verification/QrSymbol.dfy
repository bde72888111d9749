/** The symbol under construction: two square grids of modules that the encoder changes in place.
    Every method states its whole effect on the two grids as values. */
module QrSymbol {
  import opened Basics
  import opened GaloisField
  import opened QrConformance
  import opened QrPath
  import opened QrData
  import opened QrPatterns
  import opened QrPenalty

  /** A horizontal run of w modules that starts at (x, y). */
  datatype Run = Run(x: int, y: int, w: int) {
    predicate Has(p: Pos) {
      p.y == y && x <= p.x < x + w
    }
  }

  /** Row by row, and within a row with a gap between runs: every run is as long as possible and no
      module is drawn twice. */
  predicate Ascending(runs: seq<Run>) {
    forall i, j :: 0 <= i < j < |runs| ==>
      runs[i].y < runs[j].y || (runs[i].y == runs[j].y && runs[i].x + runs[i].w < runs[j].x)
  }

  class QrCode {
    const size: nat
    const dark: array2<bool>
    const reserve: array2<bool>

    ghost predicate Valid() {
      dark.Length0 == dark.Length1 == reserve.Length0 == reserve.Length1 == size && dark != reserve
    }

    /** The colours of all modules. */
    ghost function Dark(): Grid
      requires Valid()
      reads dark
    {
      imap p | InGrid(size, p) :: dark[p.y, p.x]
    }

    /** The modules that carry no data. */
    ghost function Reserve(): iset<Pos>
      requires Valid()
      reads reserve
    {
      iset p | InGrid(size, p) && reserve[p.y, p.x]
    }

    constructor (n: nat)
      ensures Valid() && size == n && fresh(dark) && fresh(reserve)
      ensures forall p :: InGrid(n, p) ==> !Dark()[p]
      ensures Reserve() == iset{}
    {
      size := n;
      dark := new bool[n, n]((_, _) => false);
      reserve := new bool[n, n]((_, _) => false);
    }

    method SetModule(x: int, y: int, value: bool)
      requires Valid() && InGrid(size, Pos(x, y))
      modifies dark, reserve
      ensures Dark() == old(Dark())[Pos(x, y) := value]
      ensures Reserve() == old(Reserve()) + iset{Pos(x, y)}
    {
      dark[y, x] := value;
      reserve[y, x] := true;
    }

    /** What module p shows and whether it is reserved, once `pattern` is drawn on `region` of the
        old grids. */
    ghost predicate Drawn(g: Grid, r: iset<Pos>, pattern: Pattern, region: iset<Pos>)
      requires Valid()
      reads dark, reserve
    {
      && Reserve() == r + region
      && Dark().Keys == g.Keys
      && forall p :: p in g.Keys ==>
        Dark()[p] == if p in region then pattern.At(size, p) == Some(true) else g[p]
    }

    /** One more module of a pattern is drawn. */
    method Draw(x: int, y: int, value: bool, ghost g: Grid, ghost r: iset<Pos>, ghost pattern: Pattern,
                ghost region: iset<Pos>)
      requires Valid() && InGrid(size, Pos(x, y)) && Drawn(g, r, pattern, region)
      requires pattern.At(size, Pos(x, y)) == Some(value)
      modifies dark, reserve
      ensures Drawn(g, r, pattern, region + iset{Pos(x, y)})
    {
      SetModule(x, y, value);
    }

    lemma DrawnNothing(pattern: Pattern)
      requires Valid()
      ensures Drawn(Dark(), Reserve(), pattern, iset{})
    {
    }

    lemma DrawnAll(g: Grid, r: iset<Pos>, pattern: Pattern)
      requires Valid() && Drawn(g, r, pattern, Cells(size, pattern))
      requires forall p :: p in g <==> InGrid(size, p)
      ensures Dark() == Painted(g, size, pattern)
      ensures Reserve() == r + Cells(size, pattern)
    {
    }

    method PaintTiming()
      requires Valid() && size >= 7
      modifies dark, reserve
      ensures Dark() == Painted(old(Dark()), size, Timing)
      ensures Reserve() == old(Reserve()) + Cells(size, Timing)
    {
      hide QrCode.Drawn;
      ghost var g, r := Dark(), Reserve();
      DrawnNothing(Timing);
      TimingRegionNext(size, 0);
      for i := 0 to size
        invariant Drawn(g, r, Timing, TimingRegion(size, i))
      {
        TimingRegionNext(size, i);
        Draw(6, i, i % 2 == 0, g, r, Timing, TimingRegion(size, i));
        Draw(i, 6, i % 2 == 0, g, r, Timing, TimingRegion(size, i) + iset{Pos(6, i)});
      }
      assert TimingRegion(size, size) == Cells(size, Timing);
      DrawnAll(g, r, Timing);
    }

    method PaintFinder(cx: int, cy: int)
      requires Valid()
      modifies dark, reserve
      ensures Dark() == Painted(old(Dark()), size, Finder(cx, cy))
      ensures Reserve() == old(Reserve()) + Cells(size, Finder(cx, cy))
    {
      hide QrCode.Drawn, BlockRegion, Painted, Cells;
      ghost var g, r, pattern := Dark(), Reserve(), Finder(cx, cy);
      DrawnNothing(pattern);
      BlockRegionStart(size, cx, cy, 4);
      for dy := -4 to 5
        invariant Drawn(g, r, pattern, BlockRegion(size, cx, cy, 4, dy, -4))
      {
        for dx := -4 to 5
          invariant Drawn(g, r, pattern, BlockRegion(size, cx, cy, 4, dy, dx))
        {
          BlockRegionNext(size, cx, cy, 4, dy, dx);
          var x, y := cx + dx, cy + dy;
          if x >= 0 && x < size && y >= 0 && y < size {
            var d := if Abs(dx) > Abs(dy) then Abs(dx) else Abs(dy);
            Draw(x, y, d != 2 && d != 4, g, r, pattern, BlockRegion(size, cx, cy, 4, dy, dx));
          }
        }
        BlockRegionRow(size, cx, cy, 4, dy);
      }
      BlockRegionEnd(size, cx, cy, 4, pattern);
      DrawnAll(g, r, pattern);
    }

    method PaintAlignment(cx: int, cy: int)
      requires Valid() && 2 <= cx < size - 2 && 2 <= cy < size - 2
      modifies dark, reserve
      ensures Dark() == Painted(old(Dark()), size, Alignment(cx, cy))
      ensures Reserve() == old(Reserve()) + Cells(size, Alignment(cx, cy))
    {
      hide QrCode.Drawn, BlockRegion, Painted, Cells;
      ghost var g, r, pattern := Dark(), Reserve(), Alignment(cx, cy);
      DrawnNothing(pattern);
      BlockRegionStart(size, cx, cy, 2);
      for dy := -2 to 3
        invariant Drawn(g, r, pattern, BlockRegion(size, cx, cy, 2, dy, -2))
      {
        for dx := -2 to 3
          invariant Drawn(g, r, pattern, BlockRegion(size, cx, cy, 2, dy, dx))
        {
          BlockRegionNext(size, cx, cy, 2, dy, dx);
          var d := if Abs(dx) > Abs(dy) then Abs(dx) else Abs(dy);
          Draw(cx + dx, cy + dy, d != 1, g, r, pattern, BlockRegion(size, cx, cy, 2, dy, dx));
        }
        BlockRegionRow(size, cx, cy, 2, dy);
      }
      BlockRegionEnd(size, cx, cy, 2, pattern);
      DrawnAll(g, r, pattern);
    }

    /** The format bits of a mask, twice, and the dark module. */
    method PaintFormat(mask: nat)
      requires Valid() && size >= 21
      modifies dark, reserve
      ensures Dark() == Painted(old(Dark()), size, Format(mask))
      ensures Reserve() == old(Reserve()) + Cells(size, Format(mask))
    {
      hide FormatWord, QrCode.Drawn, Pattern.At, FormatIndex, FormatRegion, Painted, Cells;
      ghost var g, r, pattern := Dark(), Reserve(), Format(mask);
      DrawnNothing(pattern);
      FormatRegionEnd(size, mask);
      var word := QrFormatWord(mask);
      PaintFormatFirst(mask, word, g, r);
      PaintFormatSecond(mask, word, g, r);
      Draw(8, size - 8, true, g, r, pattern, FormatRegion(size, 15, 15));
      DrawnAll(g, r, pattern);
    }

    method PaintFormatSecond(mask: nat, word: seq<bool>, ghost g: Grid, ghost r: iset<Pos>)
      requires Valid() && size >= 21 && word == FormatWord(mask)
      requires Drawn(g, r, Format(mask), FormatRegion(size, 15, 0))
      modifies dark, reserve
      ensures Drawn(g, r, Format(mask), FormatRegion(size, 15, 15))
    {
      hide FormatWord, QrCode.Drawn, Pattern.At, FormatIndex, FormatRegion;
      ghost var pattern := Format(mask);
      for i := 0 to 8
        invariant Drawn(g, r, pattern, FormatRegion(size, 15, i))
      {
        FormatSecond(size, mask, i);
        Draw(size - 1 - i, 8, word[14 - i], g, r, pattern, FormatRegion(size, 15, i));
      }
      for i := 8 to 15
        invariant Drawn(g, r, pattern, FormatRegion(size, 15, i))
      {
        FormatSecond(size, mask, i);
        Draw(8, size - 15 + i, word[14 - i], g, r, pattern, FormatRegion(size, 15, i));
      }
    }

    method PaintFormatFirst(mask: nat, word: seq<bool>, ghost g: Grid, ghost r: iset<Pos>)
      requires Valid() && size >= 21 && word == FormatWord(mask)
      requires Drawn(g, r, Format(mask), FormatRegion(size, 0, 0))
      modifies dark, reserve
      ensures Drawn(g, r, Format(mask), FormatRegion(size, 15, 0))
    {
      hide FormatWord, QrCode.Drawn, Pattern.At, FormatIndex, FormatRegion, Painted, Cells;
      ghost var pattern := Format(mask);
      for i := 0 to 6
        invariant Drawn(g, r, pattern, FormatRegion(size, i, 0))
      {
        FormatFirst(size, mask, i);
        Draw(8, i, word[14 - i], g, r, pattern, FormatRegion(size, i, 0));
      }
      FormatFirst(size, mask, 6);
      Draw(8, 7, word[8], g, r, pattern, FormatRegion(size, 6, 0));
      FormatFirst(size, mask, 7);
      Draw(8, 8, word[7], g, r, pattern, FormatRegion(size, 7, 0));
      FormatFirst(size, mask, 8);
      Draw(7, 8, word[6], g, r, pattern, FormatRegion(size, 8, 0));
      PaintFormatRow(mask, word, g, r);
    }

    method PaintFormatRow(mask: nat, word: seq<bool>, ghost g: Grid, ghost r: iset<Pos>)
      requires Valid() && size >= 21 && word == FormatWord(mask)
      requires Drawn(g, r, Format(mask), FormatRegion(size, 9, 0))
      modifies dark, reserve
      ensures Drawn(g, r, Format(mask), FormatRegion(size, 15, 0))
    {
      hide FormatWord, QrCode.Drawn, Pattern.At, FormatIndex, FormatRegion, Painted, Cells;
      ghost var pattern := Format(mask);
      for i := 9 to 15
        invariant Drawn(g, r, pattern, FormatRegion(size, i, 0))
      {
        FormatFirst(size, mask, i);
        Draw(14 - i, 8, word[14 - i], g, r, pattern, FormatRegion(size, i, 0));
      }
    }

    method PaintVersion(v: nat)
      requires Valid() && size >= 21
      modifies dark, reserve
      ensures Dark() == Painted(old(Dark()), size, Version(v))
      ensures Reserve() == old(Reserve()) + Cells(size, Version(v))
    {
      hide ShiftRegister, NatBits, Clock, QrCode.Drawn, Pattern.At, VersionWord, VersionRegion;
      ghost var g, r, pattern := Dark(), Reserve(), Version(v);
      DrawnNothing(pattern);
      var rem := ClockRounds(NatBits(v, 12), VERSION_POLY, 12);
      var word := NatBits(v, 6) + rem;
      VersionEnds(size, v);
      for i := 0 to 18
        invariant Drawn(g, r, pattern, VersionRegion(size, i))
      {
        var a, b := size - 11 + i % 3, i / 3;
        VersionStep(size, v, i, a, b);
        Draw(a, b, word[17 - i], g, r, pattern, VersionRegion(size, i));
        Draw(b, a, word[17 - i], g, r, pattern, VersionRegion(size, i) + iset{Pos(a, b)});
      }
      DrawnAll(g, r, pattern);
    }

    /** The patterns in `done` are drawn. */
    ghost predicate Progress(g: Grid, r: iset<Pos>, done: seq<Pattern>)
      requires Valid()
      reads dark, reserve
    {
      Dark() == PaintedAll(g, size, done) && Reserve() == r + CellsAll(size, done)
    }

    /** All function patterns of version v, in the order of the source. */
    method Functions(v: nat)
      requires Valid() && IsVersion(v) && size == SizeOf(v)
      modifies dark, reserve
      ensures Dark() == PaintedAll(old(Dark()), size, Patterns(v))
      ensures Reserve() == old(Reserve()) + CellsAll(size, Patterns(v))
    {
      hide Painted, Cells, CellsAll, PaintedAll, QrCode.Dark, QrCode.Reserve, Alignments;
      ghost var g, r := Dark(), Reserve();
      ghost var done: seq<Pattern> := [];
      DrawnSoFar(g, r, size, done, Timing);
      PaintTiming();
      done := done + [Timing];
      var centres := [Pos(3, 3), Pos(size - 4, 3), Pos(3, size - 4)];
      ghost var finders := [Finder(3, 3), Finder(size - 4, 3), Finder(3, size - 4)];
      for k := 0 to 3
        invariant Progress(g, r, done)
        invariant done == [Timing] + finders[..k]
      {
        var c := centres[k];
        DrawnSoFar(g, r, size, done, Finder(c.x, c.y));
        PaintFinder(c.x, c.y);
        done := done + [Finder(c.x, c.y)];
      }
      PaintAlignments(v, g, r, done);
      done := done + Alignments(ALIGN[v], |ALIGN[v]|, 0);
      DrawnSoFar(g, r, size, done, Format(0));
      PaintFormat(0);
      done := done + [Format(0)];
      if v >= 7 {
        DrawnSoFar(g, r, size, done, Version(v));
        PaintVersion(v);
        done := done + [Version(v)];
      }
      assert done == Patterns(v);
    }

    method PaintAlignments(v: nat, ghost g: Grid, ghost r: iset<Pos>, ghost start: seq<Pattern>)
      requires Valid() && IsVersion(v) && size == SizeOf(v)
      requires Progress(g, r, start)
      modifies dark, reserve
      ensures Progress(g, r, start + Alignments(ALIGN[v], |ALIGN[v]|, 0))
    {
      hide Painted, Cells, CellsAll, PaintedAll, QrCode.Dark, QrCode.Reserve;
      var pos := ALIGN[v];
      ghost var done := start;
      for i := 0 to |pos|
        invariant Progress(g, r, done)
        invariant done == start + Alignments(pos, i, 0)
      {
        for j := 0 to |pos|
          invariant Progress(g, r, done)
          invariant done == start + Alignments(pos, i, j)
        {
          var last := |pos| - 1;
          if !((i == 0 && j == 0) || (i == 0 && j == last) || (i == last && j == 0)) {
            DrawnSoFar(g, r, size, done, Alignment(pos[j], pos[i]));
            AlignmentInside(v, i, j);
            PaintAlignment(pos[j], pos[i]);
            done := done + [Alignment(pos[j], pos[i])];
          }
        }
      }
    }

    /** Writes the data bits along the zigzag into the modules that are not reserved; bits beyond
        the last free module are dropped. */
    method Place(data: seq<Byte>)
      requires Valid()
      modifies dark
      ensures var free, bits := Free(Path(size), Reserve()), Unpack(data);
        Dark() == Filled(old(Dark()), free, bits, Smaller(|free|, |bits|))
    {
      hide QrCode.Placed, QrCode.Reserve, QrCode.Dark, Free, Filled, Unpack, Strip, PathFrom;
      ghost var g, seen := Dark(), [];
      PlacedNothing(data);
      var i := 0;
      var right := size - 1;
      while right >= 1
        invariant right < size
        invariant Path(size) == seen + PathFrom(size, right)
        invariant Placed(g, data, seen, i)
      {
        PathStep(size, right);
        if right == 6 {
          right := 5;
        }
        i := PlaceStrip(right, data, i, g, seen);
        seen := seen + Strip(size, right, 2 * size);
        right := right - 2;
      }
      PathStep(size, right);
      assert seen == Path(size);
      PlacedAll(g, data, i);
    }

    lemma PlacedNothing(data: seq<Byte>)
      requires Valid()
      ensures Placed(Dark(), data, [], 0)
    {
    }

    lemma PlacedAll(g: Grid, data: seq<Byte>, i: nat)
      requires Valid() && Placed(g, data, Path(size), i)
      ensures var free, bits := Free(Path(size), Reserve()), Unpack(data);
        Dark() == Filled(g, free, bits, Smaller(|free|, |bits|))
    {
    }

    /** The two columns right and right - 1. */
    method PlaceStrip(right: int, data: seq<Byte>, i: nat, ghost g: Grid, ghost start: seq<Pos>) returns (next: nat)
      requires Valid() && 1 <= right < size && Placed(g, data, start, i)
      modifies dark
      ensures Placed(g, data, start + Strip(size, right, 2 * size), next)
    {
      hide QrCode.Placed, Strip, StripAt;
      next := i;
      ghost var seen := start;
      StripMore(size, right, 0);
      for vert := 0 to size
        invariant seen == start + Strip(size, right, 2 * vert)
        invariant Placed(g, data, seen, next)
      {
        for j := 0 to 2
          invariant seen == start + Strip(size, right, 2 * vert + j)
          invariant Placed(g, data, seen, next)
        {
          var x, y := right - j, vert;
          if (right + 1) / 2 % 2 == 0 {
            y := size - 1 - vert;
          }
          StripStep(size, right, vert, j);
          StripMore(size, right, 2 * vert + j);
          next := PlaceModule(x, y, data, next, g, seen);
          seen := seen + [Pos(x, y)];
        }
      }
    }

    /** The body of the innermost loop. */
    method PlaceModule(x: int, y: int, data: seq<Byte>, i: nat, ghost g: Grid, ghost seen: seq<Pos>)
      returns (next: nat)
      requires Valid() && InGrid(size, Pos(x, y)) && Placed(g, data, seen, i)
      modifies dark
      ensures Placed(g, data, seen + [Pos(x, y)], next)
    {
      hide Free, Filled, Unpack;
      next := i;
      PlacedMore(g, Reserve(), Unpack(data), seen, i, Pos(x, y));
      if !reserve[y, x] && i < |data| * 8 {
        UnpackAt(data, i);
        dark[y, x] := data[i / 8].Bits()[i % 8];
        next := i + 1;
      }
    }

    /** Flips the data modules that the mask selects. */
    method ApplyMask(mask: nat)
      requires Valid()
      modifies dark
      ensures Dark() == Masked(old(Dark()), Reserve(), mask)
      ensures mask < 8 ==> Dark() == Reversed(old(Dark()), Reserve(), mask)
    {
      hide Flips;
      ghost var g := Dark();
      if mask < 8 {
        MaskedIsReversed(g, Reserve(), mask);
      }
      for y := 0 to size
        invariant forall p :: InGrid(size, p) ==>
          dark[p.y, p.x] == if p.y < y then MaskedModule(g, Reserve(), mask, p) else g[p]
      {
        for x := 0 to size
          invariant forall p :: InGrid(size, p) ==>
            dark[p.y, p.x] == if p.y < y || (p.y == y && p.x < x) then MaskedModule(g, Reserve(), mask, p) else g[p]
        {
          assert dark[y, x] == g[Pos(x, y)];
          if Flips(mask, Pos(x, y)) && !reserve[y, x] {
            dark[y, x] := !dark[y, x];
          }
        }
      }
    }

    /** The penalty of the grid as it stands. */
    method Score() returns (score: nat)
      requires Valid() && size > 0
      ensures score == Penalty(Dark(), size)
    {
      hide LinesCost, Squares, DarkCount;
      var rows := ScoreLines(false);
      var columns := ScoreLines(true);
      var squares, count := ScoreSquares();
      score := rows + columns + 3 * squares;
      var total := size * size;
      var k := (Abs(count * 20 - total * 10) + total - 1) / total - 1;
      score := score + 10 * (if k > 0 then k else 0);
    }

    method ScoreLines(column: bool) returns (score: nat)
      requires Valid()
      ensures score == LinesCost(Dark(), size, column, size)
    {
      hide RunCost, FinderCost;
      ghost var g := Dark();
      score := 0;
      for y := 0 to size
        invariant score == LinesCost(g, size, column, y)
      {
        var line := seq(size, x requires 0 <= x < size && Valid() reads dark =>
          if column then dark[x, y] else dark[y, x]);
        assert line == Line(g, size, y, column);
        var runs := RunScore(line);
        var finders := FinderScore(line);
        score := score + runs + finders;
      }
    }

    method ScoreSquares() returns (squares: nat, count: nat)
      requires Valid()
      ensures squares == Squares(Dark(), size, size, 0)
      ensures count == DarkCount(Dark(), size, size, 0)
    {
      ghost var g := Dark();
      squares, count := 0, 0;
      for y := 0 to size
        invariant squares == Squares(g, size, y, 0)
        invariant count == DarkCount(g, size, y, 0)
      {
        for x := 0 to size
          invariant squares == Squares(g, size, y, x)
          invariant count == DarkCount(g, size, y, x)
        {
          if dark[y, x] {
            count := count + 1;
          }
          if x + 1 < size && y + 1 < size && dark[y, x] == dark[y, x + 1] && dark[y, x] == dark[y + 1, x]
             && dark[y, x] == dark[y + 1, x + 1] {
            squares := squares + 1;
          }
        }
      }
    }

    /** The horizontal runs of dark modules that the drawing consists of, row by row. */
    method Runs() returns (runs: seq<Run>)
      requires Valid()
      ensures forall p :: InGrid(size, p) ==> (Dark()[p] <==> exists r :: r in runs && r.Has(p))
      ensures forall r :: r in runs ==> 0 <= r.x && 0 < r.w && r.x + r.w <= size && 0 <= r.y < size
      ensures Ascending(runs)
    {
      runs := [];
      for y := 0 to size
        invariant RowsDrawn(runs, y, 0)
      {
        var x := 0;
        while x < size
          invariant 0 <= x <= size
          invariant RowsDrawn(runs, y, x)
          invariant runs != [] && runs[|runs| - 1].y == y && runs[|runs| - 1].x + runs[|runs| - 1].w == x < size ==>
            !dark[y, x]
        {
          if !dark[y, x] {
            x := x + 1;
          } else {
            var w := 1;
            while x + w < size && dark[y, x + w]
              invariant 1 <= w <= size - x
              invariant forall k :: x <= k < x + w ==> dark[y, k]
            {
              w := w + 1;
            }
            OneMoreRun(runs, y, x, w);
            runs := runs + [Run(x, y, w)];
            x := x + w;
          }
        }
      }
    }

    /** The runs cover exactly the dark modules above row y and, in row y, left of x. */
    ghost predicate RowsDrawn(runs: seq<Run>, y: int, x: int)
      requires Valid()
      reads dark
    {
      && (forall p :: InGrid(size, p) && (p.y < y || (p.y == y && p.x < x)) ==>
           (dark[p.y, p.x] <==> exists r :: r in runs && r.Has(p)))
      && (forall r :: r in runs ==>
           0 <= r.x && 0 < r.w && r.x + r.w <= size && 0 <= r.y && (r.y < y || (r.y == y && r.x + r.w <= x)))
      && Ascending(runs)
    }

    lemma OneMoreRun(runs: seq<Run>, y: int, x: int, w: int)
      requires Valid() && 0 <= y < size && 0 <= x && 0 < w && x + w <= size
      requires RowsDrawn(runs, y, x)
      requires forall k :: x <= k < x + w ==> dark[y, k]
      requires runs != [] && runs[|runs| - 1].y == y ==> runs[|runs| - 1].x + runs[|runs| - 1].w < x
      ensures RowsDrawn(runs + [Run(x, y, w)], y, x + w)
    {
      var run := Run(x, y, w);
      var more := runs + [run];
      forall p | InGrid(size, p) && (p.y < y || (p.y == y && p.x < x + w))
        ensures dark[p.y, p.x] <==> exists r :: r in more && r.Has(p)
      {
        if p.y == y && p.x >= x {
          assert run in more && run.Has(p);
        } else if exists r :: r in runs && r.Has(p) {
          var r :| r in runs && r.Has(p);
          assert r in more;
        }
      }
    }

    /** After the path `seen`, the first i bits stand in the free modules. */
    ghost predicate Placed(g: Grid, data: seq<Byte>, seen: seq<Pos>, i: nat)
      requires Valid()
      reads dark, reserve
    {
      var free, bits := Free(seen, Reserve()), Unpack(data);
      i == Smaller(|free|, |bits|) && Dark() == Filled(g, free, bits, i)
    }
  }

  // ----- the modules that are drawn when a loop has come so far -----

  ghost function TimingRegion(n: nat, i: int): iset<Pos> {
    iset p | InGrid(n, p) && ((p.x == 6 && p.y < i) || (p.y == 6 && p.x < i))
  }

  lemma TimingRegionNext(n: nat, i: int)
    requires 0 <= i < n && n >= 7
    ensures TimingRegion(n, 0) == iset{}
    ensures TimingRegion(n, i + 1) == TimingRegion(n, i) + iset{Pos(6, i)} + iset{Pos(i, 6)}
  {
  }

  ghost function BlockRegion(n: nat, cx: int, cy: int, radius: int, dy: int, dx: int): iset<Pos> {
    iset p | InGrid(n, p) && Ring(p, cx, cy) <= radius && (p.y < cy + dy || (p.y == cy + dy && p.x < cx + dx))
  }

  lemma BlockRegionStart(n: nat, cx: int, cy: int, radius: int)
    ensures BlockRegion(n, cx, cy, radius, -radius, -radius) == iset{}
  {
  }

  lemma BlockRegionNext(n: nat, cx: int, cy: int, radius: int, dy: int, dx: int)
    requires -radius <= dy <= radius && -radius <= dx <= radius
    ensures var before, p := BlockRegion(n, cx, cy, radius, dy, dx), Pos(cx + dx, cy + dy);
      BlockRegion(n, cx, cy, radius, dy, dx + 1) == if InGrid(n, p) then before + iset{p} else before
  {
  }

  lemma BlockRegionRow(n: nat, cx: int, cy: int, radius: int, dy: int)
    ensures BlockRegion(n, cx, cy, radius, dy, radius + 1) == BlockRegion(n, cx, cy, radius, dy + 1, -radius)
  {
  }

  lemma BlockRegionEnd(n: nat, cx: int, cy: int, radius: int, pattern: Pattern)
    requires (pattern == Finder(cx, cy) && radius == 4) || (pattern == Alignment(cx, cy) && radius == 2)
    ensures BlockRegion(n, cx, cy, radius, radius + 1, -radius) == Cells(n, pattern)
  {
  }

  /** The first copy up to bit `first`, the second up to bit `second`. */
  ghost function FormatRegion(n: nat, first: int, second: int): iset<Pos> {
    iset p | InGrid(n, p) && (FirstCopy(p, first) || SecondCopy(n, p, second))
  }

  ghost predicate FirstCopy(p: Pos, first: int) {
    || (p.x == 8 && p.y < 6 && p.y < first)
    || (p.x == 8 && 7 <= p.y <= 8 && p.y - 1 < first)
    || (p == Pos(7, 8) && 8 < first)
    || (p.y == 8 && p.x < 6 && 14 - p.x < first)
  }

  ghost predicate SecondCopy(n: nat, p: Pos, second: int) {
    || (p.y == 8 && n - 8 <= p.x && n - 1 - p.x < second)
    || (p.x == 8 && n - 7 <= p.y && p.y - n + 15 < second)
  }

  function FirstPos(i: nat): Pos {
    if i < 6 then Pos(8, i) else if i < 8 then Pos(8, i + 1) else if i == 8 then Pos(7, 8) else Pos(14 - i, 8)
  }

  function SecondPos(n: nat, i: nat): Pos {
    if i < 8 then Pos(n - 1 - i, 8) else Pos(8, n - 15 + i)
  }

  lemma FormatFirst(n: nat, mask: nat, i: nat)
    requires n >= 21 && i < 15
    ensures FormatRegion(n, i + 1, 0) == FormatRegion(n, i, 0) + iset{FirstPos(i)}
    ensures Format(mask).At(n, FirstPos(i)) == Some(FormatWord(mask)[14 - i])
  {
    hide FormatWord;
  }

  lemma FormatSecond(n: nat, mask: nat, i: nat)
    requires n >= 21 && i < 15
    ensures FormatRegion(n, 15, i + 1) == FormatRegion(n, 15, i) + iset{SecondPos(n, i)}
    ensures Format(mask).At(n, SecondPos(n, i)) == Some(FormatWord(mask)[14 - i])
  {
    hide FormatWord;
  }

  ghost function VersionRegion(n: nat, i: int): iset<Pos> {
    iset p | InGrid(n, p) && 0 <= VersionIndex(n, p) < i
  }

  lemma VersionStep(n: nat, v: nat, i: nat, a: int, b: int)
    requires n >= 21 && i < 18 && a == n - 11 + i % 3 && b == i / 3
    ensures InGrid(n, Pos(a, b)) && InGrid(n, Pos(b, a))
    ensures VersionRegion(n, i + 1) == VersionRegion(n, i) + iset{Pos(a, b)} + iset{Pos(b, a)}
    ensures Version(v).At(n, Pos(a, b)) == Version(v).At(n, Pos(b, a)) == Some(VersionWord(v)[17 - i])
  {
    hide VersionWord;
    assert i == 3 * b + (a - (n - 11));
    assert VersionIndex(n, Pos(a, b)) == i && VersionIndex(n, Pos(b, a)) == i;
    forall p
      ensures p in VersionRegion(n, i + 1) <==> p in VersionRegion(n, i) || p == Pos(a, b) || p == Pos(b, a)
    {
    }
  }

  lemma VersionEnds(n: nat, v: nat)
    requires n >= 21
    ensures VersionWord(v) == NatBits(v, 6) + ShiftRegister(NatBits(v, 12), VERSION_POLY, 12)
    ensures VersionRegion(n, 0) == iset{}
    ensures VersionRegion(n, 18) == Cells(n, Version(v))
  {
    hide ShiftRegister, NatBits;
  }

  lemma FormatRegionEnd(n: nat, mask: nat)
    requires n >= 21
    ensures Format(mask).At(n, Pos(8, n - 8)) == Some(true)
    ensures FormatRegion(n, 0, 0) == iset{}
    ensures FormatRegion(n, 15, 15) + iset{Pos(8, n - 8)} == Cells(n, Format(mask))
  {
    hide FormatWord;
  }

  lemma DrawnSoFar(g: Grid, r: iset<Pos>, n: nat, done: seq<Pattern>, pattern: Pattern)
    ensures done == [] ==> PaintedAll(g, n, done) == g && r + CellsAll(n, done) == r
    ensures PaintedAll(g, n, done + [pattern]) == Painted(PaintedAll(g, n, done), n, pattern)
    ensures r + CellsAll(n, done + [pattern]) == r + CellsAll(n, done) + Cells(n, pattern)
  {
    hide Painted, Pattern.At;
    var more := done + [pattern];
    assert more[..|more| - 1] == done;
    assert CellsAll(n, more) == CellsAll(n, done) + Cells(n, pattern) by {
      forall p
        ensures p in CellsAll(n, more) <==> p in CellsAll(n, done) + Cells(n, pattern)
      {
        assert more[|done|] == pattern;
        if p in CellsAll(n, done) {
          var k :| 0 <= k < |done| && done[k].At(n, p).Some?;
          assert more[k].At(n, p).Some?;
        }
      }
    }
  }

  lemma AlignmentInside(v: nat, i: nat, j: nat)
    requires IsVersion(v) && i < |ALIGN[v]| && j < |ALIGN[v]|
    ensures 2 <= ALIGN[v][i] < SizeOf(v) - 2 && 2 <= ALIGN[v][j] < SizeOf(v) - 2
  {
  }

  ghost function MaskedModule(g: Grid, reserve: iset<Pos>, mask: nat, p: Pos): bool
    requires p in g && p.x >= 0 && p.y >= 0
  {
    if p in reserve then g[p] else g[p] != Flips(mask, p)
  }

  // ----- placing bits -----

  function Smaller(a: nat, b: nat): nat {
    if a < b then a else b
  }

  /** The first k bits in the first k free modules. */
  ghost function Filled(g: Grid, free: seq<Pos>, bits: seq<bool>, k: nat): Grid
    requires k <= |free| && k <= |bits|
  {
    if k == 0 then g else Filled(g, free, bits, k - 1)[free[k - 1] := bits[k - 1]]
  }

  lemma {:induction false} FilledLonger(g: Grid, free: seq<Pos>, more: seq<Pos>, bits: seq<bool>, k: nat)
    requires k <= |free| && k <= |bits| && free <= more
    ensures Filled(g, free, bits, k) == Filled(g, more, bits, k)
  {
    if k > 0 {
      FilledLonger(g, free, more, bits, k - 1);
    }
  }

  lemma PathStep(n: nat, right: int)
    ensures right < 1 ==> PathFrom(n, right) == []
    ensures right >= 1 ==>
      PathFrom(n, right) == Strip(n, SkipTiming(right), 2 * n) + PathFrom(n, SkipTiming(right) - 2)
  {
  }

  lemma StripMore(n: nat, right: int, k: nat)
    ensures Strip(n, right, 0) == []
    ensures Strip(n, right, k + 1) == Strip(n, right, k) + [StripAt(n, right, k)]
  {
  }

  lemma StripStep(n: nat, right: int, vert: nat, j: nat)
    requires j < 2
    ensures StripAt(n, right, 2 * vert + j) ==
      Pos(right - j, if (right + 1) / 2 % 2 == 0 then n - 1 - vert else vert)
  {
  }

  lemma {:induction false} UnpackAt(data: seq<Byte>, i: nat)
    requires i < 8 * |data|
    ensures Unpack(data)[i] == data[i / 8].Bits()[i % 8]
  {
    if i < 8 * (|data| - 1) {
      UnpackAt(data[..|data| - 1], i);
    }
  }

  /** One more module of the path: it takes the next bit if it is free and a bit is left. */
  lemma PlacedMore(g: Grid, r: iset<Pos>, bits: seq<bool>, seen: seq<Pos>, i: nat, p: Pos)
    requires i == Smaller(|Free(seen, r)|, |bits|)
    ensures var free, more := Free(seen, r), Free(seen + [p], r);
      if p !in r && i < |bits|
        then i + 1 == Smaller(|more|, |bits|)
          && Filled(g, more, bits, i + 1) == Filled(g, free, bits, i)[p := bits[i]]
        else i == Smaller(|more|, |bits|) && Filled(g, more, bits, i) == Filled(g, free, bits, i)
  {
    assert (seen + [p])[..|seen|] == seen;
    FilledLonger(g, Free(seen, r), Free(seen + [p], r), bits, i);
  }
}
