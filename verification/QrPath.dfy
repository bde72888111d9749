/** The zigzag along which the data bits are placed (section 7.7.3 of ISO/IEC 18004:2015), for a
    grid of any size and any set of reserved modules. */
module QrPath {

  datatype Pos = Pos(x: int, y: int)

  predicate InGrid(n: nat, p: Pos) {
    0 <= p.x < n && 0 <= p.y < n
  }

  /** Step k of the two-column strip whose right column is `right`. */
  function StripAt(n: nat, right: int, k: nat): Pos {
    Pos(right - k % 2, if (right + 1) / 2 % 2 == 0 then n - 1 - k / 2 else k / 2)
  }

  function Strip(n: nat, right: int, length: nat): (strip: seq<Pos>)
    ensures |strip| == length
    ensures forall k :: 0 <= k < length ==> strip[k] == StripAt(n, right, k)
  {
    seq(length, k requires 0 <= k < length => StripAt(n, right, k))
  }

  /** The timing column 6 is stepped over. */
  function SkipTiming(right: int): int {
    if right == 6 then 5 else right
  }

  function PathFrom(n: nat, right: int): seq<Pos>
    decreases right
  {
    if right < 1 then []
    else Strip(n, SkipTiming(right), 2 * n) + PathFrom(n, SkipTiming(right) - 2)
  }

  function Path(n: nat): seq<Pos> {
    PathFrom(n, n - 1)
  }

  predicate NoDuplicates(path: seq<Pos>) {
    forall i, j :: 0 <= i < j < |path| ==> path[i] != path[j]
  }

  /** The modules of the path that are not reserved, in order. */
  function Free(path: seq<Pos>, reserve: iset<Pos>): (free: seq<Pos>)
    ensures |free| <= |path|
  {
    if path == [] then []
    else
      var last := path[|path| - 1];
      Free(path[..|path| - 1], reserve) + (if last in reserve then [] else [last])
  }

  // ----- which modules the path visits -----

  /** The columns visited from `right` on. */
  predicate Covered(right: int, x: int) {
    if right % 2 == 1 then 0 <= x <= right
    else if right >= 6 then 0 <= x <= right && x != 6
    else 1 <= x <= right
  }

  lemma StripCovers(n: nat, right: int, p: Pos)
    ensures p in Strip(n, right, 2 * n) <==> 0 <= p.y < n && (p.x == right || p.x == right - 1)
  {
    if 0 <= p.y < n && (p.x == right || p.x == right - 1) {
      var row := if (right + 1) / 2 % 2 == 0 then n - 1 - p.y else p.y;
      assert Strip(n, right, 2 * n)[2 * row + (right - p.x)] == p;
    }
  }

  lemma CoveredStep(right: int, x: int)
    ensures right < 1 ==> !Covered(right, x)
    ensures right >= 1 ==> var r := SkipTiming(right);
      Covered(right, x) <==> x == r || x == r - 1 || Covered(r - 2, x)
  {
  }

  lemma {:induction false} PathCovers(n: nat, right: int, p: Pos)
    ensures p in PathFrom(n, right) <==> 0 <= p.y < n && Covered(right, p.x)
    decreases right
  {
    hide Strip, Covered;
    CoveredStep(right, p.x);
    if right >= 1 {
      var r := SkipTiming(right);
      StripCovers(n, r, p);
      PathCovers(n, r - 2, p);
      assert PathFrom(n, right) == Strip(n, r, 2 * n) + PathFrom(n, r - 2);
    }
  }

  lemma {:induction false} PathRepeatsNothing(n: nat, right: int)
    ensures NoDuplicates(PathFrom(n, right))
    decreases right
  {
    if right >= 1 {
      var r := SkipTiming(right);
      var strip, rest := Strip(n, r, 2 * n), PathFrom(n, r - 2);
      PathRepeatsNothing(n, r - 2);
      forall i, j | 0 <= i < j < |strip| + |rest|
        ensures (strip + rest)[i] != (strip + rest)[j]
      {
        if j < |strip| {
          assert i == 2 * (i / 2) + i % 2 && j == 2 * (j / 2) + j % 2;
        } else if i < |strip| {
          assert rest[j - |strip|] in rest;
          PathCovers(n, r - 2, rest[j - |strip|]);
        }
      }
    }
  }

  /** Every module outside column 6 is visited exactly once, and column 6 of an odd grid never;
      odd grids below size 7, which no version uses, end in column 1 and miss column 0 instead. */
  lemma PathVisitsOnce(n: nat)
    ensures NoDuplicates(Path(n))
    ensures forall p :: p in Path(n) <==> InGrid(n, p) && VisitedColumn(n, p.x)
  {
    hide NoDuplicates, PathFrom;
    PathRepeatsNothing(n, n - 1);
    forall p
      ensures p in Path(n) <==> InGrid(n, p) && VisitedColumn(n, p.x)
    {
      PathCovers(n, n - 1, p);
      ColumnsOfPath(n, p.x);
    }
  }

  predicate VisitedColumn(n: nat, x: int) {
    n % 2 == 0 || (if n >= 7 then x != 6 else x != 0)
  }

  lemma ColumnsOfPath(n: nat, x: int)
    ensures Covered(n - 1, x) <==> 0 <= x < n && VisitedColumn(n, x)
  {
  }

  /** For odd sizes the promise holds exactly from size 7 on. */
  lemma OddGridsCoverAllButTiming(n: nat)
    requires n % 2 == 1
    ensures (forall p :: p in Path(n) <==> InGrid(n, p) && p.x != 6) <==> n >= 7
  {
    PathVisitsOnce(n);
    if n < 7 {
      assert InGrid(n, Pos(0, 0)) && Pos(0, 0) !in Path(n);
    }
  }

  // ----- the order of the path -----

  /** The right column of strip k from `right` on. */
  function StripRight(right: int, k: nat): int
    decreases k
  {
    if k == 0 then SkipTiming(right) else StripRight(SkipTiming(right) - 2, k - 1)
  }

  lemma {:induction false} PathAt(n: nat, right: int, k: nat, t: nat)
    requires t < 2 * n && StripRight(right, k) >= 1
    ensures 2 * n * k + t < |PathFrom(n, right)|
    ensures PathFrom(n, right)[2 * n * k + t] == StripAt(n, StripRight(right, k), t)
    decreases k
  {
    hide StripAt, PathFrom;
    StripRightFalls(right, k);
    FirstStrip(n, right);
    if k > 0 {
      PathAt(n, SkipTiming(right) - 2, k - 1, t);
      assert 2 * n * k == 2 * n + 2 * n * (k - 1);
      var more := PathFrom(n, SkipTiming(right) - 2);
      assert PathFrom(n, right)[2 * n + (2 * n * (k - 1) + t)] == more[2 * n * (k - 1) + t];
    }
  }

  /** A path begins with its first strip. */
  lemma FirstStrip(n: nat, right: int)
    requires right >= 1
    ensures PathFrom(n, right) == Strip(n, SkipTiming(right), 2 * n) + PathFrom(n, SkipTiming(right) - 2)
    ensures |Strip(n, SkipTiming(right), 2 * n)| == 2 * n
    ensures forall t :: 0 <= t < 2 * n ==> PathFrom(n, right)[t] == StripAt(n, SkipTiming(right), t)
  {
    hide StripAt;
  }

  lemma {:induction false} StripRightFalls(right: int, k: nat)
    ensures StripRight(right, k) <= right
    decreases k
  {
    if k > 0 {
      StripRightFalls(SkipTiming(right) - 2, k - 1);
    }
  }

  lemma {:induction false} StripRightOf(right: int, k: nat)
    requires right % 2 == 0 && right >= 8 ==> 2 * k <= right
    ensures right % 2 == 1 ==> StripRight(right, k) == right - 2 * k
    ensures right % 2 == 0 && right >= 6 ==>
      StripRight(right, k) == if right - 2 * k > 6 then right - 2 * k else right - 2 * k - 1
    decreases k
  {
    if k > 0 {
      StripRightOf(SkipTiming(right) - 2, k - 1);
    }
  }

  /** The right column of strip k in a symbol of version v. */
  function PrintedColumn(v: nat, k: nat): int {
    if k < 5 + 2 * v then 16 + 4 * v - 2 * k else 15 + 4 * v - 2 * k
  }

  lemma StripDirection(v: nat, k: nat, row: nat, j: nat)
    requires j < 2
    ensures StripAt(17 + 4 * v, PrintedColumn(v, k), 2 * row + j)
            == Pos(PrintedColumn(v, k) - j, if k % 2 == 0 then 16 + 4 * v - row else row)
  {
    var half := (PrintedColumn(v, k) + 1) / 2;
    assert half == 8 + 2 * v - k;
    assert half % 2 == 0 <==> k % 2 == 0;
  }

  /** In a symbol of any version: strips of two columns from the right, column 6 left out, every
      other one upwards beginning with the first, and in each row the right module before the left. */
  lemma ZigzagOrder(v: nat, k: nat, row: nat, j: nat)
    requires v >= 1 && k < 8 + 2 * v && row < 17 + 4 * v && j < 2
    ensures var n := 17 + 4 * v; var at := 2 * n * k + (2 * row + j);
      at < |Path(n)|
      && Path(n)[at] == Pos(PrintedColumn(v, k) - j, if k % 2 == 0 then 16 + 4 * v - row else row)
  {
    hide PathFrom, StripAt, StripRight;
    var n := 17 + 4 * v;
    StripRightOf(n - 1, k);
    assert StripRight(n - 1, k) == PrintedColumn(v, k);
    PathAt(n, n - 1, k, 2 * row + j);
    StripDirection(v, k, row, j);
  }

  // ----- the free modules -----

  lemma {:induction false} FreeMembers(path: seq<Pos>, reserve: iset<Pos>, p: Pos)
    ensures p in Free(path, reserve) <==> p in path && p !in reserve
  {
    if path != [] {
      FreeMembers(path[..|path| - 1], reserve, p);
      assert path == path[..|path| - 1] + [path[|path| - 1]];
    }
  }

  lemma {:induction false} FreeRepeatsNothing(path: seq<Pos>, reserve: iset<Pos>)
    requires NoDuplicates(path)
    ensures NoDuplicates(Free(path, reserve))
  {
    if path != [] {
      var front, last := path[..|path| - 1], path[|path| - 1];
      FreeRepeatsNothing(front, reserve);
      FreeMembers(front, reserve, last);
    }
  }

  lemma {:induction false} FreePrefix(path: seq<Pos>, reserve: iset<Pos>, k: nat)
    requires k <= |path|
    ensures Free(path[..k], reserve) <= Free(path, reserve)
  {
    if k == |path| {
      assert path[..k] == path;
    } else {
      FreePrefix(path[..|path| - 1], reserve, k);
      assert path[..|path| - 1][..k] == path[..k];
    }
  }

  // ----- counting -----

  ghost function Rect(x: int, y: int, w: nat, h: nat): set<Pos> {
    set i, j | x <= i < x + w && y <= j < y + h :: Pos(i, j)
  }

  lemma {:induction false} RectSize(x: int, y: int, w: nat, h: nat)
    ensures |Rect(x, y, w, h)| == w * h
    decreases w
  {
    if w == 0 {
      assert Rect(x, y, w, h) == {};
    } else {
      RectSize(x, y, w - 1, h);
      ColumnSize(x + w - 1, y, h);
      var front, last := Rect(x, y, w - 1, h), Rect(x + w - 1, y, 1, h);
      assert Rect(x, y, w, h) == front + last && front !! last;
      assert w * h == (w - 1) * h + h;
    }
  }

  lemma {:induction false} ColumnSize(x: int, y: int, h: nat)
    ensures |Rect(x, y, 1, h)| == h
  {
    if h == 0 {
      assert Rect(x, y, 1, h) == {};
    } else {
      ColumnSize(x, y, h - 1);
      assert Rect(x, y, 1, h) == Rect(x, y, 1, h - 1) + {Pos(x, y + h - 1)};
    }
  }

  datatype Area = Area(x: int, y: int, w: nat, h: nat) {
    ghost predicate Has(p: Pos) {
      x <= p.x < x + w && y <= p.y < y + h
    }
  }

  ghost function TotalArea(areas: seq<Area>): nat {
    if areas == [] then 0 else areas[0].w * areas[0].h + TotalArea(areas[1..])
  }

  /** A set inside some rectangles has at most their total area. */
  lemma {:induction false} UnionBound(s: set<Pos>, areas: seq<Area>)
    requires forall p :: p in s ==> exists a :: a in areas && a.Has(p)
    ensures |s| <= TotalArea(areas)
  {
    if areas == [] {
      assert s == {};
    } else {
      var a := areas[0];
      var r := Rect(a.x, a.y, a.w, a.h);
      RectSize(a.x, a.y, a.w, a.h);
      forall p | p in s - r
        ensures exists b :: b in areas[1..] && b.Has(p)
      {
        var b :| b in areas && b.Has(p);
        assert b != a;
      }
      UnionBound(s - r, areas[1..]);
      SubsetSize(s * r, r);
      assert s == (s - r) + (s * r);
    }
  }

  lemma {:induction false} SubsetSize(a: set<Pos>, b: set<Pos>)
    requires a <= b
    ensures |a| <= |b|
  {
    if a != {} {
      var p :| p in a;
      SubsetSize(a - {p}, b - {p});
    }
  }

  lemma {:induction false} DistinctCount(path: seq<Pos>, s: set<Pos>)
    requires NoDuplicates(path) && forall p :: p in path <==> p in s
    ensures |path| == |s|
  {
    if path == [] {
      assert s == {};
    } else {
      var front, last := path[..|path| - 1], path[|path| - 1];
      assert path == front + [last];
      forall p
        ensures p in front <==> p in s - {last}
      {
        if p in front {
          assert p in path;
        }
      }
      DistinctCount(front, s - {last});
    }
  }

  /** When the reserved modules, column 6 among them, lie inside rectangles of a given total area,
      the path has at least n * n minus that area free modules. */
  lemma FreeCount(n: nat, reserve: iset<Pos>, areas: seq<Area>)
    requires n % 2 == 1 && n >= 7
    requires forall p :: InGrid(n, p) && p.x == 6 ==> p in reserve
    requires forall p :: InGrid(n, p) && p in reserve ==> exists a :: a in areas && a.Has(p)
    ensures |Free(Path(n), reserve)| >= n * n - TotalArea(areas)
  {
    var all := Rect(0, 0, n, n);
    var taken := set p | p in all && p in reserve;
    RectSize(0, 0, n, n);
    UnionBound(taken, areas);
    PathVisitsOnce(n);
    FreeRepeatsNothing(Path(n), reserve);
    forall p
      ensures p in Free(Path(n), reserve) <==> p in all - taken
    {
      FreeMembers(Path(n), reserve, p);
    }
    DistinctCount(Free(Path(n), reserve), all - taken);
    assert all == taken + (all - taken);
  }
}
