/** The four penalty rules that rank the data masks (section 7.8.3 of ISO/IEC 18004:2015), stated
    without the loops that compute them. */
module QrPenalty {
  import opened QrPath
  import opened QrPatterns

  ghost predicate Total(g: Grid, n: nat) {
    forall p {:trigger p in g} :: InGrid(n, p) ==> p in g
  }

  /** Row y of a grid, or column y. */
  ghost function Line(g: Grid, n: nat, y: int, column: bool): (line: seq<bool>)
    requires 0 <= y < n && Total(g, n)
    ensures |line| == n
  {
    seq(n, x requires 0 <= x < n => if column then g[Pos(y, x)] else g[Pos(x, y)])
  }

  // ----- rule 1: runs -----

  predicate UniformFive(line: seq<bool>, x: nat) {
    x + 5 <= |line| && forall k :: x <= k < x + 5 ==> line[k] == line[x]
  }

  /** Every uniform window of five modules costs one point and the first one of a run two more, so
      a maximal run of length m >= 5 costs 3 + (m - 5). */
  function WindowCost(line: seq<bool>, x: nat): nat {
    if !UniformFive(line, x) then 0
    else if x == 0 || line[x - 1] != line[x] then 3
    else 1
  }

  /** The cost of the windows that end at or before `end`. */
  function RunCost(line: seq<bool>, end: nat): nat {
    if end < 5 then 0 else RunCost(line, end - 1) + WindowCost(line, end - 5)
  }

  // ----- rule 3: finder-like patterns -----

  const FINDER := [true, false, true, true, true, false, true]

  /** The modules in from .. to - 1 are light; what lies outside the symbol counts as light. */
  predicate Light(line: seq<bool>, from: int, to: int) {
    forall k :: from <= k < to && 0 <= k < |line| ==> !line[k]
  }

  predicate FinderAt(line: seq<bool>, x: nat) {
    x + 7 <= |line| && forall k :: 0 <= k < 7 ==> line[x + k] == FINDER[k]
  }

  function FinderCost(line: seq<bool>, end: nat): nat {
    if end == 0 then 0
    else
      var x := end - 1;
      FinderCost(line, x) +
      (if FinderAt(line, x)
       then (if Light(line, x - 4, x) then 40 else 0) + (if Light(line, x + 7, x + 11) then 40 else 0)
       else 0)
  }

  ghost function LineCost(line: seq<bool>): nat {
    RunCost(line, |line|) + FinderCost(line, if |line| < 7 then 0 else |line| - 6)
  }

  /** The lines y < k in one direction. */
  ghost function LinesCost(g: Grid, n: nat, column: bool, k: nat): nat
    requires k <= n && Total(g, n)
  {
    if k == 0 then 0 else LinesCost(g, n, column, k - 1) + LineCost(Line(g, n, k - 1, column))
  }

  // ----- rules 2 and 4: squares and balance -----

  ghost predicate Square(g: Grid, n: nat, p: Pos)
    requires InGrid(n, p) && Total(g, n)
  {
    p.x + 1 < n && p.y + 1 < n
    && g[p] == g[Pos(p.x + 1, p.y)] && g[p] == g[Pos(p.x, p.y + 1)] && g[p] == g[Pos(p.x + 1, p.y + 1)]
  }

  /** Squares of one colour and dark modules in the rows above y and in row y left of x. */
  ghost function Squares(g: Grid, n: nat, y: nat, x: nat): nat
    requires y <= n && x <= n && (y < n || x == 0) && Total(g, n)
    decreases y, x
  {
    if x > 0 then Squares(g, n, y, x - 1) + (if Square(g, n, Pos(x - 1, y)) then 1 else 0)
    else if y > 0 then Squares(g, n, y - 1, n)
    else 0
  }

  ghost function DarkCount(g: Grid, n: nat, y: nat, x: nat): nat
    requires y <= n && x <= n && (y < n || x == 0) && Total(g, n)
    decreases y, x
  {
    if x > 0 then DarkCount(g, n, y, x - 1) + (if g[Pos(x - 1, y)] then 1 else 0)
    else if y > 0 then DarkCount(g, n, y - 1, n)
    else 0
  }

  /** The source's k: how many further steps of 5% the dark share is away from 50%. */
  function Imbalance(dark: nat, total: nat): nat
    requires total > 0
  {
    var k := (Abs(dark * 20 - total * 10) + total - 1) / total - 1;
    if k > 0 then k else 0
  }

  /** It is the least k for which the dark share lies within 5(k + 1)% of one half. */
  lemma ImbalanceIsLeast(dark: nat, total: nat, k: nat)
    requires total > 0
    ensures Abs(dark * 20 - total * 10) <= (k + 1) * total <==> k >= Imbalance(dark, total)
  {
    var d := Abs(dark * 20 - total * 10);
    CeilingDivision(d, total, k + 1);
  }

  lemma CeilingDivision(d: nat, total: nat, k: nat)
    requires total > 0
    ensures d <= k * total <==> (d + total - 1) / total <= k
  {
    var q, r := (d + total - 1) / total, (d + total - 1) % total;
    assert d + total - 1 == q * total + r;
    if q <= k {
      assert q * total <= k * total;
    } else {
      assert q * total >= (k + 1) * total == k * total + total;
    }
  }

  ghost function Penalty(g: Grid, n: nat): nat
    requires n > 0 && Total(g, n)
  {
    LinesCost(g, n, false, n) + LinesCost(g, n, true, n) + 3 * Squares(g, n, n, 0)
    + 10 * Imbalance(DarkCount(g, n, n, 0), n * n)
  }

  // ----- the loops over one line -----

  /** The run counter of the source. */
  method RunScore(line: seq<bool>) returns (score: nat)
    requires |line| > 0
    ensures score == RunCost(line, |line|)
  {
    score := 0;
    var run := 1;
    var x := 1;
    while x <= |line|
      invariant 1 <= x <= |line| + 1
      invariant x <= |line| ==> IsRun(line, x - run, x)
      invariant x <= |line| ==> RunCost(line, x) == score + if run >= 5 then run - 2 else 0
      invariant x == |line| + 1 ==> score == RunCost(line, |line|)
    {
      if x < |line| && line[x] == line[x - 1] {
        run := run + 1;
        NextWindow(line, x, run);
      } else {
        if x < |line| {
          NoWindowAcross(line, x);
        }
        if run >= 5 {
          score := score + 3 + run - 5;
        }
        run := 1;
      }
      x := x + 1;
    }
  }

  /** The modules from .. to - 1 have one colour and the module before has the other. */
  ghost predicate IsRun(line: seq<bool>, from: int, to: int) {
    0 <= from < to <= |line|
    && (forall k :: from <= k < to ==> line[k] == line[from])
    && (from > 0 ==> line[from - 1] != line[from])
  }

  lemma NextWindow(line: seq<bool>, x: nat, run: nat)
    requires x < |line| && run >= 2 && IsRun(line, x + 1 - run, x) && line[x] == line[x - 1]
    ensures IsRun(line, x + 1 - run, x + 1)
    ensures x >= 4 ==> WindowCost(line, x - 4) == if run < 5 then 0 else if run == 5 then 3 else 1
  {
    var from := x + 1 - run;
    if x >= 4 && run < 5 {
      assert line[from - 1] != line[from];
      assert line[x] == line[from];
    }
  }

  lemma NoWindowAcross(line: seq<bool>, x: nat)
    requires 0 < x < |line| && line[x] != line[x - 1]
    ensures IsRun(line, x, x + 1)
    ensures x >= 4 ==> WindowCost(line, x - 4) == 0
  {
  }

  method FinderScore(line: seq<bool>) returns (score: nat)
    ensures score == FinderCost(line, if |line| < 7 then 0 else |line| - 6)
  {
    score := 0;
    var x := 0;
    while x + 7 <= |line|
      invariant 0 <= x <= (if |line| < 7 then 0 else |line| - 6)
      invariant score == FinderCost(line, x)
    {
      var isMatch := true;
      var k := 0;
      while k < 7
        invariant 0 <= k <= 7
        invariant isMatch <==> forall i :: 0 <= i < k ==> line[x + i] == FINDER[i]
      {
        if line[x + k] != FINDER[k] {
          isMatch := false;
          break;
        }
        k := k + 1;
      }
      if isMatch {
        var before := AllLight(line, x - 4, x);
        if before {
          score := score + 40;
        }
        var after := AllLight(line, x + 7, x + 11);
        if after {
          score := score + 40;
        }
      }
      x := x + 1;
    }
  }

  method AllLight(line: seq<bool>, from: int, to: int) returns (light: bool)
    requires from <= to
    ensures light == Light(line, from, to)
  {
    for k := from to to
      invariant forall i :: from <= i < k && 0 <= i < |line| ==> !line[i]
    {
      if k >= 0 && k < |line| && line[k] {
        return false;
      }
    }
    return true;
  }

  // ----- the rules as the standard prints them -----

  /** Where the run of modules of one colour ends that holds the modules from .. x - 1. */
  function RunEnd(line: seq<bool>, from: nat, x: nat): (end: nat)
    requires from < x <= |line|
    ensures x <= end <= |line|
    ensures forall k :: x <= k < end ==> line[k] == line[from]
    ensures end < |line| ==> line[end] != line[from]
    decreases |line| - x
  {
    if x < |line| && line[x] == line[from] then RunEnd(line, from, x + 1) else x
  }

  /** Every run of five modules or more costs three points, and one for each module above five. */
  function RunPoints(line: seq<bool>, x: nat): nat
    requires x <= |line|
    decreases |line| - x
  {
    if x == |line| then 0
    else
      var end := RunEnd(line, x, x + 1);
      (if end - x >= 5 then 3 + (end - x - 5) else 0) + RunPoints(line, end)
  }

  lemma {:induction false} RunPointsAre(line: seq<bool>, x: nat)
    requires x <= |line| && (0 < x < |line| ==> line[x - 1] != line[x])
    ensures RunCost(line, |line|) == RunCost(line, x) + RunPoints(line, x)
    decreases |line| - x
  {
    hide RunCost;
    if x < |line| {
      var end := RunEnd(line, x, x + 1);
      OneRun(line, x, end);
      if end < |line| {
        assert line[end - 1] == line[x];
      }
      RunPointsAre(line, end);
    }
  }

  lemma {:induction false} OneRun(line: seq<bool>, x: nat, k: nat)
    requires x <= k <= |line| && (0 < x < |line| ==> line[x - 1] != line[x])
    requires forall i :: x <= i < k ==> line[i] == line[x]
    ensures RunCost(line, k) == RunCost(line, x) + if k - x >= 5 then k - x - 2 else 0
    decreases k
  {
    if x < k {
      OneRun(line, x, k - 1);
      if k >= 5 {
        RunWindow(line, x, k);
      }
    }
  }

  lemma RunWindow(line: seq<bool>, x: nat, k: nat)
    requires x < k <= |line| && k >= 5 && (x > 0 ==> line[x - 1] != line[x])
    requires forall i :: x <= i < k ==> line[i] == line[x]
    ensures WindowCost(line, k - 5) == if k - x < 5 then 0 else if k - x == 5 then 3 else 1
  {
    if k - x < 5 {
      assert line[x - 1] != line[x];
    }
  }

  /** A finder with four light modules before it, or behind it. */
  const LIGHT_BEFORE := [false, false, false, false, true, false, true, true, true, false, true]
  const LIGHT_BEHIND := [true, false, true, true, true, false, true, false, false, false, false]

  /** The line between light margins. */
  function Padded(line: seq<bool>): (p: seq<bool>)
    ensures |p| == |line| + 8
  {
    [false, false, false, false] + line + [false, false, false, false]
  }

  /** How often the word stands in p at from .. from + k - 1. */
  function Occurrences(p: seq<bool>, word: seq<bool>, from: nat, k: nat): nat
    requires from + k <= |p|
  {
    if k == 0 then 0
    else Occurrences(p, word, from, k - 1) + if word <= p[from + k - 1..] then 1 else 0
  }

  lemma {:induction false} FinderPoints(line: seq<bool>, k: nat)
    requires k == 0 || k + 6 <= |line|
    ensures FinderCost(line, k)
            == 40 * (Occurrences(Padded(line), LIGHT_BEFORE, 0, k) + Occurrences(Padded(line), LIGHT_BEHIND, 4, k))
  {
    hide FinderAt, Light, Padded;
    if k > 0 {
      FinderPoints(line, k - 1);
      FinderWindow(line, k - 1);
    }
  }

  lemma FinderWindow(line: seq<bool>, x: nat)
    requires x + 7 <= |line|
    ensures LIGHT_BEFORE <= Padded(line)[x..] <==> FinderAt(line, x) && Light(line, x - 4, x)
    ensures LIGHT_BEHIND <= Padded(line)[x + 4..] <==> FinderAt(line, x) && Light(line, x + 7, x + 11)
  {
    hide FinderAt, Light, Padded;
    PaddedAt(line);
    var before, behind := Padded(line)[x..], Padded(line)[x + 4..];
    WordsMean(before);
    WordsMean(behind);
    FinderMeans(line, x);
    LightMeans(line, x);
    assert forall j :: 0 <= j < 11 ==> before[j] == (4 <= x + j && line[x + j - 4]);
    assert forall j :: 0 <= j < 11 ==> behind[j] == (x + j < |line| && line[x + j]);
  }

  lemma PaddedAt(line: seq<bool>)
    ensures forall i :: 0 <= i < |line| + 8 ==> Padded(line)[i] == (4 <= i < |line| + 4 && line[i - 4])
  {
  }

  /** The seven modules of a finder from index i on. */
  predicate SevenAt(w: seq<bool>, i: nat)
    requires i + 7 <= |w|
  {
    w[i] && !w[i + 1] && w[i + 2] && w[i + 3] && w[i + 4] && !w[i + 5] && w[i + 6]
  }

  predicate FourLight(w: seq<bool>, i: nat)
    requires i + 4 <= |w|
  {
    !w[i] && !w[i + 1] && !w[i + 2] && !w[i + 3]
  }

  lemma WordsMean(w: seq<bool>)
    requires |w| >= 11
    ensures LIGHT_BEFORE <= w <==> FourLight(w, 0) && SevenAt(w, 4)
    ensures LIGHT_BEHIND <= w <==> SevenAt(w, 0) && FourLight(w, 7)
  {
    var short := w[..11];
    assert short == [w[0], w[1], w[2], w[3], w[4], w[5], w[6], w[7], w[8], w[9], w[10]];
    assert LIGHT_BEFORE <= w <==> short == LIGHT_BEFORE;
    assert LIGHT_BEHIND <= w <==> short == LIGHT_BEHIND;
  }

  lemma FinderMeans(line: seq<bool>, x: nat)
    requires x + 7 <= |line|
    ensures FinderAt(line, x) <==> SevenAt(line, x)
  {
    assert FINDER[0] && !FINDER[1] && FINDER[2] && FINDER[3] && FINDER[4] && !FINDER[5] && FINDER[6];
    if FinderAt(line, x) {
      assert line[x + 0] == FINDER[0] && line[x + 1] == FINDER[1] && line[x + 2] == FINDER[2];
      assert line[x + 3] == FINDER[3] && line[x + 4] == FINDER[4] && line[x + 5] == FINDER[5];
      assert line[x + 6] == FINDER[6];
    }
  }

  lemma LightMeans(line: seq<bool>, x: nat)
    requires x + 7 <= |line|
    ensures Light(line, x - 4, x) <==>
      !(x >= 4 && line[x - 4]) && !(x >= 3 && line[x - 3]) && !(x >= 2 && line[x - 2]) && !(x >= 1 && line[x - 1])
    ensures Light(line, x + 7, x + 11) <==>
      && !(x + 7 < |line| && line[x + 7]) && !(x + 8 < |line| && line[x + 8])
      && !(x + 9 < |line| && line[x + 9]) && !(x + 10 < |line| && line[x + 10])
  {
  }

  ghost function LinePoints(line: seq<bool>): nat {
    var k := if |line| < 7 then 0 else |line| - 6;
    RunPoints(line, 0)
    + 40 * (Occurrences(Padded(line), LIGHT_BEFORE, 0, k) + Occurrences(Padded(line), LIGHT_BEHIND, 4, k))
  }

  ghost function LinesPoints(g: Grid, n: nat, column: bool, k: nat): nat
    requires k <= n && Total(g, n)
  {
    if k == 0 then 0 else LinesPoints(g, n, column, k - 1) + LinePoints(Line(g, n, k - 1, column))
  }

  lemma {:induction false} LinesArePoints(g: Grid, n: nat, column: bool, k: nat)
    requires k <= n && Total(g, n)
    ensures LinesCost(g, n, column, k) == LinesPoints(g, n, column, k)
  {
    hide RunCost, FinderCost, Occurrences, Line;
    if k > 0 {
      var line := Line(g, n, k - 1, column);
      LinesArePoints(g, n, column, k - 1);
      RunPointsAre(line, 0);
      RunCostNothing(line);
      FinderPoints(line, if |line| < 7 then 0 else |line| - 6);
    }
  }

  lemma RunCostNothing(line: seq<bool>)
    ensures RunCost(line, 0) == 0
  {
  }

  /** The places of a grid before row y, and in row y before x. */
  predicate Earlier(n: nat, y: nat, x: nat, p: Pos) {
    InGrid(n, p) && (p.y < y || (p.y == y && p.x < x))
  }

  ghost function SquareSet(g: Grid, n: nat): set<Pos>
    requires Total(g, n)
  {
    set a, b | 0 <= a < n && 0 <= b < n && Square(g, n, Pos(a, b)) :: Pos(a, b)
  }

  ghost function DarkSet(g: Grid, n: nat): set<Pos>
    requires Total(g, n)
  {
    set a, b | 0 <= a < n && 0 <= b < n && g[Pos(a, b)] :: Pos(a, b)
  }

  ghost function Before(s: set<Pos>, n: nat, y: nat, x: nat): set<Pos> {
    set p | p in s && Earlier(n, y, x, p)
  }

  lemma BeforeStep(s: set<Pos>, n: nat, y: nat, x: nat)
    requires y <= n && x <= n && (y < n || x == 0)
    ensures x > 0 ==> |Before(s, n, y, x)| == |Before(s, n, y, x - 1)| + if Pos(x - 1, y) in s then 1 else 0
    ensures x == 0 && y > 0 ==> Before(s, n, y, 0) == Before(s, n, y - 1, n)
    ensures x == 0 && y == 0 ==> Before(s, n, y, x) == {}
  {
    if x > 0 {
      var p := Pos(x - 1, y);
      assert p !in Before(s, n, y, x - 1);
      assert Before(s, n, y, x) == Before(s, n, y, x - 1) + if p in s then {p} else {};
    }
  }

  lemma {:induction false} SquaresAreCounted(g: Grid, n: nat, y: nat, x: nat)
    requires y <= n && x <= n && (y < n || x == 0) && Total(g, n)
    ensures Squares(g, n, y, x) == |Before(SquareSet(g, n), n, y, x)|
    decreases y, x
  {
    hide Square, Before;
    BeforeStep(SquareSet(g, n), n, y, x);
    if x > 0 {
      SquaresAreCounted(g, n, y, x - 1);
      assert InGrid(n, Pos(x - 1, y));
    } else if y > 0 {
      SquaresAreCounted(g, n, y - 1, n);
    }
  }

  lemma {:induction false} DarkAreCounted(g: Grid, n: nat, y: nat, x: nat)
    requires y <= n && x <= n && (y < n || x == 0) && Total(g, n)
    ensures DarkCount(g, n, y, x) == |Before(DarkSet(g, n), n, y, x)|
    decreases y, x
  {
    hide Before;
    BeforeStep(DarkSet(g, n), n, y, x);
    if x > 0 {
      DarkAreCounted(g, n, y, x - 1);
      assert InGrid(n, Pos(x - 1, y));
    } else if y > 0 {
      DarkAreCounted(g, n, y - 1, n);
    }
  }

  /** The penalty as the standard prints it: three points and one more for each module above five of
      every run, forty for every finder with light modules on a side, three for every square of one
      colour, and ten for each step of five percent that the dark modules are away from one half. */
  lemma PenaltyAsPrinted(g: Grid, n: nat)
    requires n > 0 && Total(g, n)
    ensures Penalty(g, n) ==
      LinesPoints(g, n, false, n) + LinesPoints(g, n, true, n) + 3 * |SquareSet(g, n)|
      + 10 * Imbalance(|DarkSet(g, n)|, n * n)
  {
    hide LinesCost, LinesPoints, Squares, DarkCount, Imbalance, Square;
    LinesArePoints(g, n, false, n);
    LinesArePoints(g, n, true, n);
    SquaresAreCounted(g, n, n, 0);
    DarkAreCounted(g, n, n, 0);
    assert Before(SquareSet(g, n), n, n, 0) == SquareSet(g, n);
    assert Before(DarkSet(g, n), n, n, 0) == DarkSet(g, n);
  }
}
