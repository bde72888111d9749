/** The masks, words and patterns of the encoder are the ones that ISO/IEC 18004:2015 prints. */
module QrConformance {
  import opened Basics
  import opened QrBlocks
  import opened QrData
  import opened QrPath
  import opened QrPatterns
  import opened QrStandard

  // ----- masks -----

  /** What is left of a product modulo 3. */
  function Third(c: nat, d: nat): nat {
    if c == 0 || d == 0 then 0 else if c == d then 1 else 2
  }

  /** The mask rules by what they need of x and y: whether they are odd, their rests modulo 3, and
      whether x / 3 and y / 2 are odd. */
  predicate Selects(mask: nat, xOdd: bool, yOdd: bool, c: nat, d: nat, thirdOdd: bool, halfOdd: bool) {
    match mask
    case 0 => xOdd == yOdd
    case 1 => !yOdd
    case 2 => c == 0
    case 3 => c + d == 0 || c + d == 3
    case 4 => thirdOdd == halfOdd
    case 5 => !(xOdd && yOdd) && Third(c, d) == 0
    case 6 => (xOdd && yOdd) == (Third(c, d) == 1)
    case _ => (xOdd == yOdd) == (Third(c, d) != 1)
  }

  lemma ThreeMore(t: nat, m: nat)
    ensures (t + 3 * m) % 3 == t % 3
  {
  }

  lemma TwoMore(t: nat, m: nat)
    ensures (t + 2 * m) % 2 == t % 2
  {
  }

  lemma ProductThird(x: nat, y: nat)
    ensures x * y % 3 == Third(x % 3, y % 3)
  {
    var a, b, c, d := x / 3, y / 3, x % 3, y % 3;
    assert x * y == (3 * a + c) * (3 * b + d) == c * d + 3 * (3 * a * b + a * d + b * c);
    ThreeMore(c * d, 3 * a * b + a * d + b * c);
    assert c * d == if c == 0 then 0 else if c == 1 then d else d + d;
  }

  lemma ProductOdd(x: nat, y: nat)
    ensures x * y % 2 == if x % 2 == 1 && y % 2 == 1 then 1 else 0
  {
    var a, b, c, d := x / 2, y / 2, x % 2, y % 2;
    assert x * y == (2 * a + c) * (2 * b + d) == c * d + 2 * (2 * a * b + a * d + b * c);
    TwoMore(c * d, 2 * a * b + a * d + b * c);
    assert c * d == if c == 0 then 0 else d;
  }

  /** The product enters a mask only through its two rests. */
  predicate FlipsWith(mask: nat, x: nat, y: nat, second: nat, third: nat) {
    match mask
    case 0 => (x + y) % 2 == 0
    case 1 => y % 2 == 0
    case 2 => x % 3 == 0
    case 3 => (x + y) % 3 == 0
    case 4 => (x / 3 + y / 2) % 2 == 0
    case 5 => second + third == 0
    case 6 => (second + third) % 2 == 0
    case _ => ((x + y) % 2 + third) % 2 == 0
  }

  lemma FlipsParts(mask: nat, p: Pos)
    requires p.x >= 0 && p.y >= 0
    ensures Flips(mask, p) == FlipsWith(mask, p.x, p.y, p.x * p.y % 2, p.x * p.y % 3)
  {
  }

  lemma SumRests(x: nat, y: nat)
    ensures (x + y) % 2 == 0 <==> x % 2 == y % 2
    ensures (x + y) % 3 == 0 <==> x % 3 + y % 3 == 0 || x % 3 + y % 3 == 3
  {
  }

  lemma FlipsByRests(mask: nat, p: Pos)
    requires p.x >= 0 && p.y >= 0 && mask < 8
    ensures Flips(mask, p) == Selects(mask, p.x % 2 == 1, p.y % 2 == 1, p.x % 3, p.y % 3,
                                      p.x / 3 % 2 == 1, p.y / 2 % 2 == 1)
  {
    hide Flips;
    FlipsParts(mask, p);
    ProductOdd(p.x, p.y);
    ProductThird(p.x, p.y);
    SumRests(p.x, p.y);
    SumRests(p.x / 3, p.y / 2);
  }

  // The rests of a number below twelve, without arithmetic.

  predicate Odd(x: nat) {
    x == 1 || x == 3 || x == 5 || x == 7 || x == 9 || x == 11
  }

  function Rest(x: nat): nat {
    if x == 0 || x == 3 || x == 6 || x == 9 then 0 else if x == 1 || x == 4 || x == 7 || x == 10 then 1 else 2
  }

  predicate OddThird(x: nat) {
    x == 3 || x == 4 || x == 5 || x == 9 || x == 10 || x == 11
  }

  predicate OddHalf(y: nat) {
    y == 2 || y == 3 || y == 6 || y == 7 || y == 10 || y == 11
  }

  lemma SmallRests(x: nat)
    requires x < 12
    ensures Odd(x) == (x % 2 == 1) && Rest(x) == x % 3
    ensures OddThird(x) == (x / 3 % 2 == 1) && OddHalf(x) == (x / 2 % 2 == 1)
  {
  }

  lemma RestsOfTwelve(x: nat)
    ensures x % 2 == x % 12 % 2 && x % 3 == x % 12 % 3
    ensures x / 3 % 2 == x % 12 / 3 % 2 && x / 2 % 2 == x % 12 / 2 % 2
  {
    var a, c := x / 12, x % 12;
    assert x == 12 * a + c;
    assert x / 3 == 2 * (2 * a) + c / 3 && x / 2 == 2 * (3 * a) + c / 2;
    TwoMore(c / 3, 2 * a);
    TwoMore(c / 2, 3 * a);
    TwoMore(c, 6 * a);
    ThreeMore(c, 4 * a);
  }

  predicate SelectsSmall(mask: nat, x: nat, y: nat) {
    Selects(mask, Odd(x), Odd(y), Rest(x), Rest(y), OddThird(x), OddHalf(y))
  }

  lemma Picture0(x: nat, y: nat)
    requires x < 12 && y < 12
    ensures SelectsSmall(0, x, y) <==> Mask0(y)[x] == '#'
  {
  }

  lemma Picture1(x: nat, y: nat)
    requires x < 12 && y < 12
    ensures SelectsSmall(1, x, y) <==> Mask1(y)[x] == '#'
  {
  }

  lemma Picture2(x: nat, y: nat)
    requires x < 12 && y < 12
    ensures SelectsSmall(2, x, y) <==> Mask2(y)[x] == '#'
  {
  }

  lemma Picture3(x: nat, y: nat)
    requires x < 12 && y < 12
    ensures SelectsSmall(3, x, y) <==> Mask3(y)[x] == '#'
  {
  }

  lemma Picture4(x: nat, y: nat)
    requires x < 12 && y < 12
    ensures SelectsSmall(4, x, y) <==> Mask4(y)[x] == '#'
  {
  }

  lemma Picture5(x: nat, y: nat)
    requires x < 12 && y < 12
    ensures SelectsSmall(5, x, y) <==> Mask5(y)[x] == '#'
  {
  }

  lemma Picture6(x: nat, y: nat)
    requires x < 12 && y < 12
    ensures SelectsSmall(6, x, y) <==> Mask6(y)[x] == '#'
  {
  }

  lemma Picture7(x: nat, y: nat)
    requires x < 12 && y < 12
    ensures SelectsSmall(7, x, y) <==> Mask7(y)[x] == '#'
  {
  }

  /** A mask reverses a module exactly when its printed picture, repeated over the symbol, is dark
      there. */
  lemma MaskIsThePicture(mask: nat, p: Pos)
    requires mask < 8 && p.x >= 0 && p.y >= 0
    ensures Flips(mask, p) <==> MaskIsDark(mask, p)
  {
    hide Flips, Selects, Odd, Rest, OddThird, OddHalf, Mask0, Mask1, Mask2, Mask3, Mask4, Mask5, Mask6, Mask7;
    var x, y := p.x % 12, p.y % 12;
    FlipsByRests(mask, p);
    RestsOfTwelve(p.x);
    RestsOfTwelve(p.y);
    SmallRests(x);
    SmallRests(y);
    match mask {
      case 0 => Picture0(x, y);
      case 1 => Picture1(x, y);
      case 2 => Picture2(x, y);
      case 3 => Picture3(x, y);
      case 4 => Picture4(x, y);
      case 5 => Picture5(x, y);
      case 6 => Picture6(x, y);
      case _ => Picture7(x, y);
    }
  }

  // ----- format and version words -----

  function XorBits(a: seq<bool>, b: seq<bool>): (c: seq<bool>)
    requires |a| == |b|
    ensures |c| == |a|
  {
    seq(|a|, i requires 0 <= i < |a| && |a| == |b| => a[i] != b[i])
  }

  /** The shift register is linear. */
  lemma {:induction false} RegisterXor(a: seq<bool>, b: seq<bool>, poly: seq<bool>, rounds: nat)
    requires |a| == |b| == |poly| > 0
    ensures ShiftRegister(XorBits(a, b), poly, rounds)
            == XorBits(ShiftRegister(a, poly, rounds), ShiftRegister(b, poly, rounds))
  {
    if rounds > 0 {
      RegisterXor(a, b, poly, rounds - 1);
      ClockXor(ShiftRegister(a, poly, rounds - 1), ShiftRegister(b, poly, rounds - 1), poly);
    }
  }

  lemma ClockXor(a: seq<bool>, b: seq<bool>, poly: seq<bool>)
    requires |a| == |b| == |poly| > 0
    ensures Clock(XorBits(a, b), poly) == XorBits(Clock(a, poly), Clock(b, poly))
  {
  }

  /** Bit k of n, counted from the last. */
  function Single(n: nat, k: nat): (bits: seq<bool>)
    ensures |bits| == n
  {
    seq(n, i requires 0 <= i < n => i == n - 1 - k)
  }

  lemma ClockSingle(poly: seq<bool>, k: nat)
    requires k < |poly|
    ensures Clock(Single(|poly|, k), poly) == if k + 1 < |poly| then Single(|poly|, k + 1) else poly
  {
  }

  /** A single bit moves up until it falls out, and becomes the polynomial then. */
  lemma {:induction false} SingleMoves(poly: seq<bool>, k: nat, rounds: nat)
    requires k + rounds <= |poly| && k < |poly|
    ensures ShiftRegister(Single(|poly|, k), poly, rounds)
            == if k + rounds < |poly| then Single(|poly|, k + rounds) else poly
    decreases rounds
  {
    hide Clock, Single;
    if rounds > 0 {
      SingleMoves(poly, k, rounds - 1);
      ClockSingle(poly, k + rounds - 1);
    }
  }

  lemma {:induction false} MoreRounds(start: seq<bool>, poly: seq<bool>, a: nat, b: nat)
    requires |start| == |poly| > 0
    ensures ShiftRegister(start, poly, a + b) == ShiftRegister(ShiftRegister(start, poly, a), poly, b)
  {
    hide Clock;
    if b > 0 {
      MoreRounds(start, poly, a, b - 1);
    }
  }

  function Chosen(b: bool, bits: seq<bool>): (r: seq<bool>)
    ensures |r| == |bits|
  {
    if b then bits else seq(|bits|, _ => false)
  }

  lemma {:induction false} ChosenRegister(b: bool, bits: seq<bool>, poly: seq<bool>, rounds: nat)
    requires |bits| == |poly| > 0
    ensures ShiftRegister(Chosen(b, bits), poly, rounds) == Chosen(b, ShiftRegister(bits, poly, rounds))
  {
    if rounds > 0 {
      ChosenRegister(b, bits, poly, rounds - 1);
    }
  }

  /** The parts that belong to the bits of a number below sixteen, added up. */
  function Combined(val: nat, r0: seq<bool>, r1: seq<bool>, r2: seq<bool>, r3: seq<bool>): seq<bool>
    requires |r0| == |r1| == |r2| == |r3|
  {
    XorBits(XorBits(Chosen(val % 2 == 1, r0), Chosen(val / 2 % 2 == 1, r1)),
            XorBits(Chosen(val / 4 % 2 == 1, r2), Chosen(val / 8 % 2 == 1, r3)))
  }

  lemma BitsCombined(val: nat, n: nat)
    requires val < 16 && n >= 4
    ensures NatBits(val, n) == Combined(val, Single(n, 0), Single(n, 1), Single(n, 2), Single(n, 3))
  {
    hide NatBits, ShiftRight;
    forall k | 0 <= k < n
      ensures NatBits(val, n)[k] == Combined(val, Single(n, 0), Single(n, 1), Single(n, 2), Single(n, 3))[k]
    {
      NatBitsAt(val, n, k);
      FewBits(val, n - 1 - k);
    }
  }

  lemma FewBits(val: nat, i: nat)
    requires val < 16
    ensures ShiftRight(val, i) == if i == 0 then val else if i == 1 then val / 2 else if i == 2 then val / 4
                                  else if i == 3 then val / 8 else 0
  {
    if i > 4 {
      FewBits(val, i - 1);
    } else {
      assert ShiftRight(val, 0) == val;
      assert ShiftRight(val, 1) == val / 2;
      assert ShiftRight(val, 2) == val / 2 / 2;
      assert ShiftRight(val, 3) == val / 2 / 2 / 2;
      assert ShiftRight(val, 4) == val / 2 / 2 / 2 / 2;
    }
  }

  /** What the register holds after a whole turn, for a number below sixteen. */
  lemma RegisterCombined(val: nat, poly: seq<bool>)
    requires val < 16 && |poly| >= 4
    ensures var p1 := Clock(poly, poly); var p2 := Clock(p1, poly);
      ShiftRegister(NatBits(val, |poly|), poly, |poly|) == Combined(val, poly, p1, p2, Clock(p2, poly))
  {
    hide Clock, NatBits, Single, XorBits, Chosen, ShiftRegister;
    var n := |poly|;
    var a, b, c, d := val % 2 == 1, val / 2 % 2 == 1, val / 4 % 2 == 1, val / 8 % 2 == 1;
    BitsCombined(val, n);
    var ab := XorBits(Chosen(a, Single(n, 0)), Chosen(b, Single(n, 1)));
    var cd := XorBits(Chosen(c, Single(n, 2)), Chosen(d, Single(n, 3)));
    RegisterXor(ab, cd, poly, n);
    RegisterXor(Chosen(a, Single(n, 0)), Chosen(b, Single(n, 1)), poly, n);
    RegisterXor(Chosen(c, Single(n, 2)), Chosen(d, Single(n, 3)), poly, n);
    ChosenRegister(a, Single(n, 0), poly, n);
    ChosenRegister(b, Single(n, 1), poly, n);
    ChosenRegister(c, Single(n, 2), poly, n);
    ChosenRegister(d, Single(n, 3), poly, n);
    FewRounds(poly);
    SingleFallsOut(poly, 0);
    SingleFallsOut(poly, 1);
    SingleFallsOut(poly, 2);
    SingleFallsOut(poly, 3);
  }

  lemma SingleFallsOut(poly: seq<bool>, k: nat)
    requires k <= 3 && |poly| >= 4
    ensures ShiftRegister(Single(|poly|, k), poly, |poly|) == ShiftRegister(poly, poly, k)
  {
    hide Clock, Single, ShiftRegister;
    MoreRounds(Single(|poly|, k), poly, |poly| - k, k);
    SingleMoves(poly, k, |poly| - k);
  }

  lemma FewRounds(poly: seq<bool>)
    requires |poly| > 0
    ensures ShiftRegister(poly, poly, 0) == poly && ShiftRegister(poly, poly, 1) == Clock(poly, poly)
    ensures ShiftRegister(poly, poly, 2) == Clock(Clock(poly, poly), poly)
    ensures ShiftRegister(poly, poly, 3) == Clock(Clock(Clock(poly, poly), poly), poly)
  {
    hide Clock;
    assert ShiftRegister(poly, poly, 1) == Clock(ShiftRegister(poly, poly, 0), poly);
    assert ShiftRegister(poly, poly, 2) == Clock(ShiftRegister(poly, poly, 1), poly);
  }

  const FORMAT_1 := [true, false, false, true, true, false, true, true, true, false]
  const FORMAT_2 := [false, true, true, true, true, false, true, false, true, true]
  const FORMAT_3 := [true, true, true, true, false, true, false, true, true, false]

  lemma FormatClocks()
    ensures Clock(FORMAT_POLY, FORMAT_POLY) == FORMAT_1 && Clock(FORMAT_1, FORMAT_POLY) == FORMAT_2
    ensures Clock(FORMAT_2, FORMAT_POLY) == FORMAT_3
  {
  }

  const VERSION_1 := [false, false, false, true, false, true, true, false, true, true, true, true]
  const VERSION_2 := [false, false, true, false, true, true, false, true, true, true, true, false]
  const VERSION_3 := [false, true, false, true, true, false, true, true, true, true, false, false]

  lemma VersionClocks()
    ensures Clock(VERSION_POLY, VERSION_POLY) == VERSION_1 && Clock(VERSION_1, VERSION_POLY) == VERSION_2
    ensures Clock(VERSION_2, VERSION_POLY) == VERSION_3
  {
  }

  /** The bits of a printed word. */
  predicate Prints(bits: seq<bool>, word: string) {
    |bits| == |word| && forall i :: 0 <= i < |bits| ==> bits[i] == (word[i] == '1')
  }

  predicate Bit(val: nat, k: nat) {
    if k == 0 then val in {1, 3, 5, 7, 9} else if k == 1 then val in {2, 3, 6, 7, 10}
    else if k == 2 then val in {4, 5, 6, 7} else val in {8, 9, 10}
  }

  predicate CombinedBit(val: nat, b0: bool, b1: bool, b2: bool, b3: bool) {
    ((Bit(val, 0) && b0) != (Bit(val, 1) && b1)) != ((Bit(val, 2) && b2) != (Bit(val, 3) && b3))
  }

  lemma CombinedAt(val: nat, r0: seq<bool>, r1: seq<bool>, r2: seq<bool>, r3: seq<bool>, i: nat)
    requires val <= 10 && |r0| == |r1| == |r2| == |r3| && i < |r0|
    ensures Combined(val, r0, r1, r2, r3)[i] == CombinedBit(val, r0[i], r1[i], r2[i], r3[i])
  {
    assert Bit(val, 0) == (val % 2 == 1) && Bit(val, 1) == (val / 2 % 2 == 1);
    assert Bit(val, 2) == (val / 4 % 2 == 1) && Bit(val, 3) == (val / 8 % 2 == 1);
  }

  lemma NatBit(val: nat, n: nat, i: nat)
    requires val <= 10 && 4 <= n && i < n
    ensures NatBits(val, n)[i] == CombinedBit(val, i == n - 1, i == n - 2, i == n - 3, i == n - 4)
  {
    hide NatBits, Combined, CombinedBit;
    BitsCombined(val, n);
    CombinedAt(val, Single(n, 0), Single(n, 1), Single(n, 2), Single(n, 3), i);
  }

  /** Bit i of a format word, from literal bits. */
  predicate FormatBit(mask: nat, i: nat)
    requires i < 15
  {
    FORMAT_XOR[i] !=
    if i < 5 then CombinedBit(mask, i == 4, i == 3, i == 2, i == 1)
    else CombinedBit(mask, FORMAT_POLY[i - 5], FORMAT_1[i - 5], FORMAT_2[i - 5], FORMAT_3[i - 5])
  }

  lemma FormatBits(mask: nat, i: nat)
    requires mask < 8 && i < 15
    ensures FormatWord(mask)[i] == FormatBit(mask, i)
  {
    hide ShiftRegister, Clock, NatBits, CombinedBit, Combined;
    RegisterCombined(mask, FORMAT_POLY);
    FormatClocks();
    if i < 5 {
      NatBit(mask, 5, i);
    } else {
      CombinedAt(mask, FORMAT_POLY, FORMAT_1, FORMAT_2, FORMAT_3, i - 5);
    }
  }

  lemma FormatTable(mask: nat, i: nat)
    requires mask < 8 && i < 15
    ensures FormatBit(mask, i) == (FORMAT_WORDS[mask][i] == '1')
  {
    if mask < 4 {
      assert mask == 0 || mask == 1 || mask == 2 || mask == 3;
    } else {
      assert mask == 4 || mask == 5 || mask == 6 || mask == 7;
    }
  }

  /** The format word of a mask is the printed one. */
  lemma FormatIsPrinted(mask: nat)
    requires mask < 8
    ensures Prints(FormatWord(mask), FORMAT_WORDS[mask])
  {
    hide FormatWord, FormatBit;
    forall i | 0 <= i < 15
      ensures FormatWord(mask)[i] == (FORMAT_WORDS[mask][i] == '1')
    {
      FormatBits(mask, i);
      FormatTable(mask, i);
    }
  }

  predicate VersionBit(v: nat, i: nat)
    requires i < 18
  {
    if i < 6 then CombinedBit(v, i == 5, i == 4, i == 3, i == 2)
    else CombinedBit(v, VERSION_POLY[i - 6], VERSION_1[i - 6], VERSION_2[i - 6], VERSION_3[i - 6])
  }

  lemma VersionBits(v: nat, i: nat)
    requires 7 <= v <= 10 && i < 18
    ensures VersionWord(v)[i] == VersionBit(v, i)
  {
    hide ShiftRegister, Clock, NatBits, CombinedBit, Combined;
    RegisterCombined(v, VERSION_POLY);
    VersionClocks();
    if i < 6 {
      NatBit(v, 6, i);
    } else {
      CombinedAt(v, VERSION_POLY, VERSION_1, VERSION_2, VERSION_3, i - 6);
    }
  }

  lemma VersionTable(v: nat, i: nat)
    requires 7 <= v <= 10 && i < 18
    ensures VersionBit(v, i) == (VERSION_WORDS[v - 7][i] == '1')
  {
  }

  /** The version word of a large version is the printed one. */
  lemma VersionIsPrinted(v: nat)
    requires 7 <= v <= 10
    ensures Prints(VersionWord(v), VERSION_WORDS[v - 7])
  {
    hide VersionWord, VersionBit;
    forall i | 0 <= i < 18
      ensures VersionWord(v)[i] == (VERSION_WORDS[v - 7][i] == '1')
    {
      VersionBits(v, i);
      VersionTable(v, i);
    }
  }

  // ----- patterns -----

  /** The timing lines alternate, beginning dark. */
  lemma TimingIsPrinted(n: nat, k: nat)
    ensures Timing.At(n, Pos(6, k)) == Timing.At(n, Pos(k, 6)) == Some("#."[k % 2] == '#')
  {
  }

  /** A finder with its separator, module by module. */
  lemma FinderIsPrinted(n: nat, cx: int, cy: int, dx: int, dy: int)
    requires -4 <= dx <= 4 && -4 <= dy <= 4
    ensures Finder(cx, cy).At(n, Pos(cx + dx, cy + dy)) == Some(FINDER_PICTURE[dy + 4][dx + 4] == '#')
  {
  }

  lemma AlignmentIsPrinted(n: nat, cx: int, cy: int, dx: int, dy: int)
    requires -2 <= dx <= 2 && -2 <= dy <= 2
    ensures Alignment(cx, cy).At(n, Pos(cx + dx, cy + dy)) == Some(ALIGNMENT_PICTURE[dy + 2][dx + 2] == '#')
  {
  }

  /** Bit i of the format word, counted from the last, stands at both printed places. */
  lemma FormatStands(n: nat, mask: nat, i: nat)
    requires n >= 21 && mask < 8 && i < 15
    ensures Format(mask).At(n, FORMAT_PLACES[i]) == Some(FORMAT_WORDS[mask][14 - i] == '1')
    ensures Format(mask).At(n, SecondFormatPlace(n, i)) == Some(FORMAT_WORDS[mask][14 - i] == '1')
  {
    hide FormatWord, FormatIndex;
    FormatIsPrinted(mask);
    FormatIndices(n, i);
  }

  lemma FormatIndices(n: nat, i: nat)
    requires n >= 21 && i < 15
    ensures FormatIndex(n, FORMAT_PLACES[i]) == i == FormatIndex(n, SecondFormatPlace(n, i))
    ensures Pos(8, n - 8) != FORMAT_PLACES[i] && Pos(8, n - 8) != SecondFormatPlace(n, i)
  {
  }

  /** The version word stands in two blocks of three by six modules, its last bit first. */
  lemma VersionStands(n: nat, v: nat, i: nat)
    requires n >= 45 && 7 <= v <= 10 && i < 18
    ensures Version(v).At(n, Pos(n - 11 + i % 3, i / 3)) == Some(VERSION_WORDS[v - 7][17 - i] == '1')
    ensures Version(v).At(n, Pos(i / 3, n - 11 + i % 3)) == Some(VERSION_WORDS[v - 7][17 - i] == '1')
  {
    hide VersionWord, VersionIndex, Prints;
    VersionIndices(n, i);
    VersionBitStands(n, v, Pos(n - 11 + i % 3, i / 3), i);
    VersionBitStands(n, v, Pos(i / 3, n - 11 + i % 3), i);
  }

  lemma VersionBitStands(n: nat, v: nat, p: Pos, i: nat)
    requires 7 <= v <= 10 && i < 18 && VersionIndex(n, p) == i
    ensures Version(v).At(n, p) == Some(VERSION_WORDS[v - 7][17 - i] == '1')
  {
    hide VersionWord, VersionIndex;
    VersionIsPrinted(v);
  }

  lemma VersionIndices(n: nat, i: nat)
    requires n >= 45 && i < 18
    ensures VersionIndex(n, Pos(n - 11 + i % 3, i / 3)) == i == VersionIndex(n, Pos(i / 3, n - 11 + i % 3))
  {
  }

  // ----- what a reader does -----

  /** The modules that carry data, reversed where the printed picture of the mask is dark. */
  ghost function Reversed(g: Grid, reserve: iset<Pos>, mask: nat): Grid {
    imap p | p in g :: if p in reserve || p.x < 0 || p.y < 0 then g[p] else g[p] != MaskIsDark(mask, p)
  }

  /** The encoder's mask does the same. */
  lemma MaskedIsReversed(g: Grid, reserve: iset<Pos>, mask: nat)
    requires mask < 8
    ensures Masked(g, reserve, mask) == Reversed(g, reserve, mask)
  {
    hide Flips, MaskIsDark;
    forall p | p in g && p.x >= 0 && p.y >= 0
      ensures Flips(mask, p) == MaskIsDark(mask, p)
    {
      MaskIsThePicture(mask, p);
    }
  }

  /** Which mask a printed format word stands for. */
  function MaskOf(word: string, k: nat): Option<nat>
    requires k <= 8
    decreases 8 - k
  {
    if k == 8 then None else if FORMAT_WORDS[k] == word then Some(k) else MaskOf(word, k + 1)
  }

  lemma {:induction false} MaskOfWord(mask: nat, k: nat)
    requires k <= mask < 8
    ensures MaskOf(FORMAT_WORDS[mask], k) == Some(mask)
    decreases mask - k
  {
    if k < mask {
      WordsDiffer(k, mask);
      MaskOfWord(mask, k + 1);
    }
  }

  /** The words of two masks differ in one of the three bits of the mask number. */
  lemma WordsDiffer(a: nat, b: nat)
    requires a < b < 8
    ensures FORMAT_WORDS[a] != FORMAT_WORDS[b]
  {
    assert FORMAT_WORDS[a][2] != FORMAT_WORDS[b][2] || FORMAT_WORDS[a][3] != FORMAT_WORDS[b][3]
      || FORMAT_WORDS[a][4] != FORMAT_WORDS[b][4];
  }

  // ----- blocks -----

  lemma Shapes(v: nat)
    requires IsVersion(v)
    ensures ShapeOf(v) == [
      Shape(1, 10, 26), Shape(1, 16, 44), Shape(1, 26, 70), Shape(2, 18, 100), Shape(2, 24, 134),
      Shape(4, 16, 172), Shape(4, 18, 196), Shape(4, 22, 242), Shape(5, 22, 292), Shape(5, 26, 346)
    ][v - 1]
  {
    hide Raw;
    RawCapacities();
  }

  /** The blocks of every version are the printed ones. */
  lemma BlocksArePrinted(v: nat)
    requires IsVersion(v)
    ensures var s, row := ShapeOf(v), BLOCK_TABLE[v - 1];
      s.Valid() && s.ecc == row.ecc && s.blocks == row.short + row.long
      && s.Short() == row.short && s.ShortData() == row.data
  {
    hide Raw, ShapeOf;
    Shapes(v);
  }
}
