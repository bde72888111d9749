/** Reed-Solomon check bytes: the generator polynomial and polynomial division over GF(256).
    A polynomial is the sequence of its coefficients, highest degree first. */
module ReedSolomon {
  import opened GaloisField

  type Poly = seq<Byte>

  /** The value of p at y, by Horner's rule. */
  function Eval(p: Poly, y: Byte): Byte {
    if p == [] then ZERO else Mul(Eval(p[..|p| - 1], y), y).Xor(p[|p| - 1])
  }

  function Zeros(n: nat): (p: Poly)
    ensures |p| == n && forall i :: 0 <= i < n ==> p[i] == ZERO
  {
    seq(n, _ => ZERO)
  }

  function Sum(p: Poly, q: Poly): (s: Poly)
    requires |p| == |q|
    ensures |s| == |p|
  {
    seq(|p|, i requires 0 <= i < |p| => p[i].Xor(q[i]))
  }

  function ScaleBy(p: Poly, c: Byte): (s: Poly)
    ensures |s| == |p|
  {
    seq(|p|, i requires 0 <= i < |p| => Mul(p[i], c))
  }

  /** The product of p and (x + r). */
  function MulLinear(p: Poly, r: Byte): (q: Poly)
    ensures |q| == |p| + 1
  {
    Sum(p + [ZERO], [ZERO] + ScaleBy(p, r))
  }

  /** The product of (x + 2^i) for i < k. */
  function Generator(k: nat): (g: Poly)
    ensures |g| == k + 1
  {
    if k == 0 then [ONE] else MulLinear(Generator(k - 1), Root(k - 1))
  }

  function At(p: Poly, k: int): Byte {
    if 0 <= k < |p| then p[k] else ZERO
  }

  /** The n coefficients of lowest degree, padded with zeros. */
  function LowCoefficients(n: nat, p: Poly): (q: Poly)
    ensures |q| == n
  {
    seq(n, i requires 0 <= i < n => At(p, |p| - n + i))
  }

  /** One step of the long division of data by x^n + div: the next data byte b arrives. */
  function DivideStep(rem: Poly, div: Poly, b: Byte): (next: Poly)
    requires |rem| == |div| > 0
    ensures |next| == |div|
  {
    Sum(rem[1..] + [ZERO], ScaleBy(div, b.Xor(rem[0])))
  }

  function Remainder(data: Poly, div: Poly): (rem: Poly)
    requires |div| > 0
    ensures |rem| == |div|
  {
    if data == [] then Zeros(|div|)
    else DivideStep(Remainder(data[..|data| - 1], div), div, data[|data| - 1])
  }

  function Quotient(data: Poly, div: Poly): (q: Poly)
    requires |div| > 0
    ensures |q| == |data|
  {
    if data == [] then []
    else
      var front, b := data[..|data| - 1], data[|data| - 1];
      Quotient(front, div) + [b.Xor(Remainder(front, div)[0])]
  }

  // ----- the loops of the source -----

  /** Multiplies a buffer of `degree` coefficients by (x + 2^i) for each i, in place. The leading
      coefficient, always 1, falls off the front in the last round. */
  method QrDivisor(degree: nat) returns (out: array<Byte>)
    requires degree > 0
    ensures fresh(out) && out[..] == Generator(degree)[1..]
  {
    hide Mul, Byte.Xor, Byte.Twice;
    out := new Byte[degree](_ => ZERO);
    out[degree - 1] := ONE;
    var root := ONE;
    LowStart(degree, out[..]);
    for k := 0 to degree
      invariant root == Root(k)
      invariant out[..] == LowCoefficients(degree, Generator(k))
    {
      MultiplyInPlace(out, root);
      LowOfMulLinear(degree, Generator(k), root);
      MulTwo(root);
      root := QrMul(root, TWO);
    }
    LowEnd(Generator(degree));
  }

  /** The inner loop: out[j] still holds the old coefficient when out[j - 1] is finished. */
  method MultiplyInPlace(out: array<Byte>, root: Byte)
    modifies out
    ensures out[..] == TimesLinear(old(out[..]), root)
  {
    hide Mul, Byte.Xor;
    ghost var before := out[..];
    for j := 0 to out.Length
      invariant out[..j] == TimesLinear(before, root)[..j]
      invariant out[j..] == before[j..]
    {
      var scaled := QrMul(out[j], root);
      out[j] := scaled;
      XorZero(scaled);
      if j + 1 < out.Length {
        assert out[j + 1] == before[j + 1];
        out[j] := out[j].Xor(out[j + 1]);
      }
      assert out[..j + 1] == out[..j] + [TimesLinear(before, root)[j]];
    }
  }

  /** The low coefficients of the product with (x + r), from those of the factor. */
  function TimesLinear(low: Poly, r: Byte): (next: Poly)
    ensures |next| == |low|
  {
    seq(|low|, i requires 0 <= i < |low| => Mul(low[i], r).Xor(At(low, i + 1)))
  }

  method QrRemainder(data: Poly, div: Poly) returns (out: array<Byte>)
    requires |div| > 0
    ensures fresh(out) && out[..] == Remainder(data, div)
  {
    out := new Byte[|div|](_ => ZERO);
    assert data[..0] == [] && out[..] == Zeros(|div|);
    for k := 0 to |data|
      invariant out[..] == Remainder(data[..k], div)
    {
      assert data[..k + 1][..k] == data[..k];
      var factor := data[k].Xor(out[0]);
      ShiftLeft(out);
      AddMultiple(out, div, factor);
    }
    assert data[..|data|] == data;
  }

  /** copy(out, out[1:]) and the cleared last place. */
  method ShiftLeft(out: array<Byte>)
    requires out.Length > 0
    modifies out
    ensures out[..] == old(out[1..]) + [ZERO]
  {
    forall i | 0 <= i < out.Length - 1 {
      out[i] := out[i + 1];
    }
    out[out.Length - 1] := ZERO;
  }

  method AddMultiple(out: array<Byte>, div: Poly, factor: Byte)
    requires out.Length == |div|
    modifies out
    ensures out[..] == Sum(old(out[..]), ScaleBy(div, factor))
  {
    hide Mul, Byte.Xor;
    ghost var goal := Sum(out[..], ScaleBy(div, factor));
    for i := 0 to |div|
      invariant out[..i] == goal[..i]
      invariant out[i..] == old(out[i..])
    {
      assert out[i] == old(out[i]);
      var term := QrMul(div[i], factor);
      out[i] := out[i].Xor(term);
      assert out[..i + 1] == out[..i] + [goal[i]];
    }
  }

  lemma MulLinearAt(p: Poly, r: Byte, k: int)
    requires |p| > 0 && k <= |p|
    ensures At(MulLinear(p, r), k) == Mul(At(p, k - 1), r).Xor(At(p, k))
  {
    hide Mul, Byte.Xor;
    MulZero(r);
    if k < 0 {
      XorZero(ZERO);
    } else if k == 0 {
      XorZero(p[0]);
    } else {
      XorCommutes(Mul(p[k - 1], r), At(p, k));
    }
  }

  lemma LowAt(n: nat, p: Poly, i: nat)
    requires i <= n
    ensures At(LowCoefficients(n, p), i) == At(p, |p| - n + i)
  {
  }

  lemma LowStart(n: nat, low: Poly)
    requires |low| == n > 0 && low[n - 1] == ONE && forall i :: 0 <= i < n - 1 ==> low[i] == ZERO
    ensures low == LowCoefficients(n, [ONE])
  {
    forall i | 0 <= i < n
      ensures low[i] == LowCoefficients(n, [ONE])[i]
    {
      LowAt(n, [ONE], i);
    }
  }

  lemma LowEnd(p: Poly)
    requires |p| > 0
    ensures LowCoefficients(|p| - 1, p) == p[1..]
  {
    forall i | 0 <= i < |p| - 1
      ensures LowCoefficients(|p| - 1, p)[i] == p[1..][i]
    {
      LowAt(|p| - 1, p, i);
    }
  }

  lemma LowOfMulLinear(n: nat, p: Poly, r: Byte)
    requires |p| > 0
    ensures LowCoefficients(n, MulLinear(p, r)) == TimesLinear(LowCoefficients(n, p), r)
  {
    hide Mul, Byte.Xor, MulLinear, LowCoefficients;
    var low, product := LowCoefficients(n, p), MulLinear(p, r);
    forall i | 0 <= i < n
      ensures LowCoefficients(n, product)[i] == TimesLinear(low, r)[i]
    {
      LowAt(n, product, i);
      MulLinearAt(p, r, |p| + 1 - n + i);
      LowAt(n, p, i);
      LowAt(n, p, i + 1);
    }
  }

  // ----- evaluation -----

  lemma {:induction false} EvalConcat(p: Poly, q: Poly, y: Byte)
    ensures Eval(p + q, y) == Mul(Eval(p, y), Pow(y, |q|)).Xor(Eval(q, y))
  {
    hide Byte.Xor, Byte.Twice, Mul;
    if q == [] {
      assert p + q == p;
      MulOne(Eval(p, y));
      XorZero(Eval(p, y));
    } else {
      var front, last := q[..|q| - 1], q[|q| - 1];
      assert (p + q)[..|p + q| - 1] == p + front;
      EvalConcat(p, front, y);
      var head := Mul(Eval(p, y), Pow(y, |front|));
      MulXor(head, Eval(front, y), y);
      MulAssociates(Eval(p, y), Pow(y, |front|), y);
      XorAssociates(Mul(head, y), Mul(Eval(front, y), y), last);
    }
  }

  lemma {:induction false} EvalSum(p: Poly, q: Poly, y: Byte)
    requires |p| == |q|
    ensures Eval(Sum(p, q), y) == Eval(p, y).Xor(Eval(q, y))
  {
    hide Byte.Xor, Byte.Twice, Mul;
    if p == [] {
      XorZero(ZERO);
    } else {
      var n := |p| - 1;
      assert Sum(p, q)[..n] == Sum(p[..n], q[..n]);
      EvalSum(p[..n], q[..n], y);
      var a, b := Eval(p[..n], y), Eval(q[..n], y);
      MulXor(a, b, y);
      XorRegroup(Mul(a, y), Mul(b, y), p[n], q[n]);
    }
  }

  lemma {:induction false} EvalScale(p: Poly, c: Byte, y: Byte)
    ensures Eval(ScaleBy(p, c), y) == Mul(Eval(p, y), c)
  {
    hide Byte.Xor, Byte.Twice, Mul;
    if p == [] {
      MulZero(c);
    } else {
      var n := |p| - 1;
      assert ScaleBy(p, c)[..n] == ScaleBy(p[..n], c);
      EvalScale(p[..n], c, y);
      var a := Eval(p[..n], y);
      MulXor(Mul(a, y), p[n], c);
      MulAssociates(a, y, c);
      MulCommutes(y, c);
      MulAssociates(a, c, y);
    }
  }

  lemma EvalConstantTerm(c: Byte, y: Byte)
    ensures Eval([c], y) == c
  {
    hide Byte.Xor, Byte.Twice, Mul;
    assert [c][..0] == [];
    MulZero(y);
    XorZero(c);
  }

  lemma {:induction false} EvalZeros(n: nat, y: Byte)
    ensures Eval(Zeros(n), y) == ZERO
  {
    hide Byte.Xor, Byte.Twice, Mul;
    if n > 0 {
      assert Zeros(n)[..n - 1] == Zeros(n - 1);
      EvalZeros(n - 1, y);
      MulZero(y);
      XorZero(ZERO);
    }
  }

  lemma EvalLeadingZero(p: Poly, y: Byte)
    ensures Eval([ZERO] + p, y) == Eval(p, y)
  {
    hide Byte.Xor, Byte.Twice, Mul;
    EvalConcat([ZERO], p, y);
    EvalConstantTerm(ZERO, y);
    MulZero(Pow(y, |p|));
    XorZero(Eval(p, y));
  }

  lemma EvalLeadingOne(p: Poly, y: Byte)
    ensures Eval([ONE] + p, y) == Pow(y, |p|).Xor(Eval(p, y))
  {
    hide Byte.Xor, Byte.Twice, Mul;
    EvalConcat([ONE], p, y);
    EvalConstantTerm(ONE, y);
    MulOne(Pow(y, |p|));
  }

  /** MulLinear multiplies: its value is the product of the two values, everywhere. */
  lemma EvalMulLinear(p: Poly, r: Byte, y: Byte)
    ensures Eval(MulLinear(p, r), y) == Mul(Eval(p, y), y.Xor(r))
  {
    hide Byte.Xor, Byte.Twice, Mul;
    EvalSum(p + [ZERO], [ZERO] + ScaleBy(p, r), y);
    assert (p + [ZERO])[..|p|] == p;
    XorZero(Mul(Eval(p, y), y));
    EvalLeadingZero(ScaleBy(p, r), y);
    EvalScale(p, r, y);
    MulXor(y, r, Eval(p, y));
  }

  /** Every 2^i with i < k is a root of the generator polynomial. */
  lemma {:induction false} GeneratorRoot(k: nat, i: nat)
    requires i < k
    ensures Eval(Generator(k), Root(i)) == ZERO
  {
    hide Byte.Xor, Byte.Twice, Mul;
    EvalMulLinear(Generator(k - 1), Root(k - 1), Root(i));
    if i == k - 1 {
      XorSelf(Root(i));
      MulZero(Eval(Generator(k - 1), Root(i)));
    } else {
      GeneratorRoot(k - 1, i);
      MulZero(Root(i).Xor(Root(k - 1)));
    }
  }

  lemma {:induction false} GeneratorIsMonic(k: nat)
    ensures Generator(k)[0] == ONE
  {
    if k > 0 {
      GeneratorIsMonic(k - 1);
      XorZero(ONE);
    }
  }

  // ----- division -----

  /** The value of what a step keeps of the remainder, moved up one place. */
  lemma EvalShifted(p: Poly, y: Byte)
    ensures Eval(p + [ZERO], y) == Mul(Eval(p, y), y)
  {
    hide Byte.Xor, Byte.Twice, Mul;
    assert (p + [ZERO])[..|p|] == p;
    XorZero(Mul(Eval(p, y), y));
  }

  /** The value of a remainder, one place up, from its first coefficient and the rest. */
  lemma EvalFirst(rem: Poly, y: Byte)
    requires |rem| > 0
    ensures Mul(Eval(rem, y), y) == Mul(rem[0], Pow(y, |rem|)).Xor(Mul(Eval(rem[1..], y), y))
  {
    hide Byte.Xor, Byte.Twice, Mul;
    var n, tail := |rem|, Eval(rem[1..], y);
    assert rem == [rem[0]] + rem[1..];
    EvalConcat([rem[0]], rem[1..], y);
    EvalConstantTerm(rem[0], y);
    MulXor(Mul(rem[0], Pow(y, n - 1)), tail, y);
    MulAssociates(rem[0], Pow(y, n - 1), y);
  }

  /** The value of the remainder after a step. */
  lemma EvalStep(rem: Poly, div: Poly, b: Byte, y: Byte)
    requires |rem| == |div| > 0
    ensures Eval(DivideStep(rem, div, b), y)
            == Mul(Eval(rem[1..], y), y).Xor(Mul(b.Xor(rem[0]), Eval(div, y)))
  {
    hide Byte.Xor, Byte.Twice, Mul;
    var f := b.Xor(rem[0]);
    EvalShifted(rem[1..], y);
    EvalSum(rem[1..] + [ZERO], ScaleBy(div, f), y);
    EvalScale(div, f, y);
    MulCommutes(Eval(div, y), f);
  }

  lemma DivideStepBalance(b: Byte, r: Byte, t: Byte, d: Byte)
    ensures b.Xor(t.Xor(d)) == r.Xor(t).Xor(b.Xor(r).Xor(d))
  {
  }

  /** Long division: the data followed by the remainder is the quotient times x^n + div. */
  lemma {:induction false} DivisionIdentity(data: Poly, div: Poly, y: Byte)
    requires |div| > 0
    ensures Eval(data + Remainder(data, div), y) == Mul(Eval(Quotient(data, div), y), Eval([ONE] + div, y))
  {
    hide Byte.Xor, Byte.Twice, Mul;
    var rem := Remainder(data, div);
    EvalConcat(data, rem, y);
    if data == [] {
      EvalZeros(|div|, y);
      MulZero(Pow(y, |div|));
      MulZero(Eval([ONE] + div, y));
      XorZero(ZERO);
    } else {
      var front, b := data[..|data| - 1], data[|data| - 1];
      var before, power, g := Remainder(front, div), Pow(y, |div|), Eval([ONE] + div, y);
      var f := b.Xor(before[0]);
      DivisionIdentity(front, div, y);
      EvalConcat(front, before, y);
      var a := Mul(Eval(front, y), power);
      // the left-hand side
      MulXor(Mul(Eval(front, y), y), b, power);
      MulAssociates(Eval(front, y), y, power);
      MulCommutes(y, power);
      MulAssociates(Eval(front, y), power, y);
      assert Mul(Eval(data, y), power) == Mul(a, y).Xor(Mul(b, power));
      XorAssociates(Mul(a, y), Mul(b, power), Eval(rem, y));
      EvalFirst(before, y);
      EvalStep(before, div, b, y);
      EvalLeadingOne(div, y);
      MulXor(power, Eval(div, y), f);
      MulXor(b, before[0], power);
      DivideStepBalance(Mul(b, power), Mul(before[0], power), Mul(Eval(before[1..], y), y), Mul(f, Eval(div, y)));
      XorAssociates(Mul(a, y), Mul(Eval(before, y), y), Mul(f, g));
      MulXor(a, Eval(before, y), y);
      // the right-hand side
      var q := Eval(Quotient(front, div), y);
      assert Quotient(data, div)[..|front|] == Quotient(front, div);
      MulXor(Mul(q, y), f, g);
      MulAssociates(q, y, g);
      MulCommutes(y, g);
      MulAssociates(q, g, y);
    }
  }

  /** A block of data followed by its check bytes evaluates to zero at 2^0 .. 2^(n-1), whatever
      the data and the degree (section 7.5.2 of ISO/IEC 18004:2015). */
  lemma SyndromesVanish(data: Poly, n: nat, i: nat)
    requires i < n
    ensures Eval(data + Remainder(data, Generator(n)[1..]), Root(i)) == ZERO
  {
    hide Byte.Xor, Byte.Twice, Mul;
    var div, y := Generator(n)[1..], Root(i);
    GeneratorIsMonic(n);
    assert [ONE] + div == Generator(n);
    DivisionIdentity(data, div, y);
    GeneratorRoot(n, i);
    MulZero(Eval(Quotient(data, div), y));
  }
}
