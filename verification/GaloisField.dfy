/** The field GF(256) of the QR encoder. A byte is kept as its eight bits: it stands for the
    polynomial b7 x^7 + ... + b0 over GF(2), added with Xor and multiplied modulo
    x^8 + x^4 + x^3 + x^2 + 1 (the constant 0x11D of the source). */
module GaloisField {

  datatype Byte = Byte(b7: bool, b6: bool, b5: bool, b4: bool, b3: bool, b2: bool, b1: bool, b0: bool) {

    /** The bits, most significant first. */
    function Bits(): (bits: seq<bool>)
      ensures |bits| == 8
    {
      [b7, b6, b5, b4, b3, b2, b1, b0]
    }

    function Xor(other: Byte): Byte {
      Byte(b7 != other.b7, b6 != other.b6, b5 != other.b5, b4 != other.b4,
           b3 != other.b3, b2 != other.b2, b1 != other.b1, b0 != other.b0)
    }

    /** One step z<<1 ^ (z>>7)*0x11D: multiplication by the polynomial x. */
    function Twice(): Byte {
      Byte(b6, b5, b4, b3 != b7, b2 != b7, b1 != b7, b0, b7)
    }
  }

  const ZERO := Byte(false, false, false, false, false, false, false, false)
  const ONE := Byte(false, false, false, false, false, false, false, true)
  const TWO := Byte(false, false, false, false, false, false, true, false)

  function FromBits(bits: seq<bool>): (b: Byte)
    requires |bits| == 8
    ensures b.Bits() == bits
  {
    Byte(bits[0], bits[1], bits[2], bits[3], bits[4], bits[5], bits[6], bits[7])
  }

  function Scale(bit: bool, x: Byte): Byte {
    if bit then x else ZERO
  }

  /** x times the polynomial whose coefficients are `bits`, highest first. */
  function Times(x: Byte, bits: seq<bool>): Byte {
    if bits == [] then ZERO
    else Times(x, bits[..|bits| - 1]).Twice().Xor(Scale(bits[|bits| - 1], x))
  }

  function Mul(x: Byte, y: Byte): Byte {
    Times(x, y.Bits())
  }

  function Pow(x: Byte, k: nat): Byte {
    if k == 0 then ONE else Mul(Pow(x, k - 1), x)
  }

  /** 2^i, a power of the field's generator. */
  function Root(i: nat): Byte {
    if i == 0 then ONE else Root(i - 1).Twice()
  }

  /** The shift-and-reduce loop, from the top bit of y down. */
  method QrMul(x: Byte, y: Byte) returns (z: Byte)
    ensures z == Mul(x, y)
  {
    var bits := y.Bits();
    z := ZERO;
    var i := 7;
    while i >= 0
      invariant -1 <= i <= 7
      invariant z == Times(x, bits[..7 - i])
    {
      assert bits[..8 - i][..7 - i] == bits[..7 - i];
      z := z.Twice();
      z := z.Xor(Scale(bits[7 - i], x));
      i := i - 1;
    }
    assert bits[..8] == bits;
  }

  // ----- addition -----

  lemma XorSelf(a: Byte)
    ensures a.Xor(a) == ZERO
  {
  }

  lemma XorZero(a: Byte)
    ensures a.Xor(ZERO) == a && ZERO.Xor(a) == a
  {
  }

  lemma XorCommutes(a: Byte, b: Byte)
    ensures a.Xor(b) == b.Xor(a)
  {
  }

  lemma XorAssociates(a: Byte, b: Byte, c: Byte)
    ensures a.Xor(b).Xor(c) == a.Xor(b.Xor(c))
  {
  }

  lemma XorRegroup(a: Byte, b: Byte, c: Byte, d: Byte)
    ensures a.Xor(b).Xor(c.Xor(d)) == a.Xor(c).Xor(b.Xor(d))
  {
  }

  lemma TwiceXor(a: Byte, b: Byte)
    ensures a.Xor(b).Twice() == a.Twice().Xor(b.Twice())
  {
  }

  lemma ScaleXor(bit: bool, a: Byte, b: Byte)
    ensures Scale(bit, a.Xor(b)) == Scale(bit, a).Xor(Scale(bit, b))
  {
  }

  // ----- multiplication -----

  lemma {:induction false} TimesXor(a: Byte, b: Byte, bits: seq<bool>)
    ensures Times(a.Xor(b), bits) == Times(a, bits).Xor(Times(b, bits))
  {
    if bits != [] {
      var front, bit := bits[..|bits| - 1], bits[|bits| - 1];
      var p, q := Times(a, front), Times(b, front);
      TimesXor(a, b, front);
      TwiceXor(p, q);
      ScaleXor(bit, a, b);
      XorRegroup(p.Twice(), q.Twice(), Scale(bit, a), Scale(bit, b));
    }
  }

  lemma {:induction false} TimesTwice(x: Byte, bits: seq<bool>)
    ensures Times(x.Twice(), bits) == Times(x, bits).Twice()
  {
    if bits != [] {
      var front, bit := bits[..|bits| - 1], bits[|bits| - 1];
      TimesTwice(x, front);
      TwiceXor(Times(x, front).Twice(), Scale(bit, x));
    }
  }

  lemma {:induction false} ZeroTimes(bits: seq<bool>)
    ensures Times(ZERO, bits) == ZERO
  {
    if bits != [] {
      ZeroTimes(bits[..|bits| - 1]);
    }
  }

  /** While the top bit is clear nothing is reduced: feeding a bit into 1 shifts it in. */
  lemma ShiftIn(z: Byte, bit: bool)
    requires !z.b7
    ensures z.Twice().Xor(Scale(bit, ONE)) == Byte(z.b6, z.b5, z.b4, z.b3, z.b2, z.b1, z.b0, bit)
  {
  }

  /** The byte whose low bits are `bits`. */
  function Low(bits: seq<bool>): Byte
    requires |bits| <= 8
  {
    if bits == [] then ZERO
    else
      var z := Low(bits[..|bits| - 1]);
      Byte(z.b6, z.b5, z.b4, z.b3, z.b2, z.b1, z.b0, bits[|bits| - 1])
  }

  lemma {:induction false} LowBit(bits: seq<bool>, j: nat)
    requires |bits| <= 8 && j < 8
    ensures Low(bits).Bits()[7 - j] == (j < |bits| && bits[|bits| - 1 - j])
  {
    if bits != [] && j > 0 {
      LowBit(bits[..|bits| - 1], j - 1);
    }
  }

  /** Feeding fewer than nine bits into 1 rebuilds them. */
  lemma {:induction false} OneTimesLow(bits: seq<bool>)
    requires |bits| <= 8
    ensures Times(ONE, bits) == Low(bits)
  {
    if bits != [] {
      var front := bits[..|bits| - 1];
      OneTimesLow(front);
      LowBit(front, 7);
      ShiftIn(Low(front), bits[|bits| - 1]);
    }
  }

  lemma SameBits(a: Byte, b: Byte)
    requires forall j :: 0 <= j < 8 ==> a.Bits()[j] == b.Bits()[j]
    ensures a == b
  {
    assert a.b7 == a.Bits()[0] && a.b6 == a.Bits()[1] && a.b5 == a.Bits()[2] && a.b4 == a.Bits()[3];
    assert a.b3 == a.Bits()[4] && a.b2 == a.Bits()[5] && a.b1 == a.Bits()[6] && a.b0 == a.Bits()[7];
  }

  lemma OneTimes(y: Byte)
    ensures Mul(ONE, y) == y
  {
    var bits := y.Bits();
    OneTimesLow(bits);
    forall j | 0 <= j < 8
      ensures Low(bits).Bits()[j] == bits[j]
    {
      LowBit(bits, 7 - j);
    }
    SameBits(Low(bits), y);
  }

  /** The first factor can be fed in bit by bit instead: the two factors change places. */
  lemma {:induction false} TimesSwap(bits: seq<bool>, y: Byte)
    ensures Mul(Times(ONE, bits), y) == Times(y, bits)
  {
    if bits == [] {
      ZeroTimes(y.Bits());
    } else {
      var front, bit := bits[..|bits| - 1], bits[|bits| - 1];
      TimesSwap(front, y);
      TimesXor(Times(ONE, front).Twice(), Scale(bit, ONE), y.Bits());
      TimesTwice(Times(ONE, front), y.Bits());
      OneTimes(y);
      ZeroTimes(y.Bits());
    }
  }

  lemma MulCommutes(x: Byte, y: Byte)
    ensures Mul(x, y) == Mul(y, x)
  {
    OneTimes(x);
    TimesSwap(x.Bits(), y);
  }

  lemma MulXor(a: Byte, b: Byte, y: Byte)
    ensures Mul(a.Xor(b), y) == Mul(a, y).Xor(Mul(b, y))
    ensures Mul(y, a.Xor(b)) == Mul(y, a).Xor(Mul(y, b))
  {
    TimesXor(a, b, y.Bits());
    MulCommutes(a.Xor(b), y);
    MulCommutes(a, y);
    MulCommutes(b, y);
  }

  lemma MulZero(y: Byte)
    ensures Mul(ZERO, y) == ZERO && Mul(y, ZERO) == ZERO
  {
    ZeroTimes(y.Bits());
    MulCommutes(ZERO, y);
  }

  lemma MulOne(y: Byte)
    ensures Mul(ONE, y) == y && Mul(y, ONE) == y
  {
    OneTimes(y);
    MulCommutes(ONE, y);
  }

  lemma MulTwo(x: Byte)
    ensures Mul(x, TWO) == x.Twice()
  {
    assert ONE.Twice() == TWO;
    MulCommutes(x, TWO);
    TimesTwice(ONE, x.Bits());
    OneTimes(x);
  }

  lemma {:induction false} TimesAssociates(a: Byte, b: Byte, bits: seq<bool>)
    ensures Mul(a, Times(b, bits)) == Times(Mul(a, b), bits)
  {
    if bits == [] {
      MulZero(a);
    } else {
      var front, bit := bits[..|bits| - 1], bits[|bits| - 1];
      var p := Times(b, front);
      TimesAssociates(a, b, front);
      MulXor(p.Twice(), Scale(bit, b), a);
      MulCommutes(a, p.Twice());
      TimesTwice(p, a.Bits());
      MulCommutes(p, a);
      MulZero(a);
    }
  }

  lemma MulAssociates(a: Byte, b: Byte, c: Byte)
    ensures Mul(Mul(a, b), c) == Mul(a, Mul(b, c))
  {
    TimesAssociates(a, b, c.Bits());
  }
}
