/** The data codewords of a byte-mode QR code at error level M, versions 1 to 10: the version
    tables, the bit stream of a text and the reader that undoes it (section 7.4 of
    ISO/IEC 18004:2015). */
module QrData {
  import opened Basics
  import opened GaloisField

  /** A byte of the text. */
  type Octet = x: int | 0 <= x < 256

  const MAX_VERSION := 10
  const MAX_TEXT := 213
  const ECC: seq<nat> := [0, 10, 16, 26, 18, 24, 16, 18, 22, 22, 26]
  const BLOCKS: seq<nat> := [0, 1, 1, 1, 2, 2, 4, 4, 4, 5, 5]

  predicate IsVersion(v: int) {
    1 <= v <= MAX_VERSION
  }

  /** The number of modules left for data and check bits. */
  function RawBits(v: nat): int {
    var n := (16 * v + 128) * v + 64;
    if v < 2 then n
    else
      var a := v / 7 + 2;
      var m := n - ((25 * a - 10) * a - 55);
      if v >= 7 then m - 36 else m
  }

  function Raw(v: nat): (r: nat)
    requires IsVersion(v)
  {
    RawBits(v) / 8
  }

  function Data(v: nat): (r: nat)
    requires IsVersion(v)
  {
    Raw(v) - ECC[v] * BLOCKS[v]
  }

  lemma Capacities()
    ensures Data(1) == 16 && Data(2) == 28 && Data(3) == 44 && Data(4) == 64 && Data(5) == 86
    ensures Data(6) == 108 && Data(7) == 124 && Data(8) == 154 && Data(9) == 182 && Data(10) == 216
  {
  }

  function CountBits(v: nat): nat {
    if v >= 10 then 16 else 8
  }

  predicate Fits(v: nat, length: nat)
    requires IsVersion(v)
  {
    4 + CountBits(v) + 8 * length <= 8 * Data(v)
  }

  /** A longer text never fits a version that refuses a shorter one, and version 10 takes exactly
      the texts of up to 213 bytes. */
  lemma LongestText(length: nat)
    ensures length <= MAX_TEXT <==> exists v :: IsVersion(v) && Fits(v, length)
  {
    Capacities();
    if length <= MAX_TEXT {
      assert Fits(10, length);
    }
    forall v | IsVersion(v) && Fits(v, length)
      ensures length <= MAX_TEXT
    {
      assert Data(v) <= 216;
    }
  }

  method QrVersion(length: nat) returns (v: nat)
    ensures 1 <= v <= MAX_VERSION + 1
    ensures forall w :: 1 <= w < v ==> !Fits(w, length)
    ensures v <= MAX_VERSION ==> Fits(v, length)
    ensures v <= MAX_VERSION <==> length <= MAX_TEXT
  {
    LongestText(length);
    v := 1;
    while v <= MAX_VERSION
      invariant 1 <= v <= MAX_VERSION + 1
      invariant forall w :: 1 <= w < v ==> !Fits(w, length)
    {
      var count := 8;
      if v >= 10 {
        count := 16;
      }
      if 4 + count + 8 * length <= 8 * Data(v) {
        break;
      }
      v := v + 1;
    }
  }

  // ----- numbers as bits -----

  /** val >> i */
  function ShiftRight(val: nat, i: nat): nat {
    if i == 0 then val else ShiftRight(val, i - 1) / 2
  }

  /** The low n bits of val, highest first. */
  function NatBits(val: nat, n: nat): (bits: seq<bool>)
    ensures |bits| == n
  {
    if n == 0 then [] else [ShiftRight(val, n - 1) % 2 == 1] + NatBits(val, n - 1)
  }

  function Value(bits: seq<bool>): nat {
    if bits == [] then 0 else 2 * Value(bits[..|bits| - 1]) + (if bits[|bits| - 1] then 1 else 0)
  }

  /** The loop put: appends the low n bits of val. */
  method Put(bits: seq<bool>, val: nat, n: nat) returns (longer: seq<bool>)
    ensures longer == bits + NatBits(val, n)
  {
    longer := bits;
    var i := n;
    while i > 0
      invariant 0 <= i <= n
      invariant longer + NatBits(val, i) == bits + NatBits(val, n)
    {
      i := i - 1;
      assert NatBits(val, i + 1) == [ShiftRight(val, i) % 2 == 1] + NatBits(val, i);
      longer := longer + [ShiftRight(val, i) % 2 == 1];
    }
  }

  lemma {:induction false} ValueOfPrefix(val: nat, n: nat, k: nat)
    requires k <= n && ShiftRight(val, n) == 0
    ensures Value(NatBits(val, n)[..k]) == ShiftRight(val, n - k)
  {
    if k > 0 {
      ValueOfPrefix(val, n, k - 1);
      NatBitsAt(val, n, k - 1);
      assert NatBits(val, n)[..k][..k - 1] == NatBits(val, n)[..k - 1];
      assert ShiftRight(val, n - k + 1) == ShiftRight(val, n - k) / 2;
    }
  }

  lemma {:induction false} NatBitsAt(val: nat, n: nat, k: nat)
    requires k < n
    ensures NatBits(val, n)[k] == (ShiftRight(val, n - 1 - k) % 2 == 1)
  {
    if k > 0 {
      NatBitsAt(val, n - 1, k - 1);
    }
  }

  lemma {:induction false} NatBitsRoundTrip(val: nat, n: nat)
    requires ShiftRight(val, n) == 0
    ensures Value(NatBits(val, n)) == val
  {
    ValueOfPrefix(val, n, n);
    assert NatBits(val, n)[..n] == NatBits(val, n);
  }

  lemma {:induction false} ShiftAdd(val: nat, i: nat, j: nat)
    ensures ShiftRight(ShiftRight(val, i), j) == ShiftRight(val, i + j)
  {
    if j > 0 {
      ShiftAdd(val, i, j - 1);
    }
  }

  lemma FitsOctet(val: nat)
    requires val < 256
    ensures ShiftRight(val, 8) == 0 && ShiftRight(val, 16) == 0
  {
    var a, b := ShiftRight(val, 2), ShiftRight(val, 4);
    assert ShiftRight(val, 1) < 128 && a < 64;
    ShiftAdd(val, 2, 2);
    assert ShiftRight(a, 1) < 32 && b < 16;
    ShiftAdd(val, 4, 2);
    assert ShiftRight(b, 1) < 8 && ShiftRight(val, 6) < 4;
    ShiftAdd(val, 6, 2);
    assert ShiftRight(ShiftRight(val, 6), 1) < 2;
    ShiftAdd(val, 8, 8);
    ShiftZero(8);
  }

  lemma {:induction false} ShiftZero(i: nat)
    ensures ShiftRight(0, i) == 0
  {
    if i > 0 {
      ShiftZero(i - 1);
    }
  }

  // ----- the bit stream of a text -----

  function TextBits(text: seq<Octet>): (bits: seq<bool>)
    ensures |bits| == 8 * |text|
  {
    if text == [] then [] else TextBits(text[..|text| - 1]) + NatBits(text[|text| - 1], 8)
  }

  function HeaderBits(v: nat, text: seq<Octet>): (bits: seq<bool>)
    ensures |bits| == 4 + CountBits(v) + 8 * |text|
  {
    NatBits(4, 4) + NatBits(|text|, CountBits(v)) + TextBits(text)
  }

  /** How many bits are missing to a whole byte. */
  function ToByte(n: nat): (r: nat)
    ensures r < 8 && (n + r) % 8 == 0
  {
    (8 - n % 8) % 8
  }

  lemma WholeBytes(n: nat, capacity: nat)
    requires n <= capacity && capacity % 8 == 0
    ensures n + ToByte(n) <= capacity
  {
  }

  function TerminatorLength(n: nat, capacity: nat): nat
    requires n <= capacity
  {
    if capacity - n < 4 then capacity - n else 4
  }

  function Terminated(bits: seq<bool>, capacity: nat): (longer: seq<bool>)
    requires |bits| <= capacity && capacity % 8 == 0
    ensures |longer| % 8 == 0 && |longer| <= capacity && bits <= longer
  {
    var t := bits + NatBits(0, TerminatorLength(|bits|, capacity));
    WholeBytes(|t|, capacity);
    t + NatBits(0, ToByte(|t|))
  }

  function Pack(bits: seq<bool>): (data: seq<Byte>)
    requires |bits| % 8 == 0
    ensures 8 * |data| == |bits|
  {
    if bits == [] then []
    else Pack(bits[..|bits| - 8]) + [FromBits(bits[|bits| - 8..])]
  }

  function Unpack(data: seq<Byte>): (bits: seq<bool>)
    ensures |bits| == 8 * |data|
  {
    if data == [] then [] else Unpack(data[..|data| - 1]) + data[|data| - 1].Bits()
  }

  const PAD_EC := Byte(true, true, true, false, true, true, false, false)
  const PAD_11 := Byte(false, false, false, true, false, false, false, true)

  /** The pad bytes 0xEC and 0x11 in turn. */
  function Padding(n: nat): (pad: seq<Byte>)
    ensures |pad| == n
    ensures forall i :: 0 <= i < n ==> pad[i] == if i % 2 == 0 then PAD_EC else PAD_11
  {
    seq(n, i => if i % 2 == 0 then PAD_EC else PAD_11)
  }

  /** All data codewords of a text in version v. */
  function Codewords(v: nat, text: seq<Octet>): (data: seq<Byte>)
    requires IsVersion(v) && Fits(v, |text|)
    ensures |data| == Data(v)
  {
    hide Data;
    PackedAndPadded(HeaderBits(v, text), Data(v))
  }

  function PackedAndPadded(bits: seq<bool>, length: nat): (data: seq<Byte>)
    requires |bits| <= 8 * length
    ensures |data| == length
  {
    hide Terminated, Pack, Padding;
    var packed := Pack(Terminated(bits, 8 * length));
    packed + Padding(length - |packed|)
  }

  /** Mode, count and bytes as a reader takes them from the codewords. */
  function ReadCodewords(v: nat, data: seq<Byte>): Option<seq<Octet>> {
    var bits, header := Unpack(data), 4 + CountBits(v);
    if |bits| < header || Value(bits[..4]) != 4 then None
    else
      var count := Value(bits[4..header]);
      if |bits| < header + 8 * count then None
      else Some(ReadOctets(bits[header..header + 8 * count], count))
  }

  function ReadOctets(bits: seq<bool>, count: nat): (text: seq<Octet>)
    requires |bits| == 8 * count
    ensures |text| == count
  {
    if count == 0 then []
    else
      var front := 8 * (count - 1);
      ValueOfOctet(bits[front..]);
      ReadOctets(bits[..front], count - 1) + [Value(bits[front..])]
  }

  lemma ValueOfOctet(bits: seq<bool>)
    requires |bits| == 8
    ensures Value(bits) < 256
  {
    assert Value(bits[..1]) < 2;
    assert bits[..2][..1] == bits[..1] && bits[..3][..2] == bits[..2] && bits[..4][..3] == bits[..3];
    assert Value(bits[..2]) < 4 && Value(bits[..3]) < 8 && Value(bits[..4]) < 16;
    assert bits[..5][..4] == bits[..4] && bits[..6][..5] == bits[..5] && bits[..7][..6] == bits[..6];
    assert Value(bits[..5]) < 32 && Value(bits[..6]) < 64 && Value(bits[..7]) < 128;
  }

  // ----- the loops of the source -----

  method QrCodewords(v: nat, text: seq<Octet>) returns (data: seq<Byte>)
    requires IsVersion(v) && Fits(v, |text|)
    ensures data == Codewords(v, text)
  {
    hide Data, NatBits;
    var bits := PutHeader(v, text);
    var capacity := 8 * Data(v);
    ghost var header := bits;
    bits := Put(bits, 0, if capacity - |bits| < 4 then capacity - |bits| else 4);
    WholeBytes(|bits|, capacity);
    bits := Put(bits, 0, (8 - |bits| % 8) % 8);
    assert bits == Terminated(header, capacity);
    data := PackBits(bits);
    data := PadTo(data, Data(v));
  }

  method PutHeader(v: nat, text: seq<Octet>) returns (bits: seq<bool>)
    ensures bits == HeaderBits(v, text)
  {
    hide NatBits;
    bits := Put([], 4, 4);
    if v >= 10 {
      bits := Put(bits, |text|, 16);
    } else {
      bits := Put(bits, |text|, 8);
    }
    ghost var start := bits;
    for i := 0 to |text|
      invariant bits == start + TextBits(text[..i])
    {
      bits := Put(bits, text[i], 8);
      assert text[..i + 1][..i] == text[..i];
    }
    assert text[..|text|] == text;
  }

  method PackBits(bits: seq<bool>) returns (data: seq<Byte>)
    requires |bits| % 8 == 0
    ensures data == Pack(bits)
  {
    data := [];
    var i := 0;
    while i < |bits|
      invariant 0 <= i <= |bits| && i % 8 == 0
      invariant data == Pack(bits[..i])
    {
      assert bits[..i + 8][i..] == bits[i..i + 8] && bits[..i + 8][..i] == bits[..i];
      data := data + [FromBits(bits[i..i + 8])];
      i := i + 8;
    }
    assert bits[..|bits|] == bits;
  }

  method PadTo(packed: seq<Byte>, length: nat) returns (data: seq<Byte>)
    requires |packed| <= length
    ensures data == packed + Padding(length - |packed|)
  {
    data := packed;
    var pad := PAD_EC;
    while |data| < length
      invariant |packed| <= |data| <= length
      invariant data == packed + Padding(|data| - |packed|)
      invariant pad == if (|data| - |packed|) % 2 == 0 then PAD_EC else PAD_11
    {
      assert Padding(|data| + 1 - |packed|) == Padding(|data| - |packed|) + [pad];
      data := data + [pad];
      pad := pad.Xor(PAD_EC.Xor(PAD_11));
    }
  }

  // ----- reading back -----

  lemma {:induction false} UnpackConcat(a: seq<Byte>, b: seq<Byte>)
    ensures Unpack(a + b) == Unpack(a) + Unpack(b)
  {
    if b == [] {
      assert a + b == a;
    } else {
      assert (a + b)[..|a + b| - 1] == a + b[..|b| - 1];
      UnpackConcat(a, b[..|b| - 1]);
    }
  }

  lemma {:induction false} UnpackPack(bits: seq<bool>)
    requires |bits| % 8 == 0
    ensures Unpack(Pack(bits)) == bits
  {
    if bits != [] {
      var front, last := bits[..|bits| - 8], bits[|bits| - 8..];
      UnpackPack(front);
      assert Pack(bits)[..|Pack(bits)| - 1] == Pack(front);
      assert bits == front + last;
    }
  }

  lemma PackMore(bits: seq<bool>, b: Byte)
    requires |bits| % 8 == 0
    ensures Pack(bits + b.Bits()) == Pack(bits) + [b]
  {
    var more := bits + b.Bits();
    assert more[..|more| - 8] == bits;
    assert more[|more| - 8..] == b.Bits();
  }

  lemma {:induction false} PackUnpack(data: seq<Byte>)
    ensures Pack(Unpack(data)) == data
  {
    hide Byte.Bits, Pack;
    if data == [] {
      PackNothing();
    } else {
      PackUnpack(data[..|data| - 1]);
      PackMore(Unpack(data[..|data| - 1]), data[|data| - 1]);
    }
  }

  lemma PackNothing()
    ensures Pack([]) == []
  {
  }

  lemma {:induction false} ReadTextBits(text: seq<Octet>)
    ensures ReadOctets(TextBits(text), |text|) == text
  {
    if text != [] {
      var front, last := text[..|text| - 1], text[|text| - 1];
      ReadTextBits(front);
      var bits := TextBits(text);
      assert bits[..|bits| - 8] == TextBits(front) && bits[|bits| - 8..] == NatBits(last, 8);
      FitsOctet(last);
      NatBitsRoundTrip(last, 8);
    }
  }

  lemma HeaderParts(v: nat, text: seq<Octet>)
    ensures var header, c := HeaderBits(v, text), CountBits(v);
      header[..4] == NatBits(4, 4) && header[4..4 + c] == NatBits(|text|, c) && header[4 + c..] == TextBits(text)
  {
    hide NatBits, TextBits, CountBits;
  }

  lemma CountRoundTrip(v: nat, length: nat)
    requires IsVersion(v) && Fits(v, length)
    ensures Value(NatBits(4, 4)) == 4
    ensures Value(NatBits(length, CountBits(v))) == length
  {
    assert ShiftRight(4, 4) == 0;
    NatBitsRoundTrip(4, 4);
    LongestText(length);
    FitsOctet(length);
    NatBitsRoundTrip(length, CountBits(v));
  }

  lemma PaddingIsBehind(bits: seq<bool>, length: nat)
    requires |bits| <= 8 * length
    ensures bits <= Unpack(PackedAndPadded(bits, length))
  {
    hide Terminated;
    var terminated := Terminated(bits, 8 * length);
    var packed := Pack(terminated);
    UnpackConcat(packed, Padding(length - |packed|));
    UnpackPack(terminated);
  }

  lemma ReadHeader(v: nat, text: seq<Octet>, data: seq<Byte>)
    requires HeaderBits(v, text) <= Unpack(data)
    requires Value(NatBits(4, 4)) == 4 && Value(NatBits(|text|, CountBits(v))) == |text|
    ensures ReadCodewords(v, data) == Some(text)
  {
    hide *;
    var bits, header, c := Unpack(data), HeaderBits(v, text), CountBits(v);
    var end := 4 + c + 8 * |text|;
    HeaderParts(v, text);
    SliceOfPrefix(header, bits, 0, 4);
    SliceOfPrefix(header, bits, 4, 4 + c);
    SliceOfPrefix(header, bits, 4 + c, end);
    ReadParts(v, text, data);
  }

  lemma ReadParts(v: nat, text: seq<Octet>, data: seq<Byte>)
    requires var bits, c := Unpack(data), CountBits(v);
      && 4 + c + 8 * |text| <= |bits| && Value(bits[..4]) == 4 && Value(bits[4..4 + c]) == |text|
      && bits[4 + c..4 + c + 8 * |text|] == TextBits(text)
    ensures ReadCodewords(v, data) == Some(text)
  {
    hide Unpack, CountBits, Value, TextBits, ReadOctets;
    ReadTextBits(text);
  }

  lemma SliceOfPrefix<T>(a: seq<T>, b: seq<T>, i: nat, j: nat)
    requires a <= b && i <= j <= |a|
    ensures b[i..j] == a[i..j]
    ensures i == 0 ==> b[..j] == a[..j]
    ensures j == |a| ==> a[i..j] == a[i..]
  {
  }

  /** The reader recovers every text that fits from its codewords. */
  lemma CodewordsRoundTrip(v: nat, text: seq<Octet>)
    requires IsVersion(v) && Fits(v, |text|)
    ensures ReadCodewords(v, Codewords(v, text)) == Some(text)
  {
    hide Data, HeaderBits;
    PaddingIsBehind(HeaderBits(v, text), Data(v));
    CountRoundTrip(v, |text|);
    ReadHeader(v, text, Codewords(v, text));
  }

  // ----- the codewords as the standard prints them -----

  /** Where the last whole byte of the stream ends: after the text, at most four zero bits, and zero
      bits up to a byte. */
  function WholeEnd(end: nat, capacity: nat): nat {
    if end + 4 <= capacity then (end + 4 + 7) / 8 else (capacity + 7) / 8
  }

  lemma TerminatedZeros(bits: seq<bool>, capacity: nat)
    requires |bits| <= capacity && capacity % 8 == 0
    ensures |Terminated(bits, capacity)| == 8 * WholeEnd(|bits|, capacity)
    ensures forall k :: |bits| <= k < |Terminated(bits, capacity)| ==> !Terminated(bits, capacity)[k]
  {
    hide NatBits;
    ZeroBits(TerminatorLength(|bits|, capacity));
    ZeroBits(ToByte(|bits| + TerminatorLength(|bits|, capacity)));
  }

  lemma {:induction false} ZeroBits(n: nat)
    ensures forall k :: 0 <= k < n ==> !NatBits(0, n)[k]
  {
    if n > 0 {
      ZeroBits(n - 1);
      ShiftZero(n - 1);
    }
  }

  lemma {:induction false} TextBitsAt(text: seq<Octet>, i: nat)
    requires i < |text|
    ensures TextBits(text)[8 * i..8 * i + 8] == NatBits(text[i], 8)
  {
    hide NatBits;
    var front := text[..|text| - 1];
    if i < |text| - 1 {
      TextBitsAt(front, i);
      assert TextBits(text)[8 * i..8 * i + 8] == TextBits(front)[8 * i..8 * i + 8];
    }
  }

  lemma ModeBits()
    ensures NatBits(4, 4) == [false, true, false, false]
  {
    assert ShiftRight(4, 1) == 2 && ShiftRight(4, 2) == 1 && ShiftRight(4, 3) == 0;
  }

  lemma HeaderAsPrinted(v: nat, text: seq<Octet>, bits: seq<bool>)
    requires IsVersion(v) && Fits(v, |text|) && HeaderBits(v, text) <= bits
    ensures var start := if v <= 9 then 12 else 20;
      && bits[..4] == [false, true, false, false] && Value(bits[4..start]) == |text|
      && forall i :: 0 <= i < |text| ==> Value(bits[start + 8 * i..start + 8 * i + 8]) == text[i]
  {
    hide Data, NatBits, TextBits, Value, HeaderBits, Fits;
    var header, start := HeaderBits(v, text), if v <= 9 then 12 else 20;
    HeaderParts(v, text);
    CountRoundTrip(v, |text|);
    ModeBits();
    SliceOfPrefix(header, bits, 0, 4);
    SliceOfPrefix(header, bits, 4, start);
    forall i | 0 <= i < |text|
      ensures Value(bits[start + 8 * i..start + 8 * i + 8]) == text[i]
    {
      TextBitsAt(text, i);
      SliceOfPrefix(header, bits, start + 8 * i, start + 8 * i + 8);
      assert header[start + 8 * i..start + 8 * i + 8] == header[start..][8 * i..8 * i + 8];
      FitsOctet(text[i]);
      NatBitsRoundTrip(text[i], 8);
    }
  }

  /** Where the whole bytes of the stream end. */
  function StreamEnd(v: nat, length: nat): nat
    requires IsVersion(v)
  {
    WholeEnd((if v <= 9 then 12 else 20) + 8 * length, 8 * Data(v))
  }

  /** The stream of a text: 0100, its length in eight bits up to version 9 and in sixteen in version
      10, its bytes, zero bits up to a whole byte, and then 0xEC and 0x11 in turn. */
  lemma CodewordsAsPrinted(v: nat, text: seq<Octet>)
    requires IsVersion(v) && Fits(v, |text|)
    ensures var bits, start := Unpack(Codewords(v, text)), if v <= 9 then 12 else 20;
      && start + 8 * |text| <= 8 * StreamEnd(v, |text|) <= |bits|
      && bits[..4] == [false, true, false, false] && Value(bits[4..start]) == |text|
      && (forall i :: 0 <= i < |text| ==> Value(bits[start + 8 * i..start + 8 * i + 8]) == text[i])
      && forall k :: start + 8 * |text| <= k < 8 * StreamEnd(v, |text|) ==> !bits[k]
    ensures forall k :: StreamEnd(v, |text|) <= k < |Codewords(v, text)| ==>
      Codewords(v, text)[k] == if (k - StreamEnd(v, |text|)) % 2 == 0 then PrintedPad(0) else PrintedPad(1)
  {
    hide Data, NatBits, TextBits, Unpack, Pack, Value, Terminated, HeaderBits, WholeEnd;
    var header := HeaderBits(v, text);
    var terminated := Terminated(header, 8 * Data(v));
    TerminatedZeros(header, 8 * Data(v));
    UnpackPack(terminated);
    UnpackConcat(Pack(terminated), Padding(Data(v) - |Pack(terminated)|));
    assert terminated <= Unpack(Codewords(v, text));
    HeaderAsPrinted(v, text, Unpack(Codewords(v, text)));
  }

  /** 0xEC and 0x11 */
  function PrintedPad(k: nat): Byte {
    if k == 0 then Byte(true, true, true, false, true, true, false, false)
    else Byte(false, false, false, true, false, false, false, true)
  }
}
