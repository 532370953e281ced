/** The checksum that closes every KHQR text: CRC-16/CCITT-FALSE, polynomial
    0x1021, register preset to 0xFFFF, most significant bit first, no final
    inversion.

    The register is the list of its sixteen bits, most significant first, so
    shifting left drops the first and appends a zero, and the mask that keeps
    the program's integer at sixteen bits is the length of the list. */
module Crc {
  import opened Powers

  type Byte = b: int | 0 <= b < 256

  type Register = r: seq<bool> | |r| == 16 witness
    [false, false, false, false, false, false, false, false,
     false, false, false, false, false, false, false, false]

  const PRESET: Register :=
    [true, true, true, true, true, true, true, true,
     true, true, true, true, true, true, true, true]

  /** 0x1021 */
  const POLYNOMIAL: Register :=
    [false, false, false, true, false, false, false, false,
     false, false, true, false, false, false, false, true]

  function Xor(a: seq<bool>, b: seq<bool>): (c: seq<bool>)
    requires |a| == |b|
    ensures |c| == |a|
    ensures forall i :: 0 <= i < |a| ==> c[i] == (a[i] != b[i])
  {
    seq(|a|, i requires 0 <= i < |a| => a[i] != b[i])
  }

  function ShiftLeft(r: Register): Register {
    r[1..] + [false]
  }

  /** One turn of the inner loop. */
  function BitStep(r: Register): Register {
    if r[0] then Xor(ShiftLeft(r), POLYNOMIAL) else ShiftLeft(r)
  }

  function BitSteps(r: Register, n: nat): Register
    decreases n
  {
    if n == 0 then r else BitSteps(BitStep(r), n - 1)
  }

  /** The low `width` bits of `n`, most significant first. */
  function BitsOf(n: nat, width: nat): (bits: seq<bool>)
    ensures |bits| == width
  {
    if width == 0 then [] else BitsOf(n / 2, width - 1) + [n % 2 == 1]
  }

  /** The register with `bits` mixed into its leading places. */
  function MixIn(r: Register, bits: seq<bool>): Register
    requires |bits| <= 16
  {
    Xor(r[..|bits|], bits) + r[|bits|..]
  }

  /** One turn of the outer loop. */
  function ByteStep(r: Register, b: Byte): Register {
    BitSteps(MixIn(r, BitsOf(b, 8)), 8)
  }

  function Run(r: Register, data: seq<Byte>): Register
    decreases data
  {
    if data == [] then r else Run(ByteStep(r, data[0]), data[1..])
  }

  const HEX := "0123456789ABCDEF"

  function Value(bits: seq<bool>): (n: nat)
    decreases bits
  {
    if bits == [] then 0
    else 2 * Value(bits[..|bits| - 1]) + if bits[|bits| - 1] then 1 else 0
  }

  function HexDigit(bits: seq<bool>): char
    requires |bits| == 4
  {
    ValueBound(bits);
    HEX[Value(bits)]
  }

  /** Four upper-case hexadecimal digits. */
  function Hex4(r: Register): (text: string)
    ensures |text| == 4
  {
    [HexDigit(r[..4]), HexDigit(r[4..8]), HexDigit(r[8..12]), HexDigit(r[12..])]
  }

  function Checksum(data: seq<Byte>): (text: string)
    ensures |text| == 4
  {
    Hex4(Run(PRESET, data))
  }

  /** The inner loop, over the `n` bits of a byte. */
  method ShiftOut(mixed: Register, n: nat) returns (crc: Register)
    ensures crc == BitSteps(mixed, n)
  {
    crc := mixed;
    for k := 0 to n
      invariant BitSteps(crc, n - k) == BitSteps(mixed, n)
    {
      crc := if crc[0] then Xor(ShiftLeft(crc), POLYNOMIAL) else ShiftLeft(crc);
    }
  }

  /** The outer loop, over the bytes of the text. */
  method Crc16(data: seq<Byte>) returns (text: string)
    ensures text == Checksum(data)
  {
    var crc := PRESET;
    for i := 0 to |data|
      invariant Run(crc, data[i..]) == Run(PRESET, data)
    {
      assert data[i..][0] == data[i] && data[i..][1..] == data[i + 1..];
      crc := ShiftOut(MixIn(crc, BitsOf(data[i], 8)), 8);
    }
    text := Hex4(crc);
  }

  // ---- Feeding bits one at a time -------------------------------------------

  function FeedBit(r: Register, b: bool): Register {
    BitStep(r[0 := r[0] != b])
  }

  function FeedBits(r: Register, bits: seq<bool>): Register
    decreases bits
  {
    if bits == [] then r else FeedBits(FeedBit(r, bits[0]), bits[1..])
  }

  function Bits(data: seq<Byte>): (bits: seq<bool>)
    ensures |bits| == 8 * |data|
  {
    if data == [] then [] else BitsOf(data[0], 8) + Bits(data[1..])
  }

  lemma {:induction false} FeedBitsAppend(r: Register, a: seq<bool>, b: seq<bool>)
    ensures FeedBits(r, a + b) == FeedBits(FeedBits(r, a), b)
    decreases a
  {
    if a == [] {
      assert a + b == b;
    } else {
      assert (a + b)[1..] == a[1..] + b;
      FeedBitsAppend(FeedBit(r, a[0]), a[1..], b);
    }
  }

  /** Mixing bits in at once and stepping is feeding them one by one. */
  lemma {:induction false} StepsFeedBits(r: Register, bits: seq<bool>)
    requires |bits| <= 16
    ensures BitSteps(MixIn(r, bits), |bits|) == FeedBits(r, bits)
    decreases bits
  {
    if bits == [] {
      assert MixIn(r, bits) == r;
    } else {
      StepMixedIn(r, bits);
      StepsFeedBits(FeedBit(r, bits[0]), bits[1..]);
    }
  }

  lemma StepMixedIn(r: Register, bits: seq<bool>)
    requires 0 < |bits| <= 16
    ensures BitStep(MixIn(r, bits)) == MixIn(FeedBit(r, bits[0]), bits[1..])
  {
    var x, y := MixIn(r, bits), r[0 := r[0] != bits[0]];
    var u, v := ShiftLeft(x), ShiftLeft(y);
    assert x[0] == y[0];
    forall i | 0 <= i < 16
      ensures BitStep(x)[i] == MixIn(BitStep(y), bits[1..])[i]
    {
      if i < |bits| - 1 {
        assert u[i] == (v[i] != bits[1..][i]);
      } else {
        assert u[i] == v[i];
      }
    }
  }

  lemma {:induction false} RunFeedsBits(r: Register, data: seq<Byte>)
    ensures Run(r, data) == FeedBits(r, Bits(data))
    decreases data
  {
    if data != [] {
      StepsFeedBits(r, BitsOf(data[0], 8));
      RunFeedsBits(ByteStep(r, data[0]), data[1..]);
      FeedBitsAppend(r, BitsOf(data[0], 8), Bits(data[1..]));
    }
  }

  // ---- Error detection ------------------------------------------------------

  /** The register step is a bijection. The polynomial is odd, so the last bit
      after a step tells which branch was taken. */
  lemma BitStepInjective(x: Register, y: Register)
    requires BitStep(x) == BitStep(y)
    ensures x == y
  {
    assert BitStep(x)[15] == x[0] && BitStep(y)[15] == y[0];
    forall i | 1 <= i < 16
      ensures x[i] == y[i]
    {
      assert BitStep(x)[i - 1] == BitStep(y)[i - 1];
    }
  }

  /** Equal bits carry a difference in the register through to the end. */
  lemma {:induction false} FeedBitsInjective(x: Register, y: Register, bits: seq<bool>)
    requires FeedBits(x, bits) == FeedBits(y, bits)
    ensures x == y
    decreases bits
  {
    if bits != [] {
      FeedBitsInjective(FeedBit(x, bits[0]), FeedBit(y, bits[0]), bits[1..]);
      var x', y' := x[0 := x[0] != bits[0]], y[0 := y[0] != bits[0]];
      BitStepInjective(x', y');
      assert x == x'[0 := x'[0] != bits[0]] && y == y'[0 := y'[0] != bits[0]];
    }
  }

  /** A step whose results agree from place `n - 1` on was taken from registers
      that agree from place `n` on and took the same branch. */
  lemma StepBack(x: Register, y: Register, n: nat)
    requires 0 < n <= 16 && BitStep(x)[n - 1..] == BitStep(y)[n - 1..]
    ensures x[0] == y[0] && x[n..] == y[n..]
  {
    var a, b := BitStep(x), BitStep(y);
    assert a[15] == a[n - 1..][16 - n] == b[n - 1..][16 - n] == b[15];
    forall i | n <= i < 16
      ensures x[i] == y[i]
    {
      assert a[i - 1] == a[n - 1..][i - n] == b[n - 1..][i - n] == b[i - 1];
    }
  }

  /** Up to 16 bits fed into equal registers leave equal registers only when
      they are the same bits. Read backwards from the end: n bits before it, the
      two registers can differ only in their n leading places, so as long as
      n < 16 the last places agree and both took the same branch. */
  lemma {:induction false} Window(x: Register, y: Register, u: seq<bool>, v: seq<bool>)
    requires |u| == |v| <= 16
    requires FeedBits(x, u) == FeedBits(y, v)
    ensures x[|u|..] == y[|u|..]
    ensures x == y ==> u == v
    decreases u
  {
    if u != [] {
      var x', y' := x[0 := x[0] != u[0]], y[0 := y[0] != v[0]];
      Window(BitStep(x'), BitStep(y'), u[1..], v[1..]);
      StepBack(x', y', |u|);
      assert x[|u|..] == x'[|u|..] && y[|u|..] == y'[|u|..];
      if x == y {
        assert x' == y';
        assert u == [u[0]] + u[1..] && v == [v[0]] + v[1..];
      }
    }
  }

  /** Two bit strings agree outside a window of at most 16 places. */
  ghost predicate BurstApart(u: seq<bool>, v: seq<bool>, from: nat, to: nat)
  {
    && |u| == |v|
    && from <= to <= |u| && to - from <= 16
    && u[..from] == v[..from] && u[to..] == v[to..]
  }

  lemma BurstSeen(r: Register, u: seq<bool>, v: seq<bool>, from: nat, to: nat)
    requires BurstApart(u, v, from, to)
    requires FeedBits(r, u) == FeedBits(r, v)
    ensures u == v
  {
    var s := FeedBits(r, u[..from]);
    Split(r, u, from, to);
    Split(r, v, from, to);
    FeedBitsInjective(FeedBits(s, u[from..to]), FeedBits(s, v[from..to]), u[to..]);
    Window(s, s, u[from..to], v[from..to]);
    Rejoined(u, from, to);
    Rejoined(v, from, to);
  }

  lemma Rejoined(u: seq<bool>, from: nat, to: nat)
    requires from <= to <= |u|
    ensures u == u[..from] + u[from..to] + u[to..]
  {
  }

  lemma Split(r: Register, u: seq<bool>, from: nat, to: nat)
    requires from <= to <= |u|
    ensures FeedBits(r, u) == FeedBits(FeedBits(FeedBits(r, u[..from]), u[from..to]), u[to..])
  {
    assert u == u[..to] + u[to..] && u[..to] == u[..from] + u[from..to];
    FeedBitsAppend(r, u[..to], u[to..]);
    FeedBitsAppend(r, u[..from], u[from..to]);
  }

  /** Error detection, for data of any length: two byte strings of equal length
      whose bits agree outside some 16 consecutive places, and whose checksums
      agree, are the same. */
  lemma BurstDetected(a: seq<Byte>, b: seq<Byte>, from: nat, to: nat)
    requires |a| == |b|
    requires BurstApart(Bits(a), Bits(b), from, to)
    requires Checksum(a) == Checksum(b)
    ensures a == b
  {
    Hex4Injective(Run(PRESET, a), Run(PRESET, b));
    RunFeedsBits(PRESET, a);
    RunFeedsBits(PRESET, b);
    BurstSeen(PRESET, Bits(a), Bits(b), from, to);
    BitsInjective(a, b);
  }

  /** In particular, no change within one byte or within two adjacent bytes
      keeps the checksum. */
  lemma AdjacentBytesDetected(a: seq<Byte>, b: seq<Byte>, at: nat, width: nat)
    requires |a| == |b| && a != b
    requires width <= 2 && at + width <= |a|
    requires a[..at] == b[..at] && a[at + width..] == b[at + width..]
    ensures Checksum(a) != Checksum(b)
  {
    if Checksum(a) == Checksum(b) {
      BytesApart(a, b, at, width);
      BurstDetected(a, b, 8 * at, 8 * (at + width));
    }
  }

  lemma BytesApart(a: seq<Byte>, b: seq<Byte>, at: nat, width: nat)
    requires |a| == |b| && width <= 2 && at + width <= |a|
    requires a[..at] == b[..at] && a[at + width..] == b[at + width..]
    ensures BurstApart(Bits(a), Bits(b), 8 * at, 8 * (at + width))
  {
    AgreeingBytes(a, b, at);
    AgreeingBytes(a, b, at + width);
  }

  lemma AgreeingBytes(a: seq<Byte>, b: seq<Byte>, at: nat)
    requires at <= |a| == |b|
    ensures 8 * at <= |Bits(a)|
    ensures a[..at] == b[..at] ==> Bits(a)[..8 * at] == Bits(b)[..8 * at]
    ensures a[at..] == b[at..] ==> Bits(a)[8 * at..] == Bits(b)[8 * at..]
  {
    BitsCut(a, at);
    BitsCut(b, at);
  }

  lemma BitsCut(a: seq<Byte>, at: nat)
    requires at <= |a|
    ensures Bits(a)[..8 * at] == Bits(a[..at]) && Bits(a)[8 * at..] == Bits(a[at..])
  {
    assert a == a[..at] + a[at..];
    BitsAppend(a[..at], a[at..]);
  }

  lemma {:induction false} BitsAppend(a: seq<Byte>, b: seq<Byte>)
    ensures Bits(a + b) == Bits(a) + Bits(b)
    decreases a
  {
    if a == [] {
      assert a + b == b;
    } else {
      assert (a + b)[1..] == a[1..] + b;
      BitsAppend(a[1..], b);
    }
  }

  // ---- A change that reaches into the checksum ------------------------------

  /** A register fed its own leading bits shifts them out and takes no branch. */
  lemma {:induction false} FeedOwn(r: Register, n: nat)
    requires n <= 16
    ensures FeedBits(r, r[..n]) == r[n..] + seq(n, _ => false)
    decreases n
  {
    if n == 0 {
      assert r[..n] == [] && r[n..] + seq(n, _ => false) == r;
    } else {
      var next := FeedBit(r, r[0]);
      assert next == r[1..] + [false];
      assert r[..n][1..] == next[..n - 1];
      FeedOwn(next, n - 1);
      assert next[n - 1..] + seq(n - 1, _ => false) == r[n..] + seq(n, _ => false);
    }
  }

  /** Different bits fed into one register leave registers that differ somewhere
      past their first `n` places, for as long as bits and places together are
      no more than 16. */
  lemma StraddleSeen(r: Register, u: seq<bool>, v: seq<bool>, n: nat)
    requires |u| == |v| && |u| + n <= 16
    requires FeedBits(r, u)[n..] == FeedBits(r, v)[n..]
    ensures u == v
  {
    var x, y := FeedBits(r, u), FeedBits(r, v);
    FeedOwn(x, n);
    FeedOwn(y, n);
    FeedBitsAppend(r, u, x[..n]);
    FeedBitsAppend(r, v, y[..n]);
    Window(r, r, u + x[..n], v + y[..n]);
    assert u == (u + x[..n])[..|u|] && v == (v + y[..n])[..|u|];
  }

  lemma RunAppend(r: Register, a: seq<Byte>, b: seq<Byte>)
    ensures Run(r, a + b) == FeedBits(Run(r, a), Bits(b))
  {
    RunFeedsBits(r, a);
    RunFeedsBits(r, a + b);
    BitsAppend(a, b);
    FeedBitsAppend(r, Bits(a), Bits(b));
  }

  /** The last three digits determine the last twelve places. */
  lemma LastDigitsInjective(x: Register, y: Register)
    requires Hex4(x)[1..] == Hex4(y)[1..]
    ensures x[4..] == y[4..]
  {
    assert Hex4(x)[1..][0] == Hex4(y)[1..][0] && Hex4(x)[1..][1] == Hex4(y)[1..][1]
           && Hex4(x)[1..][2] == Hex4(y)[1..][2];
    HexDigitInjective(x[4..8], y[4..8]);
    HexDigitInjective(x[8..12], y[8..12]);
    HexDigitInjective(x[12..], y[12..]);
    assert x[4..] == x[4..8] + x[8..12] + x[12..] && y[4..] == y[4..8] + y[8..12] + y[12..];
  }

  /** Two texts that differ only in their last byte have checksums that differ
      past the first digit. */
  lemma LastByteDetected(front: seq<Byte>, b: Byte, c: Byte)
    requires Checksum(front + [b])[1..] == Checksum(front + [c])[1..]
    ensures b == c
  {
    LastDigitsInjective(Run(PRESET, front + [b]), Run(PRESET, front + [c]));
    RunAppend(PRESET, front, [b]);
    RunAppend(PRESET, front, [c]);
    StraddleSeen(Run(PRESET, front), Bits([b]), Bits([c]), 4);
    BitsInjective([b], [c]);
    assert [b][0] == [c][0];
  }

  lemma SameByte(b: Byte, c: Byte)
    requires BitsOf(b, 8) == BitsOf(c, 8)
    ensures b == c
  {
    assert Pow2(8) == 256;
    ValueOfBits(b, 8);
    ValueOfBits(c, 8);
  }

  // ---- Printing and reading bits back ---------------------------------------

  lemma {:induction false} ValueOfBits(n: nat, width: nat)
    requires n < Pow2(width)
    ensures Value(BitsOf(n, width)) == n
  {
    if width > 0 {
      var bits := BitsOf(n, width);
      assert bits[..width - 1] == BitsOf(n / 2, width - 1);
      ValueOfBits(n / 2, width - 1);
    }
  }

  lemma {:induction false} ValueInjective(a: seq<bool>, b: seq<bool>)
    requires |a| == |b| && Value(a) == Value(b)
    ensures a == b
  {
    if a != [] {
      var n := |a| - 1;
      ValueInjective(a[..n], b[..n]);
      assert a == a[..n] + [a[n]] && b == b[..n] + [b[n]];
    }
  }

  lemma {:induction false} ValueBound(bits: seq<bool>)
    ensures Value(bits) < Pow2(|bits|)
    ensures |bits| == 4 ==> Value(bits) < 16
  {
    if bits != [] {
      ValueBound(bits[..|bits| - 1]);
    }
    assert Pow2(4) == 16;
  }

  lemma {:induction false} BitsInjective(a: seq<Byte>, b: seq<Byte>)
    requires |a| == |b| && Bits(a) == Bits(b)
    ensures a == b
  {
    if a != [] {
      assert Bits(a)[..8] == BitsOf(a[0], 8) && Bits(b)[..8] == BitsOf(b[0], 8);
      assert Bits(a)[8..] == Bits(a[1..]) && Bits(b)[8..] == Bits(b[1..]);
      SameByte(a[0], b[0]);
      BitsInjective(a[1..], b[1..]);
    }
  }

  lemma Hex4Injective(x: Register, y: Register)
    requires Hex4(x) == Hex4(y)
    ensures x == y
  {
    HexDigitInjective(x[..4], y[..4]);
    HexDigitInjective(x[4..8], y[4..8]);
    HexDigitInjective(x[8..12], y[8..12]);
    HexDigitInjective(x[12..], y[12..]);
    assert x == x[..4] + x[4..8] + x[8..12] + x[12..];
    assert y == y[..4] + y[4..8] + y[8..12] + y[12..];
  }

  lemma HexDigitInjective(a: seq<bool>, b: seq<bool>)
    requires |a| == |b| == 4 && HexDigit(a) == HexDigit(b)
    ensures a == b
  {
    ValueBound(a);
    ValueBound(b);
    ValueInjective(a, b);
  }
}
