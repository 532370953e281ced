/** The published check value of CRC-16/CCITT-FALSE: the digits 1 to 9 give 29B1.
    It pins the polynomial, the preset, the order of the bits and the printing. */
module CrcCheck {
  import opened Crc

  const T := true
  const F := false

  /** `s` follows `r` by one step, bit by bit. */
  ghost predicate Next(r: Register, s: Register)
  {
    && s[0] == r[1] && s[1] == r[2] && s[2] == r[3] && s[3] == (r[4] != r[0])
    && s[4] == r[5] && s[5] == r[6] && s[6] == r[7] && s[7] == r[8]
    && s[8] == r[9] && s[9] == r[10] && s[10] == (r[11] != r[0]) && s[11] == r[12]
    && s[12] == r[13] && s[13] == r[14] && s[14] == r[15] && s[15] == r[0]
  }

  lemma BitStepIs(r: Register)
    ensures Next(r, BitStep(r))
  {
    var s := ShiftLeft(r);
    assert s[3] == r[4] && s[10] == r[11] && !s[15];
    assert BitStep(r)[3] == (r[4] != r[0]) && BitStep(r)[10] == (r[11] != r[0]) && BitStep(r)[15] == r[0];
  }

  /** The register over the eight steps of one byte. */
  datatype Trace = Trace(m: Register, r1: Register, r2: Register, r3: Register, r4: Register, r5: Register,
                         r6: Register, r7: Register, r8: Register)

  ghost predicate Traced(t: Trace)
  {
    && Next(t.m, t.r1) && Next(t.r1, t.r2) && Next(t.r2, t.r3) && Next(t.r3, t.r4)
    && Next(t.r4, t.r5) && Next(t.r5, t.r6) && Next(t.r6, t.r7) && Next(t.r7, t.r8)
  }

  lemma TwoSteps(r: Register) returns (r1: Register, r2: Register)
    ensures Next(r, r1) && Next(r1, r2) && BitSteps(r, 2) == r2
  {
    r1 := BitStep(r);
    r2 := BitStep(r1);
    BitStepIs(r);
    BitStepIs(r1);
    assert BitSteps(r1, 1) == BitSteps(r2, 0);
  }

  lemma {:induction false} StepsAdd(r: Register, m: nat, n: nat)
    ensures BitSteps(r, m + n) == BitSteps(BitSteps(r, m), n)
    decreases m
  {
    if m > 0 {
      StepsAdd(BitStep(r), m - 1, n);
    }
  }

  lemma EightSteps(m: Register) returns (t: Trace)
    ensures t.m == m && Traced(t) && BitSteps(m, 8) == t.r8
  {
    var r1, r2 := TwoSteps(m);
    var r3, r4 := TwoSteps(r2);
    var r5, r6 := TwoSteps(r4);
    var r7, r8 := TwoSteps(r6);
    StepsAdd(m, 2, 2);
    StepsAdd(r4, 2, 2);
    StepsAdd(m, 4, 4);
    t := Trace(m, r1, r2, r3, r4, r5, r6, r7, r8);
  }

  function One(b: bool): nat {
    if b then 1 else 0
  }

  lemma OneBit(n: nat, b: bool, width: nat)
    ensures BitsOf(2 * n + One(b), width + 1) == BitsOf(n, width) + [b]
  {
    assert (2 * n + One(b)) / 2 == n && (2 * n + One(b)) % 2 == One(b);
  }

  lemma TwoBits(n: nat, a: bool, b: bool, width: nat)
    ensures BitsOf(4 * n + 2 * One(a) + One(b), width + 2) == BitsOf(n, width) + [a, b]
  {
    OneBit(n, a, width);
    OneBit(2 * n + One(a), b, width + 1);
  }

  lemma NibbleBits(n: nat, a: bool, b: bool, c: bool, d: bool, width: nat)
    ensures BitsOf(16 * n + 8 * One(a) + 4 * One(b) + 2 * One(c) + One(d), width + 4) == BitsOf(n, width) + [a, b, c, d]
  {
    TwoBits(n, a, b, width);
    TwoBits(4 * n + 2 * One(a) + One(b), c, d, width + 2);
  }

  lemma DigitPrefix()
    ensures BitsOf(3, 4) == [F, F, T, T]
  {
    OneBit(0, F, 0);
    OneBit(0, F, 1);
    OneBit(0, T, 2);
    OneBit(1, T, 3);
  }

  /** The digit with the bits `a`, `b`, `c`, `d`. */
  function Digit(a: bool, b: bool, c: bool, d: bool): Byte {
    48 + 8 * One(a) + 4 * One(b) + 2 * One(c) + One(d)
  }

  lemma DigitBits(a: bool, b: bool, c: bool, d: bool)
    ensures BitsOf(Digit(a, b, c, d), 8) == [F, F, T, T, a, b, c, d]
  {
    DigitPrefix();
    NibbleBits(3, a, b, c, d, 4);
  }

  /** The digit mixed into `r`, bit by bit. */
  ghost predicate Mixed(r: Register, a: bool, b: bool, c: bool, d: bool, m: Register)
  {
    && m[0] == r[0] && m[1] == r[1] && m[2] == !r[2] && m[3] == !r[3]
    && m[4] == (r[4] != a) && m[5] == (r[5] != b) && m[6] == (r[6] != c) && m[7] == (r[7] != d)
    && m[8] == r[8] && m[9] == r[9] && m[10] == r[10] && m[11] == r[11]
    && m[12] == r[12] && m[13] == r[13] && m[14] == r[14] && m[15] == r[15]
  }

  lemma MixIs(r: Register, a: bool, b: bool, c: bool, d: bool)
    ensures Mixed(r, a, b, c, d, MixIn(r, [F, F, T, T, a, b, c, d]))
  {
  }

  /** One byte that is a digit. */
  lemma DigitRun(r: Register, a: bool, b: bool, c: bool, d: bool, data: seq<Byte>) returns (t: Trace)
    requires data != [] && data[0] == Digit(a, b, c, d)
    ensures Mixed(r, a, b, c, d, t.m) && Traced(t) && Run(r, data) == Run(t.r8, data[1..])
  {
    DigitBits(a, b, c, d);
    MixIs(r, a, b, c, d);
    t := EightSteps(MixIn(r, [F, F, T, T, a, b, c, d]));
  }

  const DIGITS: seq<Byte> := [49, 50, 51, 52, 53, 54, 55, 56, 57]

  const R0: Register := [T, T, T, T, T, T, T, T, T, T, T, T, T, T, T, T]
  const R1: Register := [T, T, F, F, F, T, T, T, T, F, F, F, F, F, T, F]
  const R2: Register := [F, F, T, T, T, T, F, T, T, F, T, T, T, F, T, F]
  const R3: Register := [F, T, F, T, T, F, T, T, T, T, F, F, T, T, T, F]
  const R4: Register := [F, T, F, T, F, F, T, T, F, T, F, F, T, F, F, T]
  const R5: Register := [F, T, F, F, F, T, F, T, F, T, T, F, F, F, F, F]
  const R6: Register := [F, F, T, F, T, T, T, F, T, T, T, T, F, T, F, F]
  const R7: Register := [F, T, T, T, F, T, T, T, F, F, F, T, T, F, F, F]
  const R8: Register := [T, F, T, F, F, F, F, T, F, F, T, F, T, F, T, T]
  const R9: Register := [F, F, T, F, T, F, F, T, T, F, T, T, F, F, F, T]

  lemma Settle1(t: Trace)
    requires Mixed(R0, F, F, F, T, t.m) && Traced(t)
    ensures t.r8 == R1
  {
  }

  lemma Settle2(t: Trace)
    requires Mixed(R1, F, F, T, F, t.m) && Traced(t)
    ensures t.r8 == R2
  {
  }

  lemma Settle3(t: Trace)
    requires Mixed(R2, F, F, T, T, t.m) && Traced(t)
    ensures t.r8 == R3
  {
  }

  lemma Settle4(t: Trace)
    requires Mixed(R3, F, T, F, F, t.m) && Traced(t)
    ensures t.r8 == R4
  {
  }

  lemma Settle5(t: Trace)
    requires Mixed(R4, F, T, F, T, t.m) && Traced(t)
    ensures t.r8 == R5
  {
  }

  lemma Settle6(t: Trace)
    requires Mixed(R5, F, T, T, F, t.m) && Traced(t)
    ensures t.r8 == R6
  {
  }

  lemma Settle7(t: Trace)
    requires Mixed(R6, F, T, T, T, t.m) && Traced(t)
    ensures t.r8 == R7
  {
  }

  lemma Settle8(t: Trace)
    requires Mixed(R7, T, F, F, F, t.m) && Traced(t)
    ensures t.r8 == R8
  {
  }

  lemma Settle9(t: Trace)
    requires Mixed(R8, T, F, F, T, t.m) && Traced(t)
    ensures t.r8 == R9
  {
  }

  lemma Digits1To3()
    ensures Run(R0, DIGITS[0..]) == Run(R3, DIGITS[3..])
  {
    assert DIGITS[0..][1..] == DIGITS[1..] && DIGITS[1..][1..] == DIGITS[2..] && DIGITS[2..][1..] == DIGITS[3..];
    var t1 := DigitRun(R0, F, F, F, T, DIGITS[0..]);
    Settle1(t1);
    var t2 := DigitRun(R1, F, F, T, F, DIGITS[1..]);
    Settle2(t2);
    var t3 := DigitRun(R2, F, F, T, T, DIGITS[2..]);
    Settle3(t3);
  }

  lemma Digits4To6()
    ensures Run(R3, DIGITS[3..]) == Run(R6, DIGITS[6..])
  {
    assert DIGITS[3..][1..] == DIGITS[4..] && DIGITS[4..][1..] == DIGITS[5..] && DIGITS[5..][1..] == DIGITS[6..];
    var t4 := DigitRun(R3, F, T, F, F, DIGITS[3..]);
    Settle4(t4);
    var t5 := DigitRun(R4, F, T, F, T, DIGITS[4..]);
    Settle5(t5);
    var t6 := DigitRun(R5, F, T, T, F, DIGITS[5..]);
    Settle6(t6);
  }

  lemma Digits7To9()
    ensures Run(R6, DIGITS[6..]) == Run(R9, DIGITS[9..])
  {
    assert DIGITS[6..][1..] == DIGITS[7..] && DIGITS[7..][1..] == DIGITS[8..] && DIGITS[8..][1..] == DIGITS[9..];
    var t7 := DigitRun(R6, F, T, T, T, DIGITS[6..]);
    Settle7(t7);
    var t8 := DigitRun(R7, T, F, F, F, DIGITS[7..]);
    Settle8(t8);
    var t9 := DigitRun(R8, T, F, F, T, DIGITS[8..]);
    Settle9(t9);
  }

  lemma FourBits(a: bool, b: bool, c: bool, d: bool)
    ensures Value([a, b, c, d]) == 8 * One(a) + 4 * One(b) + 2 * One(c) + One(d)
  {
    assert [a, b, c, d][..3] == [a, b, c] && [a, b, c][..2] == [a, b] && [a, b][..1] == [a] && [a][..0] == [];
    assert Value([a]) == One(a);
    assert Value([a, b]) == 2 * One(a) + One(b);
    assert Value([a, b, c]) == 4 * One(a) + 2 * One(b) + One(c);
  }

  lemma Printed()
    ensures Hex4(R9) == "29B1"
  {
    assert R9[..4] == [F, F, T, F] && R9[4..8] == [T, F, F, T] && R9[8..12] == [T, F, T, T] && R9[12..] == [F, F, F, T];
    assert HexDigit(R9[..4]) == '2' by {
      FourBits(F, F, T, F);
    }
    assert HexDigit(R9[4..8]) == '9' by {
      FourBits(T, F, F, T);
    }
    assert HexDigit(R9[8..12]) == 'B' by {
      FourBits(T, F, T, T);
    }
    assert HexDigit(R9[12..]) == '1' by {
      FourBits(F, F, F, T);
    }
  }

  lemma CheckValue()
    ensures Checksum(DIGITS) == "29B1"
  {
    assert PRESET == R0 && DIGITS[0..] == DIGITS && DIGITS[9..] == [];
    Digits1To3();
    Digits4To6();
    Digits7To9();
    Printed();
  }
}
