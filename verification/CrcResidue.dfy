/**
 * The residue of both checksums: a buffer followed by the four bytes of its own checksum, low byte first,
 * always leaves the same word in the register, whatever the buffer and the value it continues.
 */
module CrcResidue {
  import opened Crc
  import CrcReflected

  const ONES: Reg := seq(32, _ => true)

  /** The four bytes of a checksum, low byte first. */
  function BytesOf(w: Reg): seq<Byte> { [Part(w, 0), Part(w, 1), Part(w, 2), Part(w, 3)] }

  lemma Complements(c: Reg)
    ensures Xor(c, Word(Part(Not(c), 0), Part(Not(c), 1), Part(Not(c), 2), Part(Not(c), 3))) == ONES
  {
    assert Word(Part(Not(c), 0), Part(Not(c), 1), Part(Not(c), 2), Part(Not(c), 3)) == Not(c);
  }

  lemma FoldFour(p: Reg, c: Reg, data: seq<Byte>)
    requires |data| == 4
    ensures Fold(p, c, data, 1) == Shift(p, Xor(c, Low(data[0])))
    ensures Fold(p, c, data, 2) == Shift(p, Xor(Fold(p, c, data, 1), Low(data[1])))
    ensures Fold(p, c, data, 3) == Shift(p, Xor(Fold(p, c, data, 2), Low(data[2])))
    ensures Fold(p, c, data, 4) == Shift(p, Xor(Fold(p, c, data, 3), Low(data[3])))
  {
  }

  lemma FourFolded(p: Reg, c: Reg, w: Reg)
    ensures Fold(p, c, BytesOf(w), 4) == Shifts(p, Xor(c, Word(Part(w, 0), Part(w, 1), Part(w, 2), Part(w, 3))), 4)
  {
    FoldFour(p, c, BytesOf(w));
    FourBytes(p, c, Part(w, 0), Part(w, 1), Part(w, 2), Part(w, 3));
  }

  /** For any generator: the register after the buffer and its checksum is that of 32 ones shifted out. */
  lemma ResidueOf(p: Reg, data: seq<Byte>, previous: Reg)
    ensures var checked := data + BytesOf(Checksum(p, data, previous));
            Fold(p, Not(previous), checked, |checked|) == Shifts(p, ONES, 4)
  {
    var c := Fold(p, Not(previous), data, |data|);
    FoldSplit(p, Not(previous), data, BytesOf(Not(c)), 4);
    FourFolded(p, c, Not(c));
    Complements(c);
  }

  // ----- the word itself, for both generators -----

  /** A hexadecimal digit, high bit first. */
  datatype Digit = N(b3: bool, b2: bool, b1: bool, b0: bool)

  const X0 := N(false, false, false, false)
  const X1 := N(false, false, false, true)
  const X2 := N(false, false, true, false)
  const X3 := N(false, false, true, true)
  const X4 := N(false, true, false, false)
  const X5 := N(false, true, false, true)
  const X6 := N(false, true, true, false)
  const X7 := N(false, true, true, true)
  const X8 := N(true, false, false, false)
  const X9 := N(true, false, false, true)
  const XA := N(true, false, true, false)
  const XB := N(true, false, true, true)
  const XC := N(true, true, false, false)
  const XD := N(true, true, false, true)
  const XE := N(true, true, true, false)
  const XF := N(true, true, true, true)

  /** A register as eight digits, most significant first. */
  datatype Digits = Digits(d7: Digit, d6: Digit, d5: Digit, d4: Digit, d3: Digit, d2: Digit, d1: Digit, d0: Digit)

  predicate DigitBit(d: Digit, j: nat) { if j == 0 then d.b0 else if j == 1 then d.b1 else if j == 2 then d.b2 else d.b3 }

  function DigitAt(x: Digits, i: nat): Digit {
    if i == 0 then x.d0 else if i == 1 then x.d1 else if i == 2 then x.d2 else if i == 3 then x.d3
    else if i == 4 then x.d4 else if i == 5 then x.d5 else if i == 6 then x.d6 else x.d7
  }

  /** The register with these digits. */
  function Register(x: Digits): (r: Reg)
    ensures forall k :: 0 <= k < 32 ==> r[k] == DigitBit(DigitAt(x, k / 4), k % 4)
  {
    seq(32, k requires 0 <= k < 32 => DigitBit(DigitAt(x, k / 4), k % 4))
  }

  /** One digit shifted down by a bit, with the low bit of the digit above, plus a digit of the generator. */
  function NextDigit(d: Digit, above: Digit, p: Digit): Digit { N(above.b0 != p.b3, d.b3 != p.b2, d.b2 != p.b1, d.b1 != p.b0) }

  function NextDigits(p: Digits, c: Digits): Digits {
    var q := if c.d0.b0 then p else Digits(X0, X0, X0, X0, X0, X0, X0, X0);
    Digits(NextDigit(c.d7, X0, q.d7), NextDigit(c.d6, c.d7, q.d6), NextDigit(c.d5, c.d6, q.d5), NextDigit(c.d4, c.d5, q.d4),
           NextDigit(c.d3, c.d4, q.d3), NextDigit(c.d2, c.d3, q.d2), NextDigit(c.d1, c.d2, q.d1), NextDigit(c.d0, c.d1, q.d0))
  }

  lemma NextAt(p: Digits, c: Digits, i: nat)
    requires i < 8
    ensures DigitAt(NextDigits(p, c), i)
         == NextDigit(DigitAt(c, i), if i == 7 then X0 else DigitAt(c, i + 1), if c.d0.b0 then DigitAt(p, i) else X0)
  {
  }

  /** A step of the recurrence, digit by digit. */
  lemma StepDigits(p: Digits, c: Digits, d: Digits)
    requires d == NextDigits(p, c)
    ensures Step(Register(p), Register(c)) == Register(d)
  {
    forall k | 0 <= k < 32
      ensures Step(Register(p), Register(c))[k] == Register(d)[k]
    {
      StepDigit(p, c, k / 4, k % 4, k);
    }
  }

  lemma StepDigit(p: Digits, c: Digits, i: nat, j: nat, k: nat)
    requires i < 8 && j < 4 && k == 4 * i + j
    ensures Step(Register(p), Register(c))[k] == DigitBit(DigitAt(NextDigits(p, c), i), j)
  {
    NextAt(p, c, i);
    BitPlace(i, j, k);
  }

  lemma BitPlace(i: nat, j: nat, k: nat)
    requires i < 8 && j < 4 && k == 4 * i + j
    ensures k / 4 == i && k % 4 == j
    ensures k < 31 ==> (k + 1) / 4 == (if j < 3 then i else i + 1) && (k + 1) % 4 == (if j < 3 then j + 1 else 0)
  {
  }

  /** Eight steps, given what each leaves. */
  lemma ShiftDigits(p: Digits, c: Digits, c1: Digits, c2: Digits, c3: Digits, c4: Digits, c5: Digits, c6: Digits, c7: Digits, c8: Digits)
    requires c1 == NextDigits(p, c) && c2 == NextDigits(p, c1) && c3 == NextDigits(p, c2) && c4 == NextDigits(p, c3)
    requires c5 == NextDigits(p, c4) && c6 == NextDigits(p, c5) && c7 == NextDigits(p, c6) && c8 == NextDigits(p, c7)
    ensures Shift(Register(p), Register(c)) == Register(c8)
  {
    var q, r := Register(p), Register(c);
    StepDigits(p, c, c1);
    StepDigits(p, c1, c2);
    StepDigits(p, c2, c3);
    StepDigits(p, c3, c4);
    StepDigits(p, c4, c5);
    StepDigits(p, c5, c6);
    StepDigits(p, c6, c7);
    StepDigits(p, c7, c8);
    EightSteps(q, r);
  }

  lemma EightSteps(p: Reg, c: Reg)
    ensures Shift(p, c) == Step(p, Step(p, Step(p, Step(p, Step(p, Step(p, Step(p, Step(p, c))))))))
  {
    assert Steps(p, c, 1) == Step(p, c);
    assert Steps(p, c, 2) == Step(p, Steps(p, c, 1));
    assert Steps(p, c, 3) == Step(p, Steps(p, c, 2));
    assert Steps(p, c, 4) == Step(p, Steps(p, c, 3));
    assert Steps(p, c, 5) == Step(p, Steps(p, c, 4));
    assert Steps(p, c, 6) == Step(p, Steps(p, c, 5));
    assert Steps(p, c, 7) == Step(p, Steps(p, c, 6));
    assert Steps(p, c, 8) == Step(p, Steps(p, c, 7));
  }

  lemma ShiftedFour(p: Reg, c: Reg)
    ensures Shifts(p, c, 4) == Shift(p, Shift(p, Shift(p, Shift(p, c))))
  {
    assert Shifts(p, c, 1) == Shift(p, c);
    assert Shifts(p, c, 2) == Shift(p, Shifts(p, c, 1));
    assert Shifts(p, c, 3) == Shift(p, Shifts(p, c, 2));
    assert Shifts(p, c, 4) == Shift(p, Shifts(p, c, 3));
  }

  lemma RfcByte0()
    ensures Shift(Register(Digits(XE, XD, XB, X8, X8, X3, X2, X0)), Register(Digits(XF, XF, XF, XF, XF, XF, XF, XF))) == Register(Digits(X2, XD, XF, XD, X1, X0, X7, X2))
  {
    ShiftDigits(Digits(XE, XD, XB, X8, X8, X3, X2, X0),
                Digits(XF, XF, XF, XF, XF, XF, XF, XF),
                Digits(X9, X2, X4, X7, X7, XC, XD, XF),
                Digits(XA, X4, X9, XB, X3, XD, X4, XF),
                Digits(XB, XF, XF, X5, X1, XD, X8, X7),
                Digits(XB, X2, X4, X2, X0, XD, XE, X3),
                Digits(XB, X4, X9, X9, X8, X5, XD, X1),
                Digits(XB, X7, XF, X4, X4, X1, XC, X8),
                Digits(X5, XB, XF, XA, X2, X0, XE, X4),
                Digits(X2, XD, XF, XD, X1, X0, X7, X2));
  }

  lemma RfcByte1()
    ensures Shift(Register(Digits(XE, XD, XB, X8, X8, X3, X2, X0)), Register(Digits(X2, XD, XF, XD, X1, X0, X7, X2))) == Register(Digits(XB, XE, X2, X6, XE, XD, X0, X0))
  {
    ShiftDigits(Digits(XE, XD, XB, X8, X8, X3, X2, X0),
                Digits(X2, XD, XF, XD, X1, X0, X7, X2),
                Digits(X1, X6, XF, XE, X8, X8, X3, X9),
                Digits(XE, X6, XC, X7, XC, X7, X3, XC),
                Digits(X7, X3, X6, X3, XE, X3, X9, XE),
                Digits(X3, X9, XB, X1, XF, X1, XC, XF),
                Digits(XF, X1, X6, X0, X7, XB, XC, X7),
                Digits(X9, X5, X0, X8, XB, XE, XC, X3),
                Digits(XA, X7, X3, XC, XD, XC, X4, X1),
                Digits(XB, XE, X2, X6, XE, XD, X0, X0));
  }

  lemma RfcByte2()
    ensures Shift(Register(Digits(XE, XD, XB, X8, X8, X3, X2, X0)), Register(Digits(XB, XE, X2, X6, XE, XD, X0, X0))) == Register(Digits(X0, X0, XB, XE, X2, X6, XE, XD))
  {
    ShiftDigits(Digits(XE, XD, XB, X8, X8, X3, X2, X0),
                Digits(XB, XE, X2, X6, XE, XD, X0, X0),
                Digits(X5, XF, X1, X3, X7, X6, X8, X0),
                Digits(X2, XF, X8, X9, XB, XB, X4, X0),
                Digits(X1, X7, XC, X4, XD, XD, XA, X0),
                Digits(X0, XB, XE, X2, X6, XE, XD, X0),
                Digits(X0, X5, XF, X1, X3, X7, X6, X8),
                Digits(X0, X2, XF, X8, X9, XB, XB, X4),
                Digits(X0, X1, X7, XC, X4, XD, XD, XA),
                Digits(X0, X0, XB, XE, X2, X6, XE, XD));
  }

  lemma RfcByte3()
    ensures Shift(Register(Digits(XE, XD, XB, X8, X8, X3, X2, X0)), Register(Digits(X0, X0, XB, XE, X2, X6, XE, XD))) == Register(Digits(XD, XE, XB, XB, X2, X0, XE, X3))
  {
    ShiftDigits(Digits(XE, XD, XB, X8, X8, X3, X2, X0),
                Digits(X0, X0, XB, XE, X2, X6, XE, XD),
                Digits(XE, XD, XE, X7, X9, X0, X5, X6),
                Digits(X7, X6, XF, X3, XC, X8, X2, XB),
                Digits(XD, X6, XC, X1, X6, X7, X3, X5),
                Digits(X8, X6, XD, X8, X3, X0, XB, XA),
                Digits(X4, X3, X6, XC, X1, X8, X5, XD),
                Digits(XC, XC, X0, XE, X8, XF, X0, XE),
                Digits(X6, X6, X0, X7, X4, X7, X8, X7),
                Digits(XD, XE, XB, XB, X2, X0, XE, X3));
  }

  /** Any buffer followed by its checksum leaves 0xDEBB20E3. */
  lemma RfcResidue(data: seq<Byte>, previous: Reg)
    ensures var p := Register(Digits(XE, XD, XB, X8, X8, X3, X2, X0));
            var checked := data + BytesOf(Checksum(p, data, previous));
            Fold(p, Not(previous), checked, |checked|) == Register(Digits(XD, XE, XB, XB, X2, X0, XE, X3))
  {
    ResidueOf(Register(Digits(XE, XD, XB, X8, X8, X3, X2, X0)), data, previous);
    AllOnes();
    ShiftedFour(Register(Digits(XE, XD, XB, X8, X8, X3, X2, X0)), ONES);
    RfcByte0();
    RfcByte1();
    RfcByte2();
    RfcByte3();
  }

  lemma SlicedByte0()
    ensures Shift(Register(Digits(X0, X4, XC, X1, X1, XD, XB, X7)), Register(Digits(XF, XF, XF, XF, XF, XF, XF, XF))) == Register(Digits(X0, X5, X9, XF, X0, X4, XA, X8))
  {
    ShiftDigits(Digits(X0, X4, XC, X1, X1, XD, XB, X7),
                Digits(XF, XF, XF, XF, XF, XF, XF, XF),
                Digits(X7, XB, X3, XE, XE, X2, X4, X8),
                Digits(X3, XD, X9, XF, X7, X1, X2, X4),
                Digits(X1, XE, XC, XF, XB, X8, X9, X2),
                Digits(X0, XF, X6, X7, XD, XC, X4, X9),
                Digits(X0, X3, X7, X2, XF, X3, X9, X3),
                Digits(X0, X5, X7, X8, X6, X4, X7, XE),
                Digits(X0, X2, XB, XC, X3, X2, X3, XF),
                Digits(X0, X5, X9, XF, X0, X4, XA, X8));
  }

  lemma SlicedByte1()
    ensures Shift(Register(Digits(X0, X4, XC, X1, X1, XD, XB, X7)), Register(Digits(X0, X5, X9, XF, X0, X4, XA, X8))) == Register(Digits(X0, X3, X8, X1, X6, X4, XD, XF))
  {
    ShiftDigits(Digits(X0, X4, XC, X1, X1, XD, XB, X7),
                Digits(X0, X5, X9, XF, X0, X4, XA, X8),
                Digits(X0, X2, XC, XF, X8, X2, X5, X4),
                Digits(X0, X1, X6, X7, XC, X1, X2, XA),
                Digits(X0, X0, XB, X3, XE, X0, X9, X5),
                Digits(X0, X4, X9, X8, XE, XD, XF, XD),
                Digits(X0, X6, X8, XD, X6, XB, X4, X9),
                Digits(X0, X7, X8, X7, XA, X8, X1, X3),
                Digits(X0, X7, X0, X2, XC, X9, XB, XE),
                Digits(X0, X3, X8, X1, X6, X4, XD, XF));
  }

  lemma SlicedByte2()
    ensures Shift(Register(Digits(X0, X4, XC, X1, X1, XD, XB, X7)), Register(Digits(X0, X3, X8, X1, X6, X4, XD, XF))) == Register(Digits(X0, X6, X3, X3, XB, X3, X8, X5))
  {
    ShiftDigits(Digits(X0, X4, XC, X1, X1, XD, XB, X7),
                Digits(X0, X3, X8, X1, X6, X4, XD, XF),
                Digits(X0, X5, X0, X1, XA, XF, XD, X8),
                Digits(X0, X2, X8, X0, XD, X7, XE, XC),
                Digits(X0, X1, X4, X0, X6, XB, XF, X6),
                Digits(X0, X0, XA, X0, X3, X5, XF, XB),
                Digits(X0, X4, X9, X1, X0, X7, X4, XA),
                Digits(X0, X2, X4, X8, X8, X3, XA, X5),
                Digits(X0, X5, XE, X5, X5, XC, X6, X5),
                Digits(X0, X6, X3, X3, XB, X3, X8, X5));
  }

  lemma SlicedByte3()
    ensures Shift(Register(Digits(X0, X4, XC, X1, X1, XD, XB, X7)), Register(Digits(X0, X6, X3, X3, XB, X3, X8, X5))) == Register(Digits(X0, X0, XE, XE, X8, XF, X7, XE))
  {
    ShiftDigits(Digits(X0, X4, XC, X1, X1, XD, XB, X7),
                Digits(X0, X6, X3, X3, XB, X3, X8, X5),
                Digits(X0, X7, XD, X8, XC, X4, X7, X5),
                Digits(X0, X7, X2, XD, X7, XF, X8, XD),
                Digits(X0, X7, X5, X7, XA, X2, X7, X1),
                Digits(X0, X7, X6, XA, XC, XC, X8, XF),
                Digits(X0, X7, X7, X4, X7, XB, XF, X0),
                Digits(X0, X3, XB, XA, X3, XD, XF, X8),
                Digits(X0, X1, XD, XD, X1, XE, XF, XC),
                Digits(X0, X0, XE, XE, X8, XF, X7, XE));
  }

  /** Any buffer followed by its checksum leaves 0x00EE8F7E. */
  lemma SlicedResidue(data: seq<Byte>, previous: Reg)
    ensures var p := Register(Digits(X0, X4, XC, X1, X1, XD, XB, X7));
            var checked := data + BytesOf(Checksum(p, data, previous));
            Fold(p, Not(previous), checked, |checked|) == Register(Digits(X0, X0, XE, XE, X8, XF, X7, XE))
  {
    ResidueOf(Register(Digits(X0, X4, XC, X1, X1, XD, XB, X7)), data, previous);
    AllOnes();
    ShiftedFour(Register(Digits(X0, X4, XC, X1, X1, XD, XB, X7)), ONES);
    SlicedByte0();
    SlicedByte1();
    SlicedByte2();
    SlicedByte3();
  }

  lemma AllOnes()
    ensures ONES == Register(Digits(XF, XF, XF, XF, XF, XF, XF, XF))
  {
  }

  /** The first of the two is the generator of the reflected table. */
  lemma RfcGenerator()
    ensures Register(Digits(XE, XD, XB, X8, X8, X3, X2, X0)) == CrcReflected.RFC_GENERATOR
  {
  }
}
