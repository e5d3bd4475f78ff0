/**
 * Checksum registers as rows of 32 bits, least significant first. XOR is bit by bit, a right shift
 * drops bits at the front, and the bytes of a word are its parts of eight.
 */
module Crc {

  type Reg = s: seq<bool> | |s| == 32 witness seq(32, _ => false)
  type Byte = s: seq<bool> | |s| == 8 witness seq(8, _ => false)

  function Zeros(n: nat): (r: seq<bool>)
    ensures |r| == n && forall k :: 0 <= k < n ==> !r[k]
  {
    seq(n, _ => false)
  }

  function Xor(a: Reg, b: Reg): (r: Reg)
    ensures forall k :: 0 <= k < 32 ==> r[k] == (a[k] != b[k])
  {
    seq(32, k requires 0 <= k < 32 => a[k] != b[k])
  }

  function Not(a: Reg): (r: Reg)
    ensures forall k :: 0 <= k < 32 ==> r[k] == !a[k]
  {
    seq(32, k requires 0 <= k < 32 => !a[k])
  }

  /** A byte in the low end of a register. */
  function Low(b: Byte): Reg { b + Zeros(24) }

  /** c >> 8 */
  function Down(c: Reg): Reg { c[8..] + Zeros(8) }

  lemma XorAssoc(a: Reg, b: Reg, c: Reg)
    ensures Xor(Xor(a, b), c) == Xor(a, Xor(b, c))
  {
  }

  lemma XorComm(a: Reg, b: Reg)
    ensures Xor(a, b) == Xor(b, a)
  {
  }

  // ----- one bit -----

  /** Shift one bit out; the generator is added when the bit was set. */
  function Step(p: Reg, c: Reg): (r: Reg)
    ensures forall k :: 0 <= k < 32 ==> r[k] == ((k < 31 && c[k + 1]) != (c[0] && p[k]))
  {
    seq(32, k requires 0 <= k < 32 => (k < 31 && c[k + 1]) != (c[0] && p[k]))
  }

  function Steps(p: Reg, c: Reg, n: nat): Reg { if n == 0 then c else Step(p, Steps(p, c, n - 1)) }

  lemma StepLinear(p: Reg, a: Reg, b: Reg)
    ensures Step(p, Xor(a, b)) == Xor(Step(p, a), Step(p, b))
  {
  }

  lemma {:induction false} StepsLinear(p: Reg, a: Reg, b: Reg, n: nat)
    ensures Steps(p, Xor(a, b), n) == Xor(Steps(p, a, n), Steps(p, b, n))
  {
    if n > 0 {
      StepsLinear(p, a, b, n - 1);
      StepLinear(p, Steps(p, a, n - 1), Steps(p, b, n - 1));
    }
  }

  /** Clear bits are just shifted out. */
  lemma {:induction false} StepsMove(p: Reg, c: Reg, n: nat)
    requires n <= 32 && forall k :: 0 <= k < n ==> !c[k]
    ensures Steps(p, c, n) == c[n..] + Zeros(n)
  {
    if n > 0 {
      StepsMove(p, c, n - 1);
    } else {
      assert c[0..] + Zeros(0) == c;
    }
  }

  // ----- one byte -----

  /** Eight bits. */
  function Shift(p: Reg, c: Reg): Reg { Steps(p, c, 8) }

  function Shifts(p: Reg, c: Reg, n: nat): Reg { if n == 0 then c else Shift(p, Shifts(p, c, n - 1)) }

  lemma {:induction false} ShiftsLinear(p: Reg, a: Reg, b: Reg, n: nat)
    ensures Shifts(p, Xor(a, b), n) == Xor(Shifts(p, a, n), Shifts(p, b, n))
  {
    if n > 0 {
      ShiftsLinear(p, a, b, n - 1);
      StepsLinear(p, Shifts(p, a, n - 1), Shifts(p, b, n - 1), 8);
    }
  }

  lemma {:induction false} ShiftsAdd(p: Reg, c: Reg, m: nat, n: nat)
    ensures Shifts(p, c, m + n) == Shifts(p, Shifts(p, c, n), m)
  {
    if m > 0 {
      ShiftsAdd(p, c, m - 1, n);
    }
  }

  /** The recurrence behind every lookup: the upper bytes move down, the low byte selects a table entry. */
  lemma LookupLaw(p: Reg, c: Reg)
    ensures Shift(p, c) == Xor(Down(c), Shift(p, Low(c[..8])))
  {
    var high: Reg := Zeros(8) + c[8..];
    assert Xor(high, Low(c[..8])) == c;
    StepsLinear(p, high, Low(c[..8]), 8);
    StepsMove(p, high, 8);
    assert high[8..] == c[8..];
  }

  // ----- the reference checksum -----

  /** The register after the first n bytes, each added to the low end and shifted out bit by bit. */
  function Fold(p: Reg, c: Reg, data: seq<Byte>, n: nat): Reg
    requires n <= |data|
  {
    if n == 0 then c else Shift(p, Xor(Fold(p, c, data, n - 1), Low(data[n - 1])))
  }

  /** The checksum that continues `previous` over the data. */
  function Checksum(p: Reg, data: seq<Byte>, previous: Reg): Reg { Not(Fold(p, Not(previous), data, |data|)) }

  lemma {:induction false} FoldSplit(p: Reg, c: Reg, a: seq<Byte>, b: seq<Byte>, n: nat)
    requires n <= |b|
    ensures Fold(p, c, a + b, |a| + n) == Fold(p, Fold(p, c, a, |a|), b, n)
  {
    if n == 0 {
      FoldPrefix(p, c, a, b, |a|);
    } else {
      FoldSplit(p, c, a, b, n - 1);
      assert (a + b)[|a| + n - 1] == b[n - 1];
    }
  }

  lemma {:induction false} FoldPrefix(p: Reg, c: Reg, a: seq<Byte>, b: seq<Byte>, n: nat)
    requires n <= |a|
    ensures Fold(p, c, a + b, n) == Fold(p, c, a, n)
  {
    if n > 0 {
      FoldPrefix(p, c, a, b, n - 1);
    }
  }

  /** Checksums chain over concatenation. */
  lemma ChecksumChains(p: Reg, a: seq<Byte>, b: seq<Byte>, previous: Reg)
    ensures Checksum(p, a + b, previous) == Checksum(p, b, Checksum(p, a, previous))
  {
    FoldSplit(p, Not(previous), a, b, |b|);
    assert Not(Not(Fold(p, Not(previous), a, |a|))) == Fold(p, Not(previous), a, |a|);
  }

  // ----- four bytes at once -----

  /** A word as a little-endian machine loads it. */
  function Word(b0: Byte, b1: Byte, b2: Byte, b3: Byte): Reg { b0 + b1 + b2 + b3 }

  function Part(w: Reg, i: nat): Byte
    requires i < 4
  {
    w[8 * i..8 * i + 8]
  }

  /** Adding a byte after k shifts is adding it k places up before them. */
  lemma {:induction false} AddBefore(p: Reg, c: Reg, b: Byte, k: nat)
    requires k <= 3
    ensures Xor(Shifts(p, c, k), Low(b)) == Shifts(p, Xor(c, Zeros(8 * k) + b + Zeros(24 - 8 * k)), k)
  {
    var up: Reg := Zeros(8 * k) + b + Zeros(24 - 8 * k);
    ShiftsLinear(p, c, up, k);
    PlaceMoves(p, b, k, k);
    assert Zeros(0) + b + Zeros(24) == Low(b);
  }

  /** Shifting a byte that sits j places up by i places. */
  lemma {:induction false} PlaceMoves(p: Reg, b: Byte, j: nat, i: nat)
    requires i <= j <= 3
    ensures Shifts(p, Zeros(8 * j) + b + Zeros(24 - 8 * j), i) == Zeros(8 * (j - i)) + b + Zeros(24 - 8 * (j - i))
  {
    if i > 0 {
      PlaceMoves(p, b, j, i - 1);
      var c: Reg := Zeros(8 * (j - i + 1)) + b + Zeros(24 - 8 * (j - i + 1));
      StepsMove(p, c, 8);
      assert c[8..] + Zeros(8) == Zeros(8 * (j - i)) + b + Zeros(24 - 8 * (j - i));
    }
  }

  /** Four bytes one after the other are one word added before four shifts. */
  lemma FourBytes(p: Reg, c: Reg, b0: Byte, b1: Byte, b2: Byte, b3: Byte)
    ensures var c1 := Shift(p, Xor(c, Low(b0)));
            var c2 := Shift(p, Xor(c1, Low(b1)));
            var c3 := Shift(p, Xor(c2, Low(b2)));
            Shift(p, Xor(c3, Low(b3))) == Shifts(p, Xor(c, Word(b0, b1, b2, b3)), 4)
  {
    var x0 := Xor(c, Low(b0));
    var x1 := Xor(x0, Zeros(8) + b1 + Zeros(16));
    var x2 := Xor(x1, Zeros(16) + b2 + Zeros(8));
    var x3 := Xor(x2, Zeros(24) + b3 + Zeros(0));
    AddBefore(p, x0, b1, 1);
    AddBefore(p, x1, b2, 2);
    AddBefore(p, x2, b3, 3);
    assert x3 == Xor(c, Word(b0, b1, b2, b3));
    UnfoldShifts(p, x0, x1, x2, x3);
  }

  lemma UnfoldShifts(p: Reg, x0: Reg, x1: Reg, x2: Reg, x3: Reg)
    ensures Shifts(p, x0, 1) == Shift(p, x0) && Shifts(p, x1, 2) == Shift(p, Shifts(p, x1, 1))
    ensures Shifts(p, x2, 3) == Shift(p, Shifts(p, x2, 2)) && Shifts(p, x3, 4) == Shift(p, Shifts(p, x3, 3))
  {
  }

  /** The sliced lookup of a word in tables first, .., first + 3. */
  function Sliced(p: Reg, w: Reg, first: nat): Reg {
    Xor(Xor(Shifts(p, Low(Part(w, 3)), first + 1), Shifts(p, Low(Part(w, 2)), first + 2)),
        Xor(Shifts(p, Low(Part(w, 1)), first + 3), Shifts(p, Low(Part(w, 0)), first + 4)))
  }

  lemma PlaceShifts(p: Reg, b: Byte, j: nat)
    requires j <= 3
    ensures Shifts(p, Zeros(8 * j) + b + Zeros(24 - 8 * j), 4) == Shifts(p, Low(b), 4 - j)
  {
    ShiftsAdd(p, Zeros(8 * j) + b + Zeros(24 - 8 * j), 4 - j, j);
    PlaceMoves(p, b, j, j);
    assert Zeros(0) + b + Zeros(24) == Low(b);
  }

  /** Looking the four parts of a word up in tables 0 to 3 shifts the whole word by four bytes. */
  lemma SliceLaw(p: Reg, w: Reg)
    ensures Sliced(p, w, 0) == Shifts(p, w, 4)
  {
    var y0, y1: Reg := Low(Part(w, 0)), Zeros(8) + Part(w, 1) + Zeros(16);
    var y2: Reg, y3: Reg := Zeros(16) + Part(w, 2) + Zeros(8), Zeros(24) + Part(w, 3) + Zeros(0);
    assert w == Xor(Xor(y3, y2), Xor(y1, y0));
    ShiftsLinear(p, Xor(y3, y2), Xor(y1, y0), 4);
    ShiftsLinear(p, y3, y2, 4);
    ShiftsLinear(p, y1, y0, 4);
    PlaceShifts(p, Part(w, 1), 1);
    PlaceShifts(p, Part(w, 2), 2);
    PlaceShifts(p, Part(w, 3), 3);
  }

  /** The tables four further on shift by four bytes more. */
  lemma SliceFurther(p: Reg, w: Reg, first: nat)
    ensures Sliced(p, w, first + 4) == Shifts(p, Sliced(p, w, first), 4)
  {
    var a, b := Low(Part(w, 3)), Low(Part(w, 2));
    var c, d := Low(Part(w, 1)), Low(Part(w, 0));
    ShiftsAdd(p, a, 4, first + 1);
    ShiftsAdd(p, b, 4, first + 2);
    ShiftsAdd(p, c, 4, first + 3);
    ShiftsAdd(p, d, 4, first + 4);
    var ab := Xor(Shifts(p, a, first + 1), Shifts(p, b, first + 2));
    var cd := Xor(Shifts(p, c, first + 3), Shifts(p, d, first + 4));
    ShiftsLinear(p, ab, cd, 4);
    ShiftsLinear(p, Shifts(p, a, first + 1), Shifts(p, b, first + 2), 4);
    ShiftsLinear(p, Shifts(p, c, first + 3), Shifts(p, d, first + 4), 4);
  }

  lemma FourShifts(p: Reg, a: Reg, b: Reg)
    ensures Shifts(p, Xor(a, b), 4) == Xor(Shifts(p, a, 4), Shifts(p, b, 4))
  {
    ShiftsLinear(p, a, b, 4);
  }

  /** One more word: everything so far is shifted on, and the word joins it. */
  lemma NextWord(p: Reg, c: Reg, w: Reg)
    ensures Shifts(p, Xor(c, w), 4) == Xor(Shifts(p, c, 4), Sliced(p, w, 0))
  {
    FourShifts(p, c, w);
    SliceLaw(p, w);
  }

  /** The register after one more word. */
  function Then(p: Reg, c: Reg, w: Reg): Reg { Shifts(p, Xor(c, w), 4) }

  /** The register after four words. */
  function FourWords(p: Reg, c: Reg, w1: Reg, w2: Reg, w3: Reg, w4: Reg): Reg {
    Then(p, Then(p, Then(p, Then(p, c, w1), w2), w3), w4)
  }

  lemma JoinTwo(p: Reg, c: Reg, w: Reg, a': Reg, d: Reg) returns (c': Reg)
    requires a' == Shifts(p, c, 4) && d == Sliced(p, w, 0)
    ensures c' == Shifts(p, Xor(c, w), 4) && c' == Xor(a', d)
  {
    NextWord(p, c, w);
    c' := Shifts(p, Xor(c, w), 4);
  }

  lemma JoinThree(p: Reg, c: Reg, a: Reg, b: Reg, w: Reg, a': Reg, b': Reg, d: Reg) returns (c': Reg)
    requires c == Xor(a, b) && a' == Shifts(p, a, 4) && b' == Shifts(p, b, 4) && d == Sliced(p, w, 0)
    ensures c' == Shifts(p, Xor(c, w), 4) && c' == Xor(Xor(a', b'), d)
  {
    FourShifts(p, a, b);
    c' := JoinTwo(p, c, w, Xor(a', b'), d);
  }

  lemma JoinFour(p: Reg, c: Reg, a: Reg, b: Reg, e: Reg, w: Reg, a': Reg, b': Reg, e': Reg, d: Reg) returns (c': Reg)
    requires c == Xor(Xor(a, b), e) && a' == Shifts(p, a, 4) && b' == Shifts(p, b, 4) && e' == Shifts(p, e, 4)
    requires d == Sliced(p, w, 0)
    ensures c' == Shifts(p, Xor(c, w), 4) && c' == Xor(Xor(Xor(a', b'), e'), d)
  {
    FourShifts(p, a, b);
    c' := JoinThree(p, c, Xor(a, b), e, w, Xor(a', b'), e', d);
  }

  /** The lookup of one word in four consecutive tables, as a value. */
  lemma SlicedAt(p: Reg, w: Reg, first: nat, next: nat) returns (a: Reg, b: Reg)
    requires next == first + 4
    ensures a == Sliced(p, w, first) && b == Sliced(p, w, next) && b == Shifts(p, a, 4)
  {
    SliceFurther(p, w, first);
    a, b := Sliced(p, w, first), Sliced(p, w, next);
  }

  /** Four words one after the other, against one lookup of each in its own four tables. */
  lemma SixteenLaw(p: Reg, c: Reg, w1: Reg, w2: Reg, w3: Reg, w4: Reg)
    ensures FourWords(p, c, w1, w2, w3, w4)
         == Xor(Xor(Xor(Sliced(p, Xor(c, w1), 12), Sliced(p, w2, 8)), Sliced(p, w3, 4)), Sliced(p, w4, 0))
  {
    var a0, a4 := SlicedAt(p, Xor(c, w1), 0, 4);
    var a4', a8 := SlicedAt(p, Xor(c, w1), 4, 8);
    var a8', a12 := SlicedAt(p, Xor(c, w1), 8, 12);
    var b0, b4 := SlicedAt(p, w2, 0, 4);
    var b4', b8 := SlicedAt(p, w2, 4, 8);
    var d0, d4 := SlicedAt(p, w3, 0, 4);
    var e0, e4 := SlicedAt(p, w4, 0, 4);
    SliceLaw(p, Xor(c, w1));
    SixteenSteps(p, Xor(c, w1), w2, w3, w4, a0, a4, a8, a12, b0, b4, b8, d0, d4, e0);
  }

  lemma SixteenSteps(p: Reg, x: Reg, w2: Reg, w3: Reg, w4: Reg, a0: Reg, a4: Reg, a8: Reg, a12: Reg, b0: Reg, b4: Reg, b8: Reg,
                     d0: Reg, d4: Reg, e0: Reg)
    requires a0 == Shifts(p, x, 4) && a4 == Shifts(p, a0, 4) && a8 == Shifts(p, a4, 4) && a12 == Shifts(p, a8, 4)
    requires b0 == Sliced(p, w2, 0) && b4 == Shifts(p, b0, 4) && b8 == Shifts(p, b4, 4)
    requires d0 == Sliced(p, w3, 0) && d4 == Shifts(p, d0, 4) && e0 == Sliced(p, w4, 0)
    ensures Then(p, Then(p, Then(p, Shifts(p, x, 4), w2), w3), w4) == Xor(Xor(Xor(a12, b8), d4), e0)
  {
    var c2 := JoinTwo(p, a0, w2, a4, b0);
    var c3 := JoinThree(p, c2, a4, b0, w3, a8, b4, d0);
    var c4 := JoinFour(p, c3, a8, b4, d0, w4, a12, b8, d4, e0);
    ThenIs(p, a0, w2, c2);
    ThenIs(p, c2, w3, c3);
    ThenIs(p, c3, w4, c4);
  }

  lemma ThenIs(p: Reg, c: Reg, w: Reg, c': Reg)
    requires c' == Shifts(p, Xor(c, w), 4)
    ensures Then(p, c, w) == c'
  {
  }
}
