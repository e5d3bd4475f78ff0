/**
 * The lookup tables and the table-driven checksum loops: one byte, four bytes and sixteen bytes at a
 * time, on little- and big-endian machines.
 */
module CrcTables {
  import opened Crc
  import Words

  // ----- bytes as table indices -----

  function Index(b: seq<bool>): (n: nat)
    ensures |b| == 8 ==> n < 256
  {
    IndexBound(b);
    Value(b)
  }

  function Value(b: seq<bool>): nat { if b == [] then 0 else (if b[0] then 1 else 0) + 2 * Value(b[1..]) }

  lemma {:induction false} ValueBound(b: seq<bool>)
    ensures Value(b) < Words.Pow2(|b|)
  {
    if b != [] {
      ValueBound(b[1..]);
    }
  }

  lemma IndexBound(b: seq<bool>)
    ensures |b| == 8 ==> Value(b) < 256
  {
    ValueBound(b);
    assert Words.Pow2(4) == 16;
    assert Words.Pow2(8) == 256;
  }

  /** The n low bits of a number. */
  function Bits(x: nat, n: nat): (b: seq<bool>)
    ensures |b| == n
  {
    if n == 0 then [] else [x % 2 == 1] + Bits(x / 2, n - 1)
  }

  lemma {:induction false} BitsOfValue(b: seq<bool>)
    ensures Bits(Value(b), |b|) == b
  {
    if b != [] {
      BitsOfValue(b[1..]);
      assert Value(b) / 2 == Value(b[1..]);
    }
  }

  /** The byte that has a given index is the bits of that index. */
  lemma ByteAt(b: Byte, i: nat)
    requires Index(b) == i
    ensures b == Bits(i, 8)
  {
    BitsOfValue(b);
  }

  // ----- tables -----

  const SLICES: nat := 16

  ghost predicate AreTables(p: Reg, lookup: array2<Reg>)
    reads lookup
  {
    lookup.Length0 == SLICES && lookup.Length1 == 256
    && forall s, b: Byte :: 0 <= s < SLICES ==> lookup[s, Index(b)] == Shifts(p, Low(b), s + 1)
  }

  /** Every row up to s is done, and row s up to column i. */
  ghost predicate Filled(p: Reg, lookup: array2<Reg>, s: nat, i: nat)
    reads lookup
  {
    lookup.Length0 == SLICES && lookup.Length1 == 256
    && forall r, b: Byte :: 0 <= r < SLICES && (r < s || (r == s && Index(b) < i)) ==> lookup[r, Index(b)] == Shifts(p, Low(b), r + 1)
  }

  method EightSteps(p: Reg, start: Reg) returns (crc: Reg)
    ensures crc == Shift(p, start)
  {
    crc := start;
    for j := 0 to 8
      invariant crc == Steps(p, start, j)
    {
      crc := Step(p, crc);
    }
  }

  lemma OneShift(p: Reg, c: Reg)
    ensures Shifts(p, c, 1) == Shift(p, c)
  {
  }

  method FillFirst(p: Reg, lookup: array2<Reg>)
    requires lookup.Length0 == SLICES && lookup.Length1 == 256
    modifies lookup
    ensures Filled(p, lookup, 1, 0)
  {
    for i := 0 to 256
      invariant Filled(p, lookup, 0, i)
    {
      var crc := EightSteps(p, Low(Bits(i, 8)));
      OneShift(p, Low(Bits(i, 8)));
      lookup[0, i] := crc;
      forall b: Byte | Index(b) == i
        ensures lookup[0, Index(b)] == Shifts(p, Low(b), 1)
      {
        ByteAt(b, i);
      }
    }
  }

  /** The next slice of an entry: the entry shifted by one more byte. */
  lemma NextSlice(p: Reg, e: Reg, b: Byte, s: nat)
    requires s > 0 && e == Shifts(p, Low(b), s)
    ensures Xor(Down(e), Shifts(p, Low(e[..8]), 1)) == Shifts(p, Low(b), s + 1)
  {
    LookupLaw(p, e);
    OneShift(p, Low(e[..8]));
  }

  method FillSlice(p: Reg, lookup: array2<Reg>, s: nat)
    requires 1 <= s < SLICES && Filled(p, lookup, s, 0)
    modifies lookup
    ensures Filled(p, lookup, s + 1, 0)
  {
    for i := 0 to 256
      invariant Filled(p, lookup, s, i)
    {
      var e := lookup[s - 1, i];
      var low: Byte := e[..8];
      var entry := Xor(Down(e), lookup[0, Index(low)]);
      EntryIsRight(p, lookup, s, i, e, low, entry);
      lookup[s, i] := entry;
    }
  }

  lemma EntryIsRight(p: Reg, lookup: array2<Reg>, s: nat, i: nat, e: Reg, low: Byte, entry: Reg)
    requires 1 <= s < SLICES && Filled(p, lookup, s, 0) && i < 256 && e == lookup[s - 1, i] && low == e[..8]
    requires entry == Xor(Down(e), lookup[0, Index(low)])
    ensures forall b: Byte :: Index(b) == i ==> entry == Shifts(p, Low(b), s + 1)
  {
    assert lookup[0, Index(low)] == Shifts(p, Low(low), 1);
    forall b: Byte | Index(b) == i
      ensures entry == Shifts(p, Low(b), s + 1)
    {
      assert lookup[s - 1, Index(b)] == Shifts(p, Low(b), s);
      NextSlice(p, e, b, s);
    }
  }

  /** CRC_BuildTable with all its slices */
  method BuildTables(p: Reg, lookup: array2<Reg>)
    requires lookup.Length0 == SLICES && lookup.Length1 == 256
    modifies lookup
    ensures AreTables(p, lookup)
  {
    FillFirst(p, lookup);
    for slice := 1 to SLICES
      invariant Filled(p, lookup, slice, 0)
    {
      FillSlice(p, lookup, slice);
    }
  }

  // ----- one byte at a time -----

  function XorByte(a: Byte, b: Byte): (r: Byte)
    ensures forall k :: 0 <= k < 8 ==> r[k] == (a[k] != b[k])
  {
    seq(8, k requires 0 <= k < 8 => a[k] != b[k])
  }

  /** The lookup step is one byte of the reference. */
  lemma UpdateLaw(p: Reg, c: Reg, b: Byte)
    ensures Xor(Down(c), Shift(p, Low(XorByte(c[..8], b)))) == Shift(p, Xor(c, Low(b)))
  {
    var x := Xor(c, Low(b));
    LookupLaw(p, x);
    assert Down(x) == Down(c);
    assert x[..8] == XorByte(c[..8], b);
  }

  method Update(ghost p: Reg, lookup: array2<Reg>, c: Reg, b: Byte) returns (r: Reg)
    requires AreTables(p, lookup)
    ensures r == Shift(p, Xor(c, Low(b)))
  {
    var index := XorByte(c[..8], b);
    r := Xor(Down(c), lookup[0, Index(index)]);
    OneShift(p, Low(index));
    UpdateLaw(p, c, b);
  }

  /** The plain loop, from byte `from` on. */
  method Bytewise(ghost p: Reg, lookup: array2<Reg>, data: seq<Byte>, from: nat, ghost start: Reg, c: Reg) returns (r: Reg)
    requires AreTables(p, lookup) && from <= |data| && c == Fold(p, start, data, from)
    ensures r == Fold(p, start, data, |data|)
  {
    r := c;
    for i := from to |data|
      invariant r == Fold(p, start, data, i)
    {
      r := Update(p, lookup, r, data[i]);
    }
  }

  /** crc32_1byte */
  method OneByte(ghost p: Reg, lookup: array2<Reg>, data: seq<Byte>, previous: Reg) returns (crc: Reg)
    requires AreTables(p, lookup)
    ensures crc == Checksum(p, data, previous)
  {
    crc := Bytewise(p, lookup, data, 0, Not(previous), Not(previous));
    crc := Not(crc);
  }

  // ----- words -----

  /** A word in the other byte order. */
  function Swap(w: Reg): Reg { Word(Part(w, 3), Part(w, 2), Part(w, 1), Part(w, 0)) }

  /** How the machine sees four bytes. */
  function LoadWord(big: bool, b0: Byte, b1: Byte, b2: Byte, b3: Byte): Reg {
    if big then Word(b3, b2, b1, b0) else Word(b0, b1, b2, b3)
  }

  lemma SwapParts(w: Reg)
    ensures Part(Swap(w), 0) == Part(w, 3) && Part(Swap(w), 1) == Part(w, 2)
    ensures Part(Swap(w), 2) == Part(w, 1) && Part(Swap(w), 3) == Part(w, 0)
    ensures Swap(Swap(w)) == w
  {
  }

  /** Swapping goes through XOR, so a swapped register may be added to a swapped word. */
  lemma SwapXor(a: Reg, b: Reg)
    ensures Xor(Swap(a), Swap(b)) == Swap(Xor(a, b))
  {
  }

  /** The lookup of a word in tables first .. first + 3: the last byte in memory goes to the first table. */
  method LookupWord(ghost p: Reg, lookup: array2<Reg>, big: bool, w: Reg, first: nat, ghost plain: Reg) returns (r: Reg)
    requires AreTables(p, lookup) && first + 3 < SLICES && plain == (if big then Swap(w) else w)
    ensures r == Sliced(p, plain, first)
  {
    SwapParts(w);
    var b0, b1, b2, b3 := Part(w, 0), Part(w, 1), Part(w, 2), Part(w, 3);
    var x0, x1, x2, x3 := lookup[first, Index(if big then b0 else b3)], lookup[first + 1, Index(if big then b1 else b2)],
      lookup[first + 2, Index(if big then b2 else b1)], lookup[first + 3, Index(if big then b3 else b0)];
    r := Xor(Xor(Xor(x0, x1), x2), x3);
    XorAssoc(Xor(x0, x1), x2, x3);
    SlicedParts(p, plain, first, x0, x1, x2, x3);
  }

  lemma SlicedParts(p: Reg, w: Reg, first: nat, x0: Reg, x1: Reg, x2: Reg, x3: Reg)
    requires x0 == Shifts(p, Low(Part(w, 3)), first + 1) && x1 == Shifts(p, Low(Part(w, 2)), first + 2)
    requires x2 == Shifts(p, Low(Part(w, 1)), first + 3) && x3 == Shifts(p, Low(Part(w, 0)), first + 4)
    ensures Sliced(p, w, first) == Xor(Xor(x0, x1), Xor(x2, x3))
  {
  }

  /** The register as it is added to a loaded word. */
  function InOrder(big: bool, c: Reg): Reg { if big then Swap(c) else c }

  lemma OrderLaw(big: bool, c: Reg, b0: Byte, b1: Byte, b2: Byte, b3: Byte)
    ensures InOrder(big, Xor(LoadWord(big, b0, b1, b2, b3), InOrder(big, c))) == Xor(c, Word(b0, b1, b2, b3))
    ensures InOrder(big, LoadWord(big, b0, b1, b2, b3)) == Word(b0, b1, b2, b3)
  {
    var w := Word(b0, b1, b2, b3);
    assert Part(w, 0) == b0 && Part(w, 1) == b1 && Part(w, 2) == b2 && Part(w, 3) == b3;
    XorComm(c, w);
    if big {
      SwapXor(w, c);
      SwapParts(Xor(w, c));
      SwapParts(w);
    }
  }

  lemma {:induction false} FoldFour(p: Reg, start: Reg, data: seq<Byte>, i: nat, j: nat)
    requires j == i + 4 && j <= |data|
    ensures Fold(p, start, data, j) == Then(p, Fold(p, start, data, i), Word(data[i], data[i + 1], data[i + 2], data[i + 3]))
  {
    var c := Fold(p, start, data, i);
    FourBytes(p, c, data[i], data[i + 1], data[i + 2], data[i + 3]);
    FoldNext(p, start, data, i);
    FoldNext(p, start, data, i + 1);
    FoldNext(p, start, data, i + 2);
    FoldNext(p, start, data, i + 3);
  }

  lemma FoldNext(p: Reg, start: Reg, data: seq<Byte>, i: nat)
    requires i < |data|
    ensures Fold(p, start, data, i + 1) == Shift(p, Xor(Fold(p, start, data, i), Low(data[i])))
  {
  }

  // ----- slicing by four -----

  method FourStep(ghost p: Reg, lookup: array2<Reg>, big: bool, c: Reg, b0: Byte, b1: Byte, b2: Byte, b3: Byte) returns (r: Reg)
    requires AreTables(p, lookup)
    ensures r == Then(p, c, Word(b0, b1, b2, b3))
  {
    var one := Xor(LoadWord(big, b0, b1, b2, b3), InOrder(big, c));
    OrderLaw(big, c, b0, b1, b2, b3);
    ghost var plain := Xor(c, Word(b0, b1, b2, b3));
    r := LookupWord(p, lookup, big, one, 0, plain);
    SliceLaw(p, plain);
    ThenIs(p, c, Word(b0, b1, b2, b3), r);
  }

  /** crc32_4bytes */
  method FourAtOnce(ghost p: Reg, lookup: array2<Reg>, big: bool, data: seq<Byte>, previous: Reg) returns (crc: Reg)
    requires AreTables(p, lookup)
    ensures crc == Checksum(p, data, previous)
  {
    var i := 0;
    crc := Not(previous);
    while |data| - i >= 4
      invariant i <= |data| && crc == Fold(p, Not(previous), data, i)
      decreases |data| - i
    {
      FoldFour(p, Not(previous), data, i, i + 4);
      crc := FourStep(p, lookup, big, crc, data[i], data[i + 1], data[i + 2], data[i + 3]);
      i := i + 4;
    }
    crc := Bytewise(p, lookup, data, i, Not(previous), crc);
    crc := Not(crc);
  }

  // ----- slicing by sixteen -----

  /** Four words of the data, as the machine sees them. */
  method LoadFour(big: bool, data: seq<Byte>, i: nat) returns (w1: Reg, w2: Reg, w3: Reg, w4: Reg)
    requires i + 16 <= |data|
    ensures w1 == WordOf(big, data, i) && w2 == WordOf(big, data, i + 4) && w3 == WordOf(big, data, i + 8) && w4 == WordOf(big, data, i + 12)
  {
    w1, w2 := WordOf(big, data, i), WordOf(big, data, i + 4);
    w3, w4 := WordOf(big, data, i + 8), WordOf(big, data, i + 12);
  }

  function WordOf(big: bool, data: seq<Byte>, i: nat): Reg
    requires i + 4 <= |data|
  {
    LoadWord(big, data[i], data[i + 1], data[i + 2], data[i + 3])
  }

  lemma FoldSixteen(p: Reg, start: Reg, data: seq<Byte>, i: nat)
    requires i + 16 <= |data|
    ensures Fold(p, start, data, i + 16)
         == FourWords(p, Fold(p, start, data, i), WordOf(false, data, i), WordOf(false, data, i + 4), WordOf(false, data, i + 8), WordOf(false, data, i + 12))
  {
    FoldFour(p, start, data, i, i + 4);
    FoldFour(p, start, data, i + 4, i + 8);
    FoldFour(p, start, data, i + 8, i + 12);
    FoldFour(p, start, data, i + 12, i + 16);
  }

  method SixteenStep(ghost p: Reg, lookup: array2<Reg>, big: bool, c: Reg, data: seq<Byte>, i: nat) returns (r: Reg)
    requires AreTables(p, lookup) && i + 16 <= |data|
    ensures r == FourWords(p, c, WordOf(false, data, i), WordOf(false, data, i + 4), WordOf(false, data, i + 8), WordOf(false, data, i + 12))
  {
    ghost var v1, v2, v3, v4 := WordOf(false, data, i), WordOf(false, data, i + 4), WordOf(false, data, i + 8), WordOf(false, data, i + 12);
    OrderLaw(big, c, data[i], data[i + 1], data[i + 2], data[i + 3]);
    OrderLaw(big, c, data[i + 4], data[i + 5], data[i + 6], data[i + 7]);
    OrderLaw(big, c, data[i + 8], data[i + 9], data[i + 10], data[i + 11]);
    OrderLaw(big, c, data[i + 12], data[i + 13], data[i + 14], data[i + 15]);
    var w1, w2, w3, w4 := LoadFour(big, data, i);
    var four := LookupWord(p, lookup, big, w4, 0, v4);
    var three := LookupWord(p, lookup, big, w3, 4, v3);
    var two := LookupWord(p, lookup, big, w2, 8, v2);
    var one := LookupWord(p, lookup, big, Xor(w1, InOrder(big, c)), 12, Xor(c, v1));
    SixteenLaw(p, c, v1, v2, v3, v4);
    r := Xor(Xor(Xor(one, two), three), four);
  }

  /** crc32_16bytes: four rounds of sixteen bytes at a time */
  method SixteenAtOnce(ghost p: Reg, lookup: array2<Reg>, big: bool, data: seq<Byte>, previous: Reg) returns (crc: Reg)
    requires AreTables(p, lookup)
    ensures crc == Checksum(p, data, previous)
  {
    var i := 0;
    crc := Not(previous);
    while |data| - i >= 64
      invariant i <= |data| && crc == Fold(p, Not(previous), data, i)
      decreases |data| - i
    {
      ghost var before := i;
      for unrolling := 0 to 4
        invariant i == before + 16 * unrolling && i <= |data| && crc == Fold(p, Not(previous), data, i)
      {
        FoldSixteen(p, Not(previous), data, i);
        crc := SixteenStep(p, lookup, big, crc, data, i);
        i := i + 16;
      }
    }
    crc := Bytewise(p, lookup, data, i, Not(previous), crc);
    crc := Not(crc);
  }
}
