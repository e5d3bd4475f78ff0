/**
 * The table built by bit reflection: a left-shifting recurrence with the generator 0x04C11DB7 between
 * two reflections is the right-shifting recurrence with 0xEDB88320, so the checksum is the CRC-32 of
 * section 8 of RFC 1952.
 */
module CrcReflected {
  import opened Crc
  import opened CrcTables

  /** The low n bits of x in reverse order. */
  function Reflected(x: Reg, n: nat): (r: Reg)
    requires n <= 32
    ensures forall k :: 0 <= k < 32 ==> r[k] == (k < n && x[n - 1 - k])
  {
    seq(32, k requires 0 <= k < 32 => k < n && x[n - 1 - k])
  }

  method Reflect(x: Reg, ch: nat) returns (value: Reg)
    requires 0 < ch <= 32
    ensures value == Reflected(x, ch)
  {
    var ref: Reg := x;
    value := Zeros(32);
    for i := 0 to ch
      invariant ref == x[i..] + Zeros(i)
      invariant forall k :: 0 <= k < 32 ==> value[k] == (ch - i <= k < ch && x[ch - 1 - k])
    {
      if ref[0] { value := value[ch - i - 1 := true]; }
      ref := ref[1..] + [false];
    }
  }

  // ----- reflection turns one recurrence into the other -----

  /** Shift one bit out on the left. */
  function LeftStep(p: Reg, c: Reg): (r: Reg)
    ensures forall k :: 0 <= k < 32 ==> r[k] == ((k > 0 && c[k - 1]) != (c[31] && p[k]))
  {
    seq(32, k requires 0 <= k < 32 => (k > 0 && c[k - 1]) != (c[31] && p[k]))
  }

  function LeftSteps(p: Reg, c: Reg, n: nat): Reg { if n == 0 then c else LeftStep(p, LeftSteps(p, c, n - 1)) }

  lemma ReflectStep(p: Reg, c: Reg)
    ensures Reflected(LeftStep(p, c), 32) == Step(Reflected(p, 32), Reflected(c, 32))
  {
  }

  lemma {:induction false} ReflectSteps(p: Reg, c: Reg, n: nat)
    ensures Reflected(LeftSteps(p, c, n), 32) == Steps(Reflected(p, 32), Reflected(c, 32), n)
  {
    if n > 0 {
      ReflectSteps(p, c, n - 1);
      ReflectStep(p, LeftSteps(p, c, n - 1));
    }
  }

  /** Reflecting the byte into the top and reflecting the register puts the byte at the low end. */
  lemma ReflectStart(b: Byte, r: Reg)
    requires r == Reflected(Low(b), 8)
    ensures Reflected(Zeros(24) + r[..8], 32) == Low(b)
  {
  }

  /** The bits of a hexadecimal digit, from the low end. */
  function Digit(d: nat): (r: seq<bool>)
    ensures |r| == 4
  {
    [d % 2 == 1, d / 2 % 2 == 1, d / 4 % 2 == 1, d / 8 % 2 == 1]
  }

  /** A 32-bit number, written as its eight hexadecimal digits. */
  function Hex(a: nat, b: nat, c: nat, d: nat, e: nat, f: nat, g: nat, h: nat): Reg {
    ((Digit(h) + Digit(g)) + (Digit(f) + Digit(e))) + ((Digit(d) + Digit(c)) + (Digit(b) + Digit(a)))
  }

  const GENERATOR: Reg := Hex(0x0, 0x4, 0xC, 0x1, 0x1, 0xD, 0xB, 0x7)
  const RFC_GENERATOR: Reg := Hex(0xE, 0xD, 0xB, 0x8, 0x8, 0x3, 0x2, 0x0)

  /** 0x04C11DB7 and 0xEDB88320 are each other's reflection. */
  lemma GeneratorsReflect()
    ensures Reflected(GENERATOR, 32) == RFC_GENERATOR
  {
    ReflectDigits(0x7, 0xE);
    ReflectDigits(0xB, 0xD);
    ReflectDigits(0xD, 0xB);
    ReflectDigits(0x1, 0x8);
    ReflectDigits(0xC, 0x3);
    ReflectDigits(0x4, 0x2);
    ReflectDigits(0x0, 0x0);
    ReflectHex(0x0, 0x4, 0xC, 0x1, 0x1, 0xD, 0xB, 0x7);
  }

  /** The digit with the bits of d in reverse order. */
  function BackDigit(d: nat): seq<bool> {
    [d / 8 % 2 == 1, d / 4 % 2 == 1, d / 2 % 2 == 1, d % 2 == 1]
  }

  lemma ReflectDigits(d: nat, e: nat)
    requires d < 16 && e == 8 * (d % 2) + 4 * (d / 2 % 2) + 2 * (d / 4 % 2) + d / 8
    ensures BackDigit(d) == Digit(e)
  {
  }

  function Reverse(s: seq<bool>): (r: seq<bool>)
    ensures |r| == |s| && forall k :: 0 <= k < |s| ==> r[k] == s[|s| - 1 - k]
  {
    seq(|s|, k requires 0 <= k < |s| => s[|s| - 1 - k])
  }

  lemma ReverseAppend(a: seq<bool>, b: seq<bool>, ra: seq<bool>, rb: seq<bool>)
    requires Reverse(a) == ra && Reverse(b) == rb
    ensures Reverse(a + b) == rb + ra
  {
  }

  lemma ReverseDigit(d: nat)
    ensures Reverse(Digit(d)) == BackDigit(d)
  {
  }

  lemma ReverseTwo(a: nat, b: nat)
    ensures Reverse(Digit(a) + Digit(b)) == BackDigit(b) + BackDigit(a)
  {
    ReverseDigit(a);
    ReverseDigit(b);
    ReverseAppend(Digit(a), Digit(b), BackDigit(a), BackDigit(b));
  }

  lemma ReverseFour(a: nat, b: nat, c: nat, d: nat)
    ensures Reverse((Digit(a) + Digit(b)) + (Digit(c) + Digit(d))) == (BackDigit(d) + BackDigit(c)) + (BackDigit(b) + BackDigit(a))
  {
    ReverseTwo(a, b);
    ReverseTwo(c, d);
    ReverseAppend(Digit(a) + Digit(b), Digit(c) + Digit(d), BackDigit(b) + BackDigit(a), BackDigit(d) + BackDigit(c));
  }

  lemma ReflectReverse(x: Reg)
    ensures Reflected(x, 32) == Reverse(x)
  {
  }

  /** Reflecting eight digits reverses their order and each of them. */
  lemma ReflectHex(a: nat, b: nat, c: nat, d: nat, e: nat, f: nat, g: nat, h: nat)
    ensures Reflected(Hex(a, b, c, d, e, f, g, h), 32)
         == ((BackDigit(a) + BackDigit(b)) + (BackDigit(c) + BackDigit(d))) + ((BackDigit(e) + BackDigit(f)) + (BackDigit(g) + BackDigit(h)))
  {
    ReflectReverse(Hex(a, b, c, d, e, f, g, h));
    ReverseFour(h, g, f, e);
    ReverseFour(d, c, b, a);
    ReverseAppend((Digit(h) + Digit(g)) + (Digit(f) + Digit(e)), (Digit(d) + Digit(c)) + (Digit(b) + Digit(a)),
                  (BackDigit(e) + BackDigit(f)) + (BackDigit(g) + BackDigit(h)), (BackDigit(a) + BackDigit(b)) + (BackDigit(c) + BackDigit(d)));
  }

  // ----- the table and the checksum -----

  /** One entry: reflect the byte into the top, shift it through, reflect back. */
  method Entry(p: Reg, b: Byte) returns (r: Reg)
    ensures r == Shift(Reflected(p, 32), Low(b))
  {
    var reflected := Reflect(Low(b), 8);
    var start: Reg := Zeros(24) + reflected[..8];
    var crc := start;
    for j := 0 to 8
      invariant crc == LeftSteps(p, start, j)
    {
      crc := LeftStep(p, crc);
    }
    r := Reflect(crc, 32);
    ReflectSteps(p, start, 8);
    ReflectStart(b, reflected);
  }

  ghost predicate IsTable(p: Reg, table: array<Reg>)
    reads table
  {
    table.Length == 256 && forall b: Byte :: table[Index(b)] == Shift(p, Low(b))
  }

  /** CRC_BuildTable */
  method BuildTable(table: array<Reg>)
    requires table.Length == 256
    modifies table
    ensures IsTable(RFC_GENERATOR, table)
  {
    GeneratorsReflect();
    for i := 0 to 256
      invariant forall b: Byte :: Index(b) < i ==> table[Index(b)] == Shift(RFC_GENERATOR, Low(b))
    {
      table[i] := Entry(GENERATOR, Bits(i, 8));
      forall b: Byte | Index(b) == i
        ensures table[Index(b)] == Shift(RFC_GENERATOR, Low(b))
      {
        ByteAt(b, i);
      }
    }
  }

  /** CRC_Calculate: the CRC-32 of RFC 1952 for every buffer */
  method Calculate(table: array<Reg>, buffer: seq<Byte>) returns (crc: Reg)
    requires IsTable(RFC_GENERATOR, table)
    ensures crc == Checksum(RFC_GENERATOR, buffer, Zeros(32))
  {
    crc := Not(Zeros(32));
    for i := 0 to |buffer|
      invariant crc == Fold(RFC_GENERATOR, Not(Zeros(32)), buffer, i)
    {
      UpdateLaw(RFC_GENERATOR, crc, buffer[i]);
      crc := Xor(Down(crc), table[Index(XorByte(crc[..8], buffer[i]))]);
    }
    crc := Not(crc);
  }
}
