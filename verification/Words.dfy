/**
 * Machine words shared by the recompiler model.
 *
 * A 32-bit word is a natural number below 2^32 and wrap-around is written out. A 64-bit host
 * register is the pair of its halves, so that "the low half is the MIPS value" is a projection.
 */
module Words {

  const W: int := 0x1_0000_0000

  function Min(a: nat, b: nat): nat { if a < b then a else b }

  type Word = x: int | 0 <= x < W

  datatype Host = Host(hi: Word, lo: Word)

  const ZERO: Host := Host(0, 0)

  predicate Negative(w: Word) { w >= 0x8000_0000 }

  /** The two's-complement value of a word. */
  function Signed(w: Word): int { if Negative(w) then w - W else w }

  function SignExt(w: Word): Host { Host(if Negative(w) then W - 1 else 0, w) }

  function ZeroExt(w: Word): Host { Host(0, w) }

  /** How much of the upper half an emitted operation relies on. */
  datatype Ext = NoExt | SExt | ZExt

  predicate HasExt(ext: Ext, x: Host) {
    match ext
    case NoExt => true
    case SExt => x == SignExt(x.lo)
    case ZExt => x == ZeroExt(x.lo)
  }

  function Unsigned64(x: Host): int { x.hi * W + x.lo }

  function Signed64(x: Host): int { Signed(x.hi) * W + x.lo }

  /** The 64-bit register holding v modulo 2^64. */
  function Wrap64(v: int): Host { Host((v / W) % W, v % W) }

  function Pow2(s: nat): (p: int)
    ensures p > 0
  {
    if s == 0 then 1 else 2 * Pow2(s - 1)
  }

  datatype BitOp = BitAnd | BitOr | BitXor

  function BitResult(op: BitOp, x: int, y: int): (r: int)
    requires 0 <= x < 2 && 0 <= y < 2
    ensures 0 <= r < 2
  {
    match op
    case BitAnd => if x == 1 && y == 1 then 1 else 0
    case BitOr => if x == 1 || y == 1 then 1 else 0
    case BitXor => if x != y then 1 else 0
  }

  /** The operation applied to each of the n low bits. */
  function Bitwise(op: BitOp, a: nat, b: nat, n: nat): (r: nat)
    ensures r < Pow2(n)
  {
    if n == 0 then 0 else BitResult(op, a % 2, b % 2) + 2 * Bitwise(op, a / 2, b / 2, n - 1)
  }

  function Bits32(op: BitOp, a: Word, b: Word): Word {
    WordWidth();
    Bitwise(op, a, b, 32)
  }

  lemma {:induction false} OrZero(b: nat, n: nat)
    requires b < Pow2(n)
    ensures Bitwise(BitOr, 0, b, n) == b
  {
    if n > 0 {
      OrZero(b / 2, n - 1);
    }
  }

  lemma OrZeroWord(b: Word)
    ensures Bits32(BitOr, 0, b) == b
  {
    WordWidth();
    OrZero(b, 32);
  }

  lemma WordWidth()
    ensures Pow2(32) == W
  {
    assert Pow2(4) == 16 && Pow2(8) == 256;
    assert Pow2(12) == 0x1000 && Pow2(16) == 0x1_0000 && Pow2(20) == 0x10_0000 && Pow2(24) == 0x100_0000;
    assert Pow2(28) == 0x1000_0000;
  }

  /** x * 2^s */
  function ShiftLeft(x: int, s: nat): int {
    if s == 0 then x else 2 * ShiftLeft(x, s - 1)
  }

  /** x / 2^s rounded down: a logical shift of a natural number, an arithmetic one of a negative number. */
  function ShiftRight(x: int, s: nat): int {
    if s == 0 then x else ShiftRight(x, s - 1) / 2
  }

  datatype AluOp = Add | Sub | And | Or | Xor | Shl | ShrU | ShrS
                 | LtS | LtU | Eq | Ne | GeS | LeS | GtS

  function Flag(b: bool): Word { if b then 1 else 0 }

  /** The 32-bit meaning of an operation: what the RSP computes. */
  function Alu32(op: AluOp, a: Word, b: Word): Word {
    match op
    case Add => (a + b) % W
    case Sub => (a - b) % W
    case And => Bits32(BitAnd, a, b)
    case Or => Bits32(BitOr, a, b)
    case Xor => Bits32(BitXor, a, b)
    case Shl => ShiftLeft(a, b % 32) % W
    case ShrU => ShiftRight(a, b % 32) % W
    case ShrS => ShiftRight(Signed(a), b % 32) % W
    case LtS => Flag(Signed(a) < Signed(b))
    case LtU => Flag(a < b)
    case Eq => Flag(a == b)
    case Ne => Flag(a != b)
    case GeS => Flag(Signed(a) >= Signed(b))
    case LeS => Flag(Signed(a) <= Signed(b))
    case GtS => Flag(Signed(a) > Signed(b))
  }

  /** What the emitted host instruction computes on full 64-bit registers. */
  function Alu64(op: AluOp, a: Host, b: Host): Host {
    match op
    case Add => Wrap64(Signed64(a) + Signed64(b))
    case Sub => Wrap64(Signed64(a) - Signed64(b))
    case And => Host(Bits32(BitAnd, a.hi, b.hi), Bits32(BitAnd, a.lo, b.lo))
    case Or => Host(Bits32(BitOr, a.hi, b.hi), Bits32(BitOr, a.lo, b.lo))
    case Xor => Host(Bits32(BitXor, a.hi, b.hi), Bits32(BitXor, a.lo, b.lo))
    case Shl => Wrap64(ShiftLeft(Unsigned64(a), b.lo % 64))
    case ShrU => Wrap64(ShiftRight(Unsigned64(a), b.lo % 64))
    case ShrS => Wrap64(ShiftRight(Signed64(a), b.lo % 64))
    case LtS => ZeroExt(Flag(Signed64(a) < Signed64(b)))
    case LtU => ZeroExt(Flag(Unsigned64(a) < Unsigned64(b)))
    case Eq => ZeroExt(Flag(a == b))
    case Ne => ZeroExt(Flag(a != b))
    case GeS => ZeroExt(Flag(Signed64(a) >= Signed64(b)))
    case LeS => ZeroExt(Flag(Signed64(a) <= Signed64(b)))
    case GtS => ZeroExt(Flag(Signed64(a) > Signed64(b)))
  }

  predicate IsShift(op: AluOp) { op.Shl? || op.ShrU? || op.ShrS? }

  predicate IsCompare(op: AluOp) { op.LtS? || op.LtU? || op.Eq? || op.Ne? || op.GeS? || op.LeS? || op.GtS? }

  /** The extension an operation needs for its low half to be right. */
  predicate Suits(op: AluOp, ext: Ext) {
    match op
    case Add | Sub | And | Or | Xor | Shl => true
    case ShrU => ext.ZExt?
    case ShrS => ext.SExt?
    case LtU => !ext.NoExt?
    case LtS | Eq | Ne | GeS | LeS | GtS => ext.SExt?
  }

  /** The host operation, on suitably extended operands, has the 32-bit result in its low half. */
  lemma AluRefines(op: AluOp, ext: Ext, a: Host, b: Host)
    requires Suits(op, ext) && HasExt(ext, a)
    requires if IsShift(op) then b.lo < 32 else HasExt(ext, b)
    ensures Alu64(op, a, b).lo == Alu32(op, a.lo, b.lo)
    ensures IsCompare(op) ==> HasExt(SExt, Alu64(op, a, b))
  {
    if IsCompare(op) {
      CompareRefines(op, ext, a, b);
    } else if IsShift(op) {
      ShiftRefines(op, ext, a, b);
    } else {
      ArithmeticRefines(op, a, b);
    }
  }

  lemma ArithmeticRefines(op: AluOp, a: Host, b: Host)
    requires !IsShift(op) && !IsCompare(op)
    ensures Alu64(op, a, b).lo == Alu32(op, a.lo, b.lo)
  {
    if op.Add? {
      DropMultiple(a.lo + b.lo, Signed(a.hi) + Signed(b.hi));
    } else if op.Sub? {
      DropMultiple(a.lo - b.lo, Signed(a.hi) - Signed(b.hi));
    }
  }

  lemma ShiftRefines(op: AluOp, ext: Ext, a: Host, b: Host)
    requires IsShift(op) && Suits(op, ext) && HasExt(ext, a) && b.lo < 32
    ensures Alu64(op, a, b).lo == Alu32(op, a.lo, b.lo)
  {
    if op.Shl? {
      ShiftLeftLow(a, b.lo);
    }
  }

  lemma CompareRefines(op: AluOp, ext: Ext, a: Host, b: Host)
    requires IsCompare(op) && Suits(op, ext) && HasExt(ext, a) && HasExt(ext, b)
    ensures Alu64(op, a, b) == ZeroExt(Alu32(op, a.lo, b.lo))
    ensures HasExt(SExt, Alu64(op, a, b))
  {
  }

  /** The low half of a left shift depends on the low half only. */
  lemma {:induction false} ShiftLeftLow(a: Host, s: nat)
    ensures ShiftLeft(Unsigned64(a), s) % W == ShiftLeft(a.lo, s) % W
  {
    if s == 0 {
      DropMultiple(a.lo, a.hi);
    } else {
      ShiftLeftLow(a, s - 1);
      DoubleMod(ShiftLeft(Unsigned64(a), s - 1), ShiftLeft(a.lo, s - 1));
    }
  }

  lemma DoubleMod(x: int, y: int)
    requires x % W == y % W
    ensures (2 * x) % W == (2 * y) % W
  {
    var k := x / W - y / W;
    assert 2 * x == 2 * k * W + 2 * y;
    DropMultiple(2 * y, 2 * k);
  }

  lemma DropMultiple(x: int, k: int)
    ensures (k * W + x) % W == x % W
  {
  }

  // ----- byte addresses of 4 KiB memories -----

  const MEM_WORDS: nat := 1024

  /** The word index `(b & 0xfff) >> 2`. */
  function WordIndex(b: Word): nat { (b % 4096) / 4 }

  /** The byte address `(4 * k) & 0xffc` of word k. */
  function Addr(k: nat): Word { (4 * k) % 4096 }

  /** Masking a program counter to 12 bits and dropping two recovers the word, modulo the memory. */
  lemma WordOfAddr(k: nat)
    ensures WordIndex(Addr(k)) == k % MEM_WORDS
  {
    FourTimes(k / MEM_WORDS, k % MEM_WORDS);
  }

  lemma FourTimes(q: nat, r: nat)
    requires r < MEM_WORDS
    ensures (4 * (MEM_WORDS * q + r)) % 4096 == 4 * r
  {
  }
}
