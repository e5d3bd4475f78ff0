/**
 * The reference stepper in numbers: what a step does on an instruction word given by its fields, in plain
 * arithmetic on the registers, bytes and word numbers.
 */
module Instructions {
  import opened Words
  import opened Bits
  import opened Dmem
  import opened Isa

  // ----- plain readings -----

  /** A register as an operand; register 0 reads as 0. */
  function V(regs: Regs, k: nat): (v: Word)
    requires k < 32
  {
    if k == 0 then 0 else regs[k]
  }

  /** The two's-complement value of a 32-bit number. */
  function S(v: Word): int { if v >= 0x8000_0000 then v - 0x1_0000_0000 else v }

  /** The value of a 16-bit immediate with its sign. */
  function Offset(imm: nat): int
    requires imm < 0x1_0000
  {
    if imm >= 0x8000 then imm - 0x1_0000 else imm
  }

  /** Bit k of a 32-bit number. */
  predicate Bit(v: Word, k: nat) { v / Pow2(k) % 2 == 1 }

  /** The register file with v in register d; nothing is written to register 0. */
  function With(regs: Regs, d: nat, v: Word): Regs { if 0 < d < 32 then regs[d := v] else regs }

  /** The step goes on with these registers, memory and coprocessors, and pending branch; a branch pending before is taken. */
  predicate Goes(env: Env, imem: Imem, c: Cpu, regs: Regs, world: World, pending: Pending)
    requires c.pc < 1024
  {
    Step(env, imem, c)
      == Running(Cpu(regs, if c.pending.Slot? then c.pending.target else if c.pc == 1023 then 0 else c.pc + 1, pending, world))
  }

  /** The step writes v to register d and does nothing else. */
  predicate Writes(env: Env, imem: Imem, c: Cpu, d: nat, v: Word)
    requires c.pc < 1024
  {
    Goes(env, imem, c, With(c.regs, d, v), c.world, NoSlot)
  }

  /** The step does what the effect says. */
  lemma StepEffect(env: Env, imem: Imem, c: Cpu, e: Effect)
    requires c.pc < 1024 && e == Execute(env, imem[c.pc], c.pc, c.regs, c.world) && e.mode == 1
    ensures Goes(env, imem, c, e.regs, e.world, e.jump)
  {
  }

  /** The same for a decoded instruction that lets the run go on. */
  lemma StepOf(env: Env, imem: Imem, c: Cpu, d: Instr)
    requires c.pc < 1024 && Decode(imem[c.pc]) == d && !d.Break? && !d.MoveFromC0? && !d.MoveToC0?
    ensures var e := Perform(env, d, imem[c.pc], c.pc, c.regs, c.world); Goes(env, imem, c, e.regs, e.world, e.jump)
  {
    StepEffect(env, imem, c, Perform(env, d, imem[c.pc], c.pc, c.regs, c.world));
  }

  // ----- the step of a decoded instruction -----

  lemma StepAlu(env: Env, imem: Imem, c: Cpu, op: AluOp, rd: nat, rs: nat, rt: nat)
    requires c.pc < 1024 && rs < 32 && rt < 32 && Decode(imem[c.pc]) == Alu(op, rd, rs, rt)
    ensures Writes(env, imem, c, rd, Alu32(op, V(c.regs, rs), V(c.regs, rt)))
  {
    StepOf(env, imem, c, Alu(op, rd, rs, rt));
  }

  lemma StepNor(env: Env, imem: Imem, c: Cpu, rd: nat, rs: nat, rt: nat)
    requires c.pc < 1024 && rs < 32 && rt < 32 && Decode(imem[c.pc]) == Nor(rd, rs, rt)
    ensures Writes(env, imem, c, rd, W - 1 - Bits32(BitOr, V(c.regs, rt), V(c.regs, rs)))
  {
    StepOf(env, imem, c, Nor(rd, rs, rt));
  }

  lemma StepImmediate(env: Env, imem: Imem, c: Cpu, op: AluOp, rt: nat, rs: nat, imm: Word)
    requires c.pc < 1024 && rs < 32 && Decode(imem[c.pc]) == AluImm(op, rt, rs, imm)
    ensures Writes(env, imem, c, rt, Alu32(op, V(c.regs, rs), imm))
  {
    StepOf(env, imem, c, AluImm(op, rt, rs, imm));
  }

  lemma StepEqual(env: Env, imem: Imem, c: Cpu, op: AluOp, rs: nat, rt: nat)
    requires c.pc < 1024 && rs < 32 && rt < 32 && Decode(imem[c.pc]) == BranchEqual(op, rs, rt)
    ensures Branches(env, imem, c, c.regs, Alu32(op, V(c.regs, rs), V(c.regs, rt)) != 0, BranchTarget(c.pc, imem[c.pc]))
  {
    StepOf(env, imem, c, BranchEqual(op, rs, rt));
  }

  lemma StepSign(env: Env, imem: Imem, c: Cpu, op: AluOp, rs: nat)
    requires c.pc < 1024 && rs < 32 && Decode(imem[c.pc]) == BranchZero(op, rs, false)
    ensures Branches(env, imem, c, c.regs, Alu32(op, V(c.regs, rs), 0) != 0, BranchTarget(c.pc, imem[c.pc]))
  {
    StepOf(env, imem, c, BranchZero(op, rs, false));
  }

  lemma StepSignLink(env: Env, imem: Imem, c: Cpu, op: AluOp, rs: nat)
    requires c.pc < 1024 && rs < 32 && Decode(imem[c.pc]) == BranchZero(op, rs, true)
    ensures Branches(env, imem, c, SetReg(c.regs, 31, LinkValue(c.pc)), Alu32(op, V(c.regs, rs), 0) != 0, BranchTarget(c.pc, imem[c.pc]))
  {
    StepOf(env, imem, c, BranchZero(op, rs, true));
  }

  /** The link: the address behind the slot, within 4 KiB. */
  lemma LinkIs(regs: Regs, k: nat, pc: nat)
    requires k < 32
    ensures SetReg(regs, k, LinkValue(pc)) == With(regs, k, (4 * pc + 8) % 4096)
  {
  }

  lemma StepNothing(env: Env, imem: Imem, c: Cpu)
    requires c.pc < 1024 && Decode(imem[c.pc]) == Nop
    ensures Goes(env, imem, c, c.regs, c.world, NoSlot)
  {
    StepOf(env, imem, c, Nop);
  }

  // ----- the fields of a word -----

  /** Register format: opcode 0. */
  predicate IsRegister(w: Word, rs: nat, rt: nat, rd: nat, sa: nat, f: nat) {
    && rs < 32 && rt < 32 && rd < 32 && sa < 32 && f < 64
    && w == rs * 0x20_0000 + rt * 0x1_0000 + rd * 0x800 + sa * 64 + f
  }

  /** Immediate format. */
  predicate IsImmediate(w: Word, op: nat, rs: nat, rt: nat, imm: nat) {
    && op < 64 && rs < 32 && rt < 32 && imm < 0x1_0000
    && w == op * 0x400_0000 + rs * 0x20_0000 + rt * 0x1_0000 + imm
  }

  lemma DivConst(x: nat, d: nat, q: nat, r: nat)
    requires d > 0 && r < d && x == q * d + r
    ensures x / d == q && x % d == r
  {
    DivBetween(x, d, q);
  }

  /** The five bits at the bottom of a row of fields. */
  lemma LastFive(high: nat, x: nat)
    requires x < 32
    ensures (high * 32 + x) % 32 == x
  {
  }

  lemma OpcodeField(w: Word, op: nat, rs: nat, rt: nat, imm: nat)
    requires IsImmediate(w, op, rs, rt, imm)
    ensures Opcode(w) == op && w / 0x200_0000 == 2 * op + rs / 16
  {
    DivConst(w, 0x400_0000, op, rs * 0x20_0000 + rt * 0x1_0000 + imm);
    DivConst(w, 0x200_0000, 2 * op + rs / 16, (rs % 16) * 0x20_0000 + rt * 0x1_0000 + imm);
  }

  lemma SourceField(w: Word, op: nat, rs: nat, rt: nat, imm: nat)
    requires IsImmediate(w, op, rs, rt, imm)
    ensures Rs(w) == rs
  {
    DivConst(w, 0x20_0000, op * 32 + rs, rt * 0x1_0000 + imm);
    LastFive(op, rs);
  }

  lemma TargetField(w: Word, op: nat, rs: nat, rt: nat, imm: nat)
    requires IsImmediate(w, op, rs, rt, imm)
    ensures Rt(w) == rt && w % 0x1_0000 == imm
  {
    DivConst(w, 0x1_0000, (op * 32 + rs) * 32 + rt, imm);
    LastFive(op * 32 + rs, rt);
  }

  lemma SignedField(imm: nat)
    requires imm < 0x1_0000
    ensures Sign16(imm) == Offset(imm) % W
  {
  }

  lemma ImmediateFields(w: Word, op: nat, rs: nat, rt: nat, imm: nat)
    requires IsImmediate(w, op, rs, rt, imm)
    ensures Opcode(w) == op && Rs(w) == rs && Rt(w) == rt && w % 0x1_0000 == imm && w / 0x200_0000 == 2 * op + rs / 16
    ensures Imm(w) == imm && SImm(w) == Offset(imm) % W
  {
    OpcodeField(w, op, rs, rt, imm);
    SourceField(w, op, rs, rt, imm);
    TargetField(w, op, rs, rt, imm);
    SignedField(imm);
  }

  lemma RegisterFields(w: Word, rs: nat, rt: nat, rd: nat, sa: nat, f: nat)
    requires IsRegister(w, rs, rt, rd, sa, f)
    ensures Opcode(w) == 0 && Rs(w) == rs && Rt(w) == rt && Rd(w) == rd && Shamt(w) == sa && Funct(w) == f
    ensures Decode(w) == DecodeSpecial(w)
  {
    HighFields(w, rs, rt, rd * 0x800 + sa * 64 + f);
    LowFields(w, 32 * rs + rt, rd, sa, f);
  }

  lemma HighFields(w: Word, rs: nat, rt: nat, low: nat)
    requires rs < 32 && rt < 32 && low < 0x1_0000 && w == rs * 0x20_0000 + rt * 0x1_0000 + low
    ensures Opcode(w) == 0 && Rs(w) == rs && Rt(w) == rt && Decode(w) == DecodeSpecial(w)
  {
    assert IsImmediate(w, 0, rs, rt, low);
    OpcodeField(w, 0, rs, rt, low);
    SourceField(w, 0, rs, rt, low);
    TargetField(w, 0, rs, rt, low);
  }

  lemma LowFields(w: Word, high: nat, rd: nat, sa: nat, f: nat)
    requires rd < 32 && sa < 32 && f < 64 && w == high * 0x1_0000 + rd * 0x800 + sa * 64 + f
    ensures Rd(w) == rd && Shamt(w) == sa && Funct(w) == f
  {
    DivConst(w, 0x800, high * 32 + rd, sa * 64 + f);
    LastFive(high, rd);
    AmountFields(w, high * 32 + rd, sa, f);
  }

  lemma AmountFields(w: Word, high: nat, sa: nat, f: nat)
    requires sa < 32 && f < 64 && w == high * 0x800 + sa * 64 + f
    ensures Shamt(w) == sa && Funct(w) == f
  {
    DivConst(w, 64, high * 32 + sa, f);
    LastFive(high, sa);
  }

  // ----- bits, shifts -----

  lemma HalfDiv(x: int, p: int)
    requires p > 0
    ensures x / (2 * p) == x / 2 / p
  {
    var q := x / 2 / p;
    var r := x / 2 - q * p;
    assert x / 2 == q * p + r && 0 <= r < p;
    assert x == 2 * (x / 2) + x % 2;
    assert x == q * (2 * p) + (2 * r + x % 2) by { Twice(q, p); }
    IntDiv(x, 2 * p, q, 2 * r + x % 2);
  }

  lemma Twice(q: int, p: int)
    ensures q * (2 * p) == 2 * (q * p)
  {
  }

  lemma IntDiv(x: int, y: int, q: int, r: int)
    requires y > 0 && x == q * y + r && 0 <= r < y
    ensures x / y == q
  {
    var p := x / y;
    assert p * y <= x < p * y + y;
    if p < q {
      IntMono(p + 1, q, y);
    } else if q < p {
      IntMono(q + 1, p, y);
    }
  }

  lemma IntMono(a: int, b: int, c: int)
    requires a <= b && c > 0
    ensures a * c <= b * c
  {
  }

  /** Bit k, by halving k times. */
  function BitOf(x: nat, k: nat): (r: nat)
    ensures r < 2
  {
    if k == 0 then x % 2 else BitOf(x / 2, k - 1)
  }

  lemma {:induction false} BitOfIs(x: nat, k: nat)
    ensures BitOf(x, k) == x / Pow2(k) % 2
  {
    if k > 0 {
      BitOfIs(x / 2, k - 1);
      HigherBit(x % 2, x / 2, k);
    }
  }

  lemma {:induction false} BitwiseBit(op: BitOp, a: nat, b: nat, n: nat, k: nat)
    requires k < n
    ensures BitOf(Bitwise(op, a, b, n), k) == BitResult(op, BitOf(a, k), BitOf(b, k))
  {
    if k > 0 {
      BitwiseBit(op, a / 2, b / 2, n - 1, k - 1);
    }
  }

  /** Bit k of a number is bit k - 1 of its half. */
  lemma HigherBit(low: nat, half: nat, k: nat)
    requires low < 2 && k > 0
    ensures (low + 2 * half) / Pow2(k) == half / Pow2(k - 1)
  {
    HalfDiv(low + 2 * half, Pow2(k - 1));
  }

  lemma {:induction false} ComplementBit(x: nat, n: nat, k: nat)
    requires x < Pow2(n) && k < n
    ensures BitOf(Pow2(n) - 1 - x, k) == 1 - BitOf(x, k)
  {
    assert Pow2(n) == 2 * Pow2(n - 1);
    if k > 0 {
      assert (Pow2(n) - 1 - x) / 2 == Pow2(n - 1) - 1 - x / 2;
      ComplementBit(x / 2, n - 1, k - 1);
    }
  }

  lemma {:induction false} LeftIsTimes(x: int, s: nat)
    ensures ShiftLeft(x, s) == x * Pow2(s)
  {
    if s > 0 {
      LeftIsTimes(x, s - 1);
      Twice(x, Pow2(s - 1));
    }
  }

  lemma {:induction false} RightIsDiv(x: int, s: nat)
    ensures ShiftRight(x, s) == x / Pow2(s)
  {
    if s > 0 {
      RightIsDiv(x, s - 1);
      DivHalf(x, Pow2(s - 1));
    }
  }

  lemma DivHalf(x: int, p: int)
    requires p > 0
    ensures x / p / 2 == x / (2 * p)
  {
    var q := x / p / 2;
    var r, t := x % p, x / p % 2;
    assert x == (x / p) * p + r && x / p == 2 * q + t;
    Spread(q, t, p);
    IntDiv(x, 2 * p, q, t * p + r);
  }

  lemma Spread(q: int, t: int, p: int)
    requires 0 <= t < 2 && p > 0
    ensures (2 * q + t) * p == q * (2 * p) + t * p && 0 <= t * p <= p
  {
  }

  // ----- arithmetic and logic on registers -----

  /** ADD, ADDU (32, 33), SUB, SUBU (34, 35). */
  lemma AddSub(env: Env, imem: Imem, c: Cpu, rs: nat, rt: nat, rd: nat, sa: nat, f: nat)
    requires c.pc < 1024 && IsRegister(imem[c.pc], rs, rt, rd, sa, f) && 32 <= f <= 35
    ensures f <= 33 ==> Writes(env, imem, c, rd, (V(c.regs, rs) + V(c.regs, rt)) % 0x1_0000_0000)
    ensures f >= 34 ==> Writes(env, imem, c, rd, (V(c.regs, rs) - V(c.regs, rt)) % 0x1_0000_0000)
  {
    RegisterFields(imem[c.pc], rs, rt, rd, sa, f);
    StepAlu(env, imem, c, if f <= 33 then Add else Sub, rd, rs, rt);
  }

  /** Each bit of r is the given combination of the bits of a and b. */
  predicate Combined(op: BitOp, a: Word, b: Word, r: Word) {
    forall k: nat :: k < 32 ==>
      (Bit(r, k) <==> match op case BitAnd => Bit(a, k) && Bit(b, k) case BitOr => Bit(a, k) || Bit(b, k) case BitXor => Bit(a, k) != Bit(b, k))
  }

  lemma CombinedBits(op: BitOp, a: Word, b: Word)
    ensures Combined(op, a, b, Bits32(op, a, b))
  {
    forall k: nat | k < 32
      ensures Bit(Bits32(op, a, b), k)
         <==> match op case BitAnd => Bit(a, k) && Bit(b, k) case BitOr => Bit(a, k) || Bit(b, k) case BitXor => Bit(a, k) != Bit(b, k)
    {
      BitwiseBit(op, a, b, 32, k);
      BitOfIs(a, k);
      BitOfIs(b, k);
      BitOfIs(Bits32(op, a, b), k);
    }
  }

  /** AND (36), OR (37), XOR (38), bit by bit. */
  lemma AndOrXor(env: Env, imem: Imem, c: Cpu, rs: nat, rt: nat, rd: nat, sa: nat, f: nat) returns (r: Word)
    requires c.pc < 1024 && IsRegister(imem[c.pc], rs, rt, rd, sa, f) && 36 <= f <= 38
    ensures Combined(if f == 36 then BitAnd else if f == 37 then BitOr else BitXor, V(c.regs, rs), V(c.regs, rt), r)
    ensures Writes(env, imem, c, rd, r)
  {
    var op := LogicOf(f - 36);
    r := Bits32(op, V(c.regs, rs), V(c.regs, rt));
    CombinedBits(op, V(c.regs, rs), V(c.regs, rt));
    LogicStep(env, imem, c, rs, rt, rd, sa, f, r);
  }

  function LogicOf(n: nat): BitOp { if n == 0 then BitAnd else if n == 1 then BitOr else BitXor }

  lemma LogicStep(env: Env, imem: Imem, c: Cpu, rs: nat, rt: nat, rd: nat, sa: nat, f: nat, r: Word)
    requires c.pc < 1024 && IsRegister(imem[c.pc], rs, rt, rd, sa, f) && 36 <= f <= 38
    requires r == Bits32(LogicOf(f - 36), V(c.regs, rs), V(c.regs, rt))
    ensures Writes(env, imem, c, rd, r)
  {
    LogicDecoded(imem[c.pc], rs, rt, rd, sa, f);
    StepAlu(env, imem, c, if f == 36 then And else if f == 37 then Or else Xor, rd, rs, rt);
  }

  lemma LogicDecoded(w: Word, rs: nat, rt: nat, rd: nat, sa: nat, f: nat)
    requires IsRegister(w, rs, rt, rd, sa, f) && 36 <= f <= 38
    ensures Decode(w) == Alu(if f == 36 then And else if f == 37 then Or else Xor, rd, rs, rt)
  {
    RegisterFields(w, rs, rt, rd, sa, f);
  }

  /** NOR (39): a bit is set when both are clear. */
  lemma NotOr(env: Env, imem: Imem, c: Cpu, rs: nat, rt: nat, rd: nat, sa: nat) returns (r: Word)
    requires c.pc < 1024 && IsRegister(imem[c.pc], rs, rt, rd, sa, 39)
    ensures forall k: nat :: k < 32 ==> (Bit(r, k) <==> !Bit(V(c.regs, rs), k) && !Bit(V(c.regs, rt), k))
    ensures Writes(env, imem, c, rd, r)
  {
    r := W - 1 - Bits32(BitOr, V(c.regs, rt), V(c.regs, rs));
    NorBits(V(c.regs, rs), V(c.regs, rt), r);
    NorStep(env, imem, c, rs, rt, rd, sa, r);
  }

  lemma NorStep(env: Env, imem: Imem, c: Cpu, rs: nat, rt: nat, rd: nat, sa: nat, r: Word)
    requires c.pc < 1024 && IsRegister(imem[c.pc], rs, rt, rd, sa, 39) && r == W - 1 - Bits32(BitOr, V(c.regs, rt), V(c.regs, rs))
    ensures Writes(env, imem, c, rd, r)
  {
    NorDecoded(imem[c.pc], rs, rt, rd, sa);
    StepNor(env, imem, c, rd, rs, rt);
  }

  lemma NorDecoded(w: Word, rs: nat, rt: nat, rd: nat, sa: nat)
    requires IsRegister(w, rs, rt, rd, sa, 39)
    ensures Decode(w) == Nor(rd, rs, rt)
  {
    RegisterFields(w, rs, rt, rd, sa, 39);
  }

  lemma NorBits(a: Word, b: Word, r: Word)
    requires r == W - 1 - Bits32(BitOr, b, a)
    ensures forall k: nat :: k < 32 ==> (Bit(r, k) <==> !Bit(a, k) && !Bit(b, k))
  {
    CombinedBits(BitOr, b, a);
    WordWidth();
    var x := Bits32(BitOr, b, a);
    forall k: nat | k < 32
      ensures Bit(r, k) <==> !Bit(a, k) && !Bit(b, k)
    {
      assert Bit(x, k) <==> Bit(b, k) || Bit(a, k);
      ComplementBit(x, 32, k);
      BitOfIs(x, k);
      BitOfIs(r, k);
    }
  }

  /** SLL (0), SRL (2), SRA (3): by the amount in the word. */
  lemma ShiftByAmount(env: Env, imem: Imem, c: Cpu, rs: nat, rt: nat, rd: nat, sa: nat, f: nat)
    requires c.pc < 1024 && IsRegister(imem[c.pc], rs, rt, rd, sa, f) && (f == 0 || f == 2 || f == 3)
    ensures Writes(env, imem, c, rd, Shifted(f, V(c.regs, rt), sa))
  {
    RegisterFields(imem[c.pc], rs, rt, rd, sa, f);
    ShiftedIs(f, V(c.regs, rt), sa);
    StepOf(env, imem, c, Shift(if f == 0 then Shl else if f == 2 then ShrU else ShrS, rd, rt, sa));
  }

  /** SLLV (4), SRLV (6), SRAV (7): by the low five bits of a register. */
  lemma ShiftByRegister(env: Env, imem: Imem, c: Cpu, rs: nat, rt: nat, rd: nat, sa: nat, f: nat)
    requires c.pc < 1024 && IsRegister(imem[c.pc], rs, rt, rd, sa, f) && (f == 4 || f == 6 || f == 7)
    ensures Writes(env, imem, c, rd, Shifted(f - 4, V(c.regs, rt), V(c.regs, rs) % 32))
  {
    RegisterFields(imem[c.pc], rs, rt, rd, sa, f);
    ShiftedIs(f - 4, V(c.regs, rt), V(c.regs, rs) % 32);
    StepOf(env, imem, c, ShiftReg(if f == 4 then Shl else if f == 6 then ShrU else ShrS, rd, rt, rs));
  }

  /** v times or divided by 2^s, rounded down; code 3 keeps the sign. */
  function Shifted(f: nat, v: Word, s: nat): Word {
    if f == 0 then v * Pow2(s) % 0x1_0000_0000 else if f == 2 then v / Pow2(s) % 0x1_0000_0000 else S(v) / Pow2(s) % 0x1_0000_0000
  }

  lemma ShiftedIs(f: nat, v: Word, s: nat)
    requires (f == 0 || f == 2 || f == 3) && s < 32
    ensures Shifted(f, v, s) == Alu32(if f == 0 then Shl else if f == 2 then ShrU else ShrS, v, s)
  {
    LeftIsTimes(v, s);
    RightIsDiv(v, s);
    RightIsDiv(S(v), s);
  }

  /** SLT (42) and SLTU (43). */
  lemma SetLess(env: Env, imem: Imem, c: Cpu, rs: nat, rt: nat, rd: nat, sa: nat, f: nat)
    requires c.pc < 1024 && IsRegister(imem[c.pc], rs, rt, rd, sa, f) && (f == 42 || f == 43)
    ensures f == 42 ==> Writes(env, imem, c, rd, if S(V(c.regs, rs)) < S(V(c.regs, rt)) then 1 else 0)
    ensures f == 43 ==> Writes(env, imem, c, rd, if V(c.regs, rs) < V(c.regs, rt) then 1 else 0)
  {
    RegisterFields(imem[c.pc], rs, rt, rd, sa, f);
    StepAlu(env, imem, c, if f == 42 then LtS else LtU, rd, rs, rt);
  }

  /** Function codes that do nothing. */
  lemma ReservedFunction(env: Env, imem: Imem, c: Cpu, rs: nat, rt: nat, rd: nat, sa: nat, f: nat)
    requires c.pc < 1024 && IsRegister(imem[c.pc], rs, rt, rd, sa, f)
    requires f !in {0, 2, 3, 4, 6, 7, 8, 9, 13, 42, 43} && !(32 <= f <= 39)
    ensures Goes(env, imem, c, c.regs, c.world, NoSlot)
  {
    ReservedDecoded(imem[c.pc], rs, rt, rd, sa, f);
    StepNothing(env, imem, c);
  }

  lemma ReservedDecoded(w: Word, rs: nat, rt: nat, rd: nat, sa: nat, f: nat)
    requires IsRegister(w, rs, rt, rd, sa, f) && f !in {0, 2, 3, 4, 6, 7, 8, 9, 13, 42, 43} && !(32 <= f <= 39)
    ensures Decode(w) == Nop
  {
    RegisterFields(w, rs, rt, rd, sa, f);
  }

  // ----- immediates -----

  /** ADDI, ADDIU (8, 9), SLTI (10), SLTIU (11), LUI (15). */
  lemma Immediates(env: Env, imem: Imem, c: Cpu, op: nat, rs: nat, rt: nat, imm: nat)
    requires c.pc < 1024 && IsImmediate(imem[c.pc], op, rs, rt, imm)
    ensures op == 8 || op == 9 ==> Writes(env, imem, c, rt, (V(c.regs, rs) + Offset(imm)) % 0x1_0000_0000)
    ensures op == 10 ==> Writes(env, imem, c, rt, if S(V(c.regs, rs)) < Offset(imm) then 1 else 0)
    ensures op == 11 ==> Writes(env, imem, c, rt, if V(c.regs, rs) < Offset(imm) % 0x1_0000_0000 then 1 else 0)
    ensures op == 15 ==> Writes(env, imem, c, rt, imm * 0x1_0000)
  {
    if op == 15 {
      ImmediateDecoded(imem[c.pc], op, rs, rt, imm);
      StepOf(env, imem, c, Lui(rt, imm * 0x1_0000));
    } else if 8 <= op <= 11 {
      ImmediateDecoded(imem[c.pc], op, rs, rt, imm);
      StepImmediate(env, imem, c, if op <= 9 then Add else if op == 10 then LtS else LtU, rt, rs, SImm(imem[c.pc]));
      AddWrapped(V(c.regs, rs), Offset(imm));
      OffsetBack(imm);
    }
  }

  lemma OffsetBack(imm: nat)
    requires imm < 0x1_0000
    ensures Offset(imm) % W < W && Signed(Offset(imm) % W) == Offset(imm)
  {
  }

  lemma ImmediateDecoded(w: Word, op: nat, rs: nat, rt: nat, imm: nat)
    requires IsImmediate(w, op, rs, rt, imm) && 8 <= op <= 15
    ensures Rs(w) == rs && Rt(w) == rt && Imm(w) == imm && SImm(w) == Offset(imm) % W
    ensures Opcode(w) == op && Decode(w) == DecodeImmediate(w)
  {
    ImmediateFields(w, op, rs, rt, imm);
  }

  lemma AddWrapped(a: Word, b: int)
    requires -0x8000 <= b < 0x8000
    ensures (a + b % 0x1_0000_0000) % 0x1_0000_0000 == (a + b) % 0x1_0000_0000
  {
  }

  /** ANDI (12), ORI (13), XORI (14): the immediate is not sign-extended. */
  lemma ImmediateBits(env: Env, imem: Imem, c: Cpu, op: nat, rs: nat, rt: nat, imm: nat) returns (r: Word)
    requires c.pc < 1024 && IsImmediate(imem[c.pc], op, rs, rt, imm) && 12 <= op <= 14
    ensures Combined(if op == 12 then BitAnd else if op == 13 then BitOr else BitXor, V(c.regs, rs), imm, r)
    ensures Writes(env, imem, c, rt, r)
  {
    r := Bits32(LogicOf(op - 12), V(c.regs, rs), imm);
    CombinedBits(LogicOf(op - 12), V(c.regs, rs), imm);
    ImmediateLogicStep(env, imem, c, op, rs, rt, imm, r);
  }

  lemma ImmediateLogicStep(env: Env, imem: Imem, c: Cpu, op: nat, rs: nat, rt: nat, imm: nat, r: Word)
    requires c.pc < 1024 && IsImmediate(imem[c.pc], op, rs, rt, imm) && 12 <= op <= 14
    requires r == Bits32(LogicOf(op - 12), V(c.regs, rs), imm)
    ensures Writes(env, imem, c, rt, r)
  {
    ImmediateDecoded(imem[c.pc], op, rs, rt, imm);
    StepImmediate(env, imem, c, if op == 12 then And else if op == 13 then Or else Xor, rt, rs, imm);
  }

  // ----- loads and stores -----

  /** The byte at a logical address, 4 KiB going round; the host keeps it at the address with its low two bits flipped. */
  function At(m: Memory, a: nat): Byte { m[a % 4096 / 4 * 4 + (3 - a % 4096 % 4)] }

  function DataAddress(regs: Regs, rs: nat, imm: nat): nat
    requires rs < 32 && imm < 0x1_0000
  {
    (V(regs, rs) + Offset(imm)) % 4096
  }

  lemma AddressIs(regs: Regs, w: Word, op: nat, rs: nat, rt: nat, imm: nat)
    requires IsImmediate(w, op, rs, rt, imm)
    ensures Address(regs, rs, w) == DataAddress(regs, rs, imm)
  {
    ImmediateFields(w, op, rs, rt, imm);
    AddWrapped(V(regs, rs), Offset(imm));
    LowBits(V(regs, rs) + Offset(imm));
  }

  lemma LowBits(x: int)
    ensures x % 0x1_0000_0000 % 4096 == x % 4096
  {
    var q := x / 0x1_0000_0000;
    assert x == x % 0x1_0000_0000 + 4096 * (q * 0x10_0000);
    PageMultiple(x % 0x1_0000_0000, q * 0x10_0000);
  }

  lemma PageMultiple(x: int, k: int)
    ensures (x + 4096 * k) % 4096 == x % 4096
  {
  }

  /** What a load of this opcode makes of the bytes from its address on: LB, LH, LW (and its unsigned form 39), LBU, LHU. */
  function FromBytes(op: nat, b0: Byte, b1: Byte, b2: Byte, b3: Byte): int {
    match op
    case 32 => if b0 >= 128 then b0 - 256 else b0
    case 33 => if b0 >= 128 then b0 * 256 + b1 - 0x1_0000 else b0 * 256 + b1
    case 36 => b0
    case 37 => b0 * 256 + b1
    case _ => b0 * 0x100_0000 + b1 * 0x1_0000 + b2 * 256 + b3
  }

  function Loaded(m: Memory, op: nat, a: nat): int { FromBytes(op, At(m, a), At(m, a + 1), At(m, a + 2), At(m, a + 3)) }

  lemma Loads(env: Env, imem: Imem, c: Cpu, op: nat, rs: nat, rt: nat, imm: nat)
    requires c.pc < 1024 && IsImmediate(imem[c.pc], op, rs, rt, imm) && op in {32, 33, 35, 36, 37, 39}
    ensures Writes(env, imem, c, rt, Loaded(c.world.dmem, op, DataAddress(c.regs, rs, imm)) % 0x1_0000_0000)
  {
    ImmediateFields(imem[c.pc], op, rs, rt, imm);
    AddressIs(c.regs, imem[c.pc], op, rs, rt, imm);
    FetchIs(c.world.dmem, op, DataAddress(c.regs, rs, imm));
    StepOf(env, imem, c, Load(AccessOf(op), rt, rs));
  }

  function AccessOf(op: nat): Access {
    match op
    case 32 => AccessByte
    case 33 => AccessHalf
    case 36 => AccessByteU
    case 37 => AccessHalfU
    case _ => AccessWord
  }

  lemma FetchIs(m: Memory, op: nat, a: nat)
    ensures Fetch(m, AccessOf(op), a) == Loaded(m, op, a) % 0x1_0000_0000
  {
    FetchBytes(m, op, a, Get(m, a), Get(m, a + 1), Get(m, a + 2), Get(m, a + 3));
    GetIsAt(m, a);
    GetIsAt(m, a + 1);
    GetIsAt(m, a + 2);
    GetIsAt(m, a + 3);
  }

  /** The same by kind of access. */
  function OfAccess(access: Access, b0: Byte, b1: Byte, b2: Byte, b3: Byte): Word {
    match access
    case AccessByte => Sign8(b0)
    case AccessByteU => b0
    case AccessHalf => Sign16(256 * b0 + b1)
    case AccessHalfU => 256 * b0 + b1
    case AccessWord => 0x100_0000 * b0 + 0x1_0000 * b1 + 256 * b2 + b3
  }

  lemma FetchBytes(m: Memory, op: nat, a: nat, b0: Byte, b1: Byte, b2: Byte, b3: Byte)
    requires b0 == Get(m, a) && b1 == Get(m, a + 1) && b2 == Get(m, a + 2) && b3 == Get(m, a + 3)
    ensures Fetch(m, AccessOf(op), a) == FromBytes(op, b0, b1, b2, b3) % 0x1_0000_0000
  {
    assert Fetch(m, AccessOf(op), a) == OfAccess(AccessOf(op), b0, b1, b2, b3);
    OfBytes(op, b0, b1, b2, b3);
  }

  lemma OfBytes(op: nat, b0: Byte, b1: Byte, b2: Byte, b3: Byte)
    ensures OfAccess(AccessOf(op), b0, b1, b2, b3) == FromBytes(op, b0, b1, b2, b3) % 0x1_0000_0000
  {
    match op
    case 32 => SignedByte(b0);
    case 33 => SignedHalf(b0, b1);
    case 36 =>
    case 37 =>
    case _ => UnsignedWord(b0, b1, b2, b3);
  }

  lemma GetIsAt(m: Memory, a: nat)
    ensures Get(m, a) == At(m, a)
  {
  }

  lemma SignedByte(b: Byte)
    ensures Sign8(b) == (if b >= 128 then b - 256 else b) % 0x1_0000_0000
  {
  }

  lemma SignedHalf(b: Byte, c: Byte)
    ensures Sign16(256 * b + c) == (if b >= 128 then b * 256 + c - 0x1_0000 else b * 256 + c) % 0x1_0000_0000
  {
  }

  lemma UnsignedWord(b: Byte, c: Byte, d: Byte, e: Byte)
    ensures 0 <= b * 0x100_0000 + c * 0x1_0000 + d * 256 + e < 0x1_0000_0000
  {
  }

  /** How many bytes SB (40), SH (41) and SW (43) store. */
  function Width(op: nat): nat { if op == 40 then 1 else if op == 41 then 2 else 4 }

  /** How far the byte at x lies behind a, going round. */
  function Behind(x: nat, a: nat): nat
    requires x < 4096 && a < 4096
  {
    if x >= a then x - a else x + 4096 - a
  }

  /** Byte i of n, the most significant first. */
  function BigEndian(v: Word, n: nat, i: nat): nat
    requires i < n <= 4
  {
    if n - 1 - i == 0 then v % 256 else if n - 1 - i == 1 then v / 256 % 256 else if n - 1 - i == 2 then v / 0x1_0000 % 256 else v / 0x100_0000
  }

  lemma Stores(env: Env, imem: Imem, c: Cpu, op: nat, rs: nat, rt: nat, imm: nat) returns (m: Memory)
    requires c.pc < 1024 && IsImmediate(imem[c.pc], op, rs, rt, imm) && op in {40, 41, 43}
    ensures Goes(env, imem, c, c.regs, World(m, c.world.cop), NoSlot)
    ensures var a, n := DataAddress(c.regs, rs, imm), Width(op);
            forall x: nat :: x < 4096 ==>
              At(m, x) == if Behind(x, a) < n then BigEndian(V(c.regs, rt), n, Behind(x, a)) else At(c.world.dmem, x)
  {
    ImmediateFields(imem[c.pc], op, rs, rt, imm);
    AddressIs(c.regs, imem[c.pc], op, rs, rt, imm);
    var a := DataAddress(c.regs, rs, imm);
    var access := if op == 40 then AccessByte else if op == 41 then AccessHalf else AccessWord;
    m := Deposit(c.world.dmem, access, a, V(c.regs, rt));
    StepOf(env, imem, c, Store(access, rt, rs));
    forall x: nat | x < 4096
      ensures At(m, x) == if Behind(x, a) < Width(op) then BigEndian(V(c.regs, rt), Width(op), Behind(x, a)) else At(c.world.dmem, x)
    {
      DepositAt(c.world.dmem, op, a, V(c.regs, rt), x);
    }
  }

  lemma PutAt(m: Memory, a: nat, v: Byte, x: nat)
    requires x < 4096
    ensures At(Put(m, a, v), x) == if x == a % 4096 then v else At(m, x)
  {
    PutLane(m, a % 4096, v, x);
  }

  lemma PutLane(m: Memory, y: nat, v: Byte, x: nat)
    requires x < 4096 && y < 4096
    ensures x % 4096 == x && 0 <= Lane3(y) < 4096 && 0 <= Lane3(x) < 4096
    ensures m[Lane3(y) := v][Lane3(x)] == if x == y then v else m[Lane3(x)]
  {
    LanesApart(x, y);
  }

  lemma LanesApart(x: nat, y: nat)
    requires x < 4096 && y < 4096
    ensures 0 <= Lane3(x) < 4096 && 0 <= Lane3(y) < 4096 && (Lane3(x) == Lane3(y) <==> x == y)
  {
  }

  lemma NextPlace(a: nat, k: nat, x: nat)
    requires a < 4096 && k < 4 && x < 4096
    ensures x == (a + k) % 4096 <==> Behind(x, a) == k
  {
  }

  lemma DepositAt(m: Memory, op: nat, a: nat, v: Word, x: nat)
    requires op in {40, 41, 43} && a < 4096 && x < 4096
    ensures var access := if op == 40 then AccessByte else if op == 41 then AccessHalf else AccessWord;
            At(Deposit(m, access, a, v), x) == if Behind(x, a) < Width(op) then BigEndian(v, Width(op), Behind(x, a)) else At(m, x)
  {
    NextPlace(a, 0, x);
    NextPlace(a, 1, x);
    NextPlace(a, 2, x);
    NextPlace(a, 3, x);
    if op == 40 {
      PutAt(m, a, ByteOf(v, 0), x);
    } else if op == 41 {
      var m1 := Put(m, a, ByteOf(v, 1));
      PutAt(m, a, ByteOf(v, 1), x);
      PutAt(m1, a + 1, ByteOf(v, 0), x);
    } else {
      WordAt(m, a, v, x);
    }
  }

  lemma WordAt(m: Memory, a: nat, v: Word, x: nat)
    requires a < 4096 && x < 4096
    ensures At(Deposit(m, AccessWord, a, v), x) == if Behind(x, a) < 4 then BigEndian(v, 4, Behind(x, a)) else At(m, x)
  {
    NextPlace(a, 0, x);
    NextPlace(a, 1, x);
    NextPlace(a, 2, x);
    NextPlace(a, 3, x);
    var m1 := Put(m, a, ByteOf(v, 3));
    var m2 := Put(m1, a + 1, ByteOf(v, 2));
    var m3 := Put(m2, a + 2, ByteOf(v, 1));
    PutAt(m, a, ByteOf(v, 3), x);
    PutAt(m1, a + 1, ByteOf(v, 2), x);
    PutAt(m2, a + 2, ByteOf(v, 1), x);
    PutAt(m3, a + 3, ByteOf(v, 0), x);
    TopByte(v);
  }

  lemma TopByte(v: Word)
    ensures ByteOf(v, 3) == v / 0x100_0000
  {
  }

  // ----- branches, jumps and links -----

  function BranchWord(pc: nat, imm: nat): nat
    requires imm < 0x1_0000
  {
    (pc + 1 + Offset(imm)) % 1024
  }

  /** The step takes the branch or not, and does nothing else. */
  predicate Branches(env: Env, imem: Imem, c: Cpu, regs: Regs, taken: bool, target: nat)
    requires c.pc < 1024
  {
    Goes(env, imem, c, regs, c.world, if taken then Slot(target) else NoSlot)
  }

  /** BEQ (4), BNE (5), BLEZ (6), BGTZ (7). */
  lemma ComparingBranches(env: Env, imem: Imem, c: Cpu, op: nat, rs: nat, rt: nat, imm: nat)
    requires c.pc < 1024 && IsImmediate(imem[c.pc], op, rs, rt, imm)
    ensures op == 4 ==> Branches(env, imem, c, c.regs, V(c.regs, rs) == V(c.regs, rt), BranchWord(c.pc, imm))
    ensures op == 5 ==> Branches(env, imem, c, c.regs, V(c.regs, rs) != V(c.regs, rt), BranchWord(c.pc, imm))
    ensures op == 6 ==> Branches(env, imem, c, c.regs, S(V(c.regs, rs)) <= 0, BranchWord(c.pc, imm))
    ensures op == 7 ==> Branches(env, imem, c, c.regs, S(V(c.regs, rs)) > 0, BranchWord(c.pc, imm))
  {
    TargetIs(c.pc, imem[c.pc], op, rs, rt, imm);
    if op == 4 || op == 5 {
      BranchDecoded(imem[c.pc], op, rs, rt, imm);
      StepEqual(env, imem, c, if op == 4 then Eq else Ne, rs, rt);
    } else if op == 6 || op == 7 {
      BranchDecoded(imem[c.pc], op, rs, rt, imm);
      StepSign(env, imem, c, if op == 6 then LeS else GtS, rs);
    }
  }

  lemma BranchDecoded(w: Word, op: nat, rs: nat, rt: nat, imm: nat)
    requires IsImmediate(w, op, rs, rt, imm) && 4 <= op <= 7
    ensures Decode(w) == if op == 4 then BranchEqual(Eq, rs, rt) else if op == 5 then BranchEqual(Ne, rs, rt)
                         else if op == 6 then BranchZero(LeS, rs, false) else BranchZero(GtS, rs, false)
  {
    ImmediateFields(w, op, rs, rt, imm);
  }

  lemma TargetIs(pc: nat, w: Word, op: nat, rs: nat, rt: nat, imm: nat)
    requires IsImmediate(w, op, rs, rt, imm)
    ensures BranchTarget(pc, w) == BranchWord(pc, imm)
  {
    ImmediateFields(w, op, rs, rt, imm);
  }

  /** BLTZ (0), BGEZ (1), BLTZAL (16), BGEZAL (17); the others do nothing. The link is written whether or not the branch is taken. */
  lemma SignBranches(env: Env, imem: Imem, c: Cpu, rs: nat, rt: nat, imm: nat)
    requires c.pc < 1024 && IsImmediate(imem[c.pc], 1, rs, rt, imm)
    ensures rt == 0 ==> Branches(env, imem, c, c.regs, S(V(c.regs, rs)) < 0, BranchWord(c.pc, imm))
    ensures rt == 1 ==> Branches(env, imem, c, c.regs, S(V(c.regs, rs)) >= 0, BranchWord(c.pc, imm))
    ensures rt == 16 ==> Branches(env, imem, c, With(c.regs, 31, (4 * c.pc + 8) % 4096), S(V(c.regs, rs)) < 0, BranchWord(c.pc, imm))
    ensures rt == 17 ==> Branches(env, imem, c, With(c.regs, 31, (4 * c.pc + 8) % 4096), S(V(c.regs, rs)) >= 0, BranchWord(c.pc, imm))
    ensures rt !in {0, 1, 16, 17} ==> Goes(env, imem, c, c.regs, c.world, NoSlot)
  {
    TargetIs(c.pc, imem[c.pc], 1, rs, rt, imm);
    SignDecoded(imem[c.pc], rs, rt, imm);
    if rt == 0 || rt == 1 {
      StepSign(env, imem, c, if rt == 0 then LtS else GeS, rs);
    } else if rt == 16 || rt == 17 {
      LinkIs(c.regs, 31, c.pc);
      StepSignLink(env, imem, c, if rt == 16 then LtS else GeS, rs);
    } else {
      StepNothing(env, imem, c);
    }
  }

  lemma SignDecoded(w: Word, rs: nat, rt: nat, imm: nat)
    requires IsImmediate(w, 1, rs, rt, imm)
    ensures Decode(w) == if rt == 0 then BranchZero(LtS, rs, false) else if rt == 1 then BranchZero(GeS, rs, false)
                         else if rt == 16 then BranchZero(LtS, rs, true) else if rt == 17 then BranchZero(GeS, rs, true) else Nop
  {
    ImmediateFields(w, 1, rs, rt, imm);
  }

  /** J (2) and JAL (3) to a 26-bit target. */
  lemma Jumps(env: Env, imem: Imem, c: Cpu, op: nat, target: nat)
    requires c.pc < 1024 && (op == 2 || op == 3) && target < 0x400_0000 && imem[c.pc] == op * 0x400_0000 + target
    ensures op == 2 ==> Branches(env, imem, c, c.regs, true, target % 1024)
    ensures op == 3 ==> Branches(env, imem, c, With(c.regs, 31, (4 * c.pc + 8) % 4096), true, target % 1024)
  {
    var w := imem[c.pc];
    DivConst(w, 0x400_0000, op, target);
    DivConst(w, 0x200_0000, 2 * op + target / 0x200_0000, target % 0x200_0000);
    JumpWords(op, target);
  }

  lemma JumpWords(op: nat, target: nat)
    ensures (op * 0x400_0000 + target) % 1024 == target % 1024
  {
    assert op * 0x400_0000 + target == target + 1024 * (op * 0x1_0000);
    Kilo(target, op * 0x1_0000);
  }

  lemma Kilo(x: nat, k: nat)
    ensures (x + 1024 * k) % 1024 == x % 1024
  {
  }

  /** JR (8) and JALR (9): the register is read before the link is written. */
  lemma RegisterJumps(env: Env, imem: Imem, c: Cpu, rs: nat, rt: nat, rd: nat, sa: nat, f: nat)
    requires c.pc < 1024 && IsRegister(imem[c.pc], rs, rt, rd, sa, f) && (f == 8 || f == 9)
    ensures f == 8 ==> Branches(env, imem, c, c.regs, true, V(c.regs, rs) % 4096 / 4)
    ensures f == 9 ==> Branches(env, imem, c, With(c.regs, rd, (4 * c.pc + 8) % 4096), true, V(c.regs, rs) % 4096 / 4)
  {
    RegisterFields(imem[c.pc], rs, rt, rd, sa, f);
  }

  /** BREAK (13): the run stops in mode 2 behind the instruction, or at a pending target. */
  lemma Breaks(env: Env, imem: Imem, c: Cpu, rs: nat, rt: nat, rd: nat, sa: nat)
    requires c.pc < 1024 && IsRegister(imem[c.pc], rs, rt, rd, sa, 13)
    ensures Step(env, imem, c)
         == Stopped(2, Cpu(c.regs, if c.pending.Slot? then c.pending.target else if c.pc == 1023 then 0 else c.pc + 1, NoSlot, c.world))
  {
    RegisterFields(imem[c.pc], rs, rt, rd, sa, 13);
    StepBreak(env, imem, c);
  }

  lemma StepBreak(env: Env, imem: Imem, c: Cpu)
    requires c.pc < 1024 && Decode(imem[c.pc]) == Break
    ensures Step(env, imem, c)
         == Stopped(2, Cpu(c.regs, if c.pending.Slot? then c.pending.target else if c.pc == 1023 then 0 else c.pc + 1, NoSlot, c.world))
  {
  }

  // ----- coprocessors -----

  /** The run stops in modes 2, 3 and 4 and goes on in any other. */
  predicate Returns(env: Env, imem: Imem, c: Cpu, regs: Regs, world: World, mode: Word)
    requires c.pc < 1024
  {
    var next := Cpu(regs, if c.pending.Slot? then c.pending.target else if c.pc == 1023 then 0 else c.pc + 1, NoSlot, world);
    Step(env, imem, c) == if mode == 2 || mode == 3 || mode == 4 then Stopped(mode, next) else Running(next)
  }

  /** Opcode 16: MFC0 (0) and MTC0 (4) call their handlers with the register numbers and the value of rt. */
  lemma SystemMoves(env: Env, imem: Imem, c: Cpu, rs: nat, rt: nat, rd: nat, low: nat)
    requires c.pc < 1024 && rd < 32 && low < 0x800 && IsImmediate(imem[c.pc], 16, rs, rt, rd * 0x800 + low)
    ensures rs == 0 ==> var r := env.fromC0(c.world, rt, rd); Returns(env, imem, c, With(c.regs, rt, r.value), r.world, r.mode)
    ensures rs == 4 ==> var r := env.toC0(c.world, rd, V(c.regs, rt)); Returns(env, imem, c, c.regs, r.world, r.mode)
    ensures rs != 0 && rs != 4 ==> Goes(env, imem, c, c.regs, c.world, NoSlot)
  {
    ImmediateFields(imem[c.pc], 16, rs, rt, rd * 0x800 + low);
    DestinationField(imem[c.pc], 16, rs, rt, rd, low);
  }

  lemma DestinationField(w: Word, op: nat, rs: nat, rt: nat, rd: nat, low: nat)
    requires rd < 32 && low < 0x800 && IsImmediate(w, op, rs, rt, rd * 0x800 + low)
    ensures Rd(w) == rd
  {
    DivConst(w, 0x800, ((op * 32 + rs) * 32 + rt) * 32 + rd, low);
  }

  /** Opcode 18: MFC2, CFC2 (0, 2), MTC2, CTC2 (4, 6), vector operations (16 and above). */
  lemma VectorMoves(env: Env, imem: Imem, c: Cpu, rs: nat, rt: nat, imm: nat)
    requires c.pc < 1024 && IsImmediate(imem[c.pc], 18, rs, rt, imm)
    ensures rs == 0 || rs == 2 ==> Goes(env, imem, c, With(c.regs, rt, env.fromC2(c.world, imem[c.pc])), c.world, NoSlot)
    ensures rs == 4 || rs == 6 ==> Goes(env, imem, c, c.regs, env.toC2(c.world, imem[c.pc], V(c.regs, rt)), NoSlot)
    ensures rs >= 16 ==> Goes(env, imem, c, c.regs, env.vector(c.world, imem[c.pc]), NoSlot)
    ensures rs < 16 && rs !in {0, 2, 4, 6} ==> Goes(env, imem, c, c.regs, c.world, NoSlot)
  {
    ImmediateFields(imem[c.pc], 18, rs, rt, imm);
  }

  /** Opcodes 50 (LWC2) and 58 (SWC2): twelve transfers, of which LWC2 lacks number 10. */
  lemma VectorTransfers(env: Env, imem: Imem, c: Cpu, op: nat, rs: nat, rt: nat, rd: nat, low: nat)
    requires c.pc < 1024 && (op == 50 || op == 58) && rd < 32 && low < 0x800 && IsImmediate(imem[c.pc], op, rs, rt, rd * 0x800 + low)
    ensures if rd < 12 && (op == 58 || rd != 10) then Goes(env, imem, c, c.regs, env.vectorMemory(c.world, imem[c.pc], V(c.regs, rs)), NoSlot)
            else Goes(env, imem, c, c.regs, c.world, NoSlot)
  {
    ImmediateFields(imem[c.pc], op, rs, rt, rd * 0x800 + low);
    DestinationField(imem[c.pc], op, rs, rt, rd, low);
  }

  /** Every other opcode does nothing. */
  lemma ReservedOpcode(env: Env, imem: Imem, c: Cpu, op: nat, rs: nat, rt: nat, imm: nat)
    requires c.pc < 1024 && IsImmediate(imem[c.pc], op, rs, rt, imm)
    requires op >= 16 && op !in {16, 18, 32, 33, 35, 36, 37, 39, 40, 41, 43, 50, 58}
    ensures Goes(env, imem, c, c.regs, c.world, NoSlot)
  {
    ImmediateFields(imem[c.pc], op, rs, rt, imm);
  }

  // ----- every word has these fields -----

  /** So the cases above cover every instruction word. */
  lemma EveryWord(w: Word) returns (op: nat, rs: nat, rt: nat, imm: nat)
    ensures IsImmediate(w, op, rs, rt, imm)
  {
    imm := w % 0x1_0000;
    var high: nat := w / 0x1_0000;
    rt := high % 32;
    rs := high / 32 % 32;
    op := high / 32 / 32;
  }
}
