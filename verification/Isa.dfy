/**
 * The reference machine: an RSP scalar unit that executes one instruction per step and keeps the
 * architectural state (registers, program counter, pending branch target) and nothing else.
 *
 * Coprocessor work is opaque: an `Env` supplies it as functions of the coprocessor and memory state
 * and of exactly the register values the handlers read.
 */
module Isa {
  import opened Words
  import opened Dmem

  type Regs = s: seq<Word> | |s| == 32 witness seq(32, _ => 0)
  type Imem = s: seq<Word> | |s| == MEM_WORDS witness seq(MEM_WORDS, _ => 0)

  datatype World = World(dmem: Memory, cop: seq<Word>)

  datatype C0Result = C0Result(world: World, value: Word, mode: Word)

  datatype Env = Env(
    vector: (World, Word) -> World,                 // VU operation
    fromC0: (World, nat, nat) -> C0Result,          // RSP_MFC0(rt, rd)
    toC0: (World, nat, Word) -> C0Result,           // RSP_MTC0(rd, value of rt)
    fromC2: (World, Word) -> Word,                  // RSP_MFC2, RSP_CFC2
    toC2: (World, Word, Word) -> World,             // RSP_MTC2, RSP_CTC2 (value of rt)
    vectorMemory: (World, Word, Word) -> World,     // LWC2, SWC2 (value of the base register)
    hostRegisters: nat,                             // allocatable host registers
    callerSaved: nat,                               // how many of them a call may destroy
    scratch: (World, nat) -> Host                   // what it leaves in them
  )

  const MODE_CONTINUE: Word := 1
  const MODE_BREAK: Word := 2
  const MODE_DMA_READ: Word := 3
  const MODE_CHECK_FLAGS: Word := 4

  // ----- decoding -----

  function Opcode(w: Word): nat { w / 0x400_0000 }
  function Funct(w: Word): nat { w % 64 }
  function Rs(w: Word): (r: nat)
    ensures r < 32
  {
    (w / 0x20_0000) % 32
  }
  function Rt(w: Word): (r: nat)
    ensures r < 32
  {
    (w / 0x1_0000) % 32
  }
  function Rd(w: Word): (r: nat)
    ensures r < 32
  {
    (w / 0x800) % 32
  }
  function Shamt(w: Word): (r: Word)
    ensures r < 32
  {
    (w / 64) % 32
  }
  function Imm(w: Word): nat { w % 0x1_0000 }
  function SImm(w: Word): Word { Sign16(Imm(w)) }
  predicate IsVector(w: Word) { w / 0x200_0000 == 0x25 }

  datatype Instr =
    | Nop
    | Vector
    | Shift(op: AluOp, rd: nat, rt: nat, amount: Word)
    | ShiftReg(op: AluOp, rd: nat, rt: nat, rs: nat)
    | Alu(op: AluOp, rd: nat, rs: nat, rt: nat)
    | Nor(rd: nat, rs: nat, rt: nat)
    | AluImm(op: AluOp, rt: nat, rs: nat, imm: Word)
    | Lui(rt: nat, imm: Word)
    | Jr(rs: nat)
    | Jalr(rd: nat, rs: nat)
    | Break
    | Jump(link: bool)
    | BranchZero(op: AluOp, rs: nat, link: bool)
    | BranchEqual(op: AluOp, rs: nat, rt: nat)
    | MoveFromC0(rt: nat, rd: nat)
    | MoveToC0(rt: nat, rd: nat)
    | MoveFromC2(rt: nat)
    | MoveToC2(rt: nat)
    | Load(access: Access, rt: nat, rs: nat)
    | Store(access: Access, rt: nat, rs: nat)
    | VectorMemory(rs: nat)

  function DecodeSpecial(w: Word): Instr {
    match Funct(w)
    case 0 => Shift(Shl, Rd(w), Rt(w), Shamt(w))
    case 2 => Shift(ShrU, Rd(w), Rt(w), Shamt(w))
    case 3 => Shift(ShrS, Rd(w), Rt(w), Shamt(w))
    case 4 => ShiftReg(Shl, Rd(w), Rt(w), Rs(w))
    case 6 => ShiftReg(ShrU, Rd(w), Rt(w), Rs(w))
    case 7 => ShiftReg(ShrS, Rd(w), Rt(w), Rs(w))
    case 8 => Jr(Rs(w))
    case 9 => Jalr(Rd(w), Rs(w))
    case 13 => Break
    case 32 | 33 => Alu(Add, Rd(w), Rs(w), Rt(w))
    case 34 | 35 => Alu(Sub, Rd(w), Rs(w), Rt(w))
    case 36 => Alu(And, Rd(w), Rs(w), Rt(w))
    case 37 => Alu(Or, Rd(w), Rs(w), Rt(w))
    case 38 => Alu(Xor, Rd(w), Rs(w), Rt(w))
    case 39 => Nor(Rd(w), Rs(w), Rt(w))
    case 42 => Alu(LtS, Rd(w), Rs(w), Rt(w))
    case 43 => Alu(LtU, Rd(w), Rs(w), Rt(w))
    case _ => Nop
  }

  function DecodeRegimm(w: Word): Instr {
    match Rt(w)
    case 0 => BranchZero(LtS, Rs(w), false)
    case 1 => BranchZero(GeS, Rs(w), false)
    case 16 => BranchZero(LtS, Rs(w), true)
    case 17 => BranchZero(GeS, Rs(w), true)
    case _ => Nop
  }

  function DecodeCop0(w: Word): Instr {
    match Rs(w)
    case 0 => MoveFromC0(Rt(w), Rd(w))
    case 4 => MoveToC0(Rt(w), Rd(w))
    case _ => Nop
  }

  function DecodeCop2(w: Word): Instr {
    match Rs(w)
    case 0 | 2 => MoveFromC2(Rt(w))
    case 4 | 6 => MoveToC2(Rt(w))
    case _ => Nop
  }

  function DecodeImmediate(w: Word): Instr {
    match Opcode(w)
    case 8 | 9 => AluImm(Add, Rt(w), Rs(w), SImm(w))
    case 10 => AluImm(LtS, Rt(w), Rs(w), SImm(w))
    case 11 => AluImm(LtU, Rt(w), Rs(w), SImm(w))
    case 12 => AluImm(And, Rt(w), Rs(w), Imm(w))
    case 13 => AluImm(Or, Rt(w), Rs(w), Imm(w))
    case 14 => AluImm(Xor, Rt(w), Rs(w), Imm(w))
    case _ => Lui(Rt(w), Imm(w) * 0x1_0000)
  }

  function DecodeMemory(w: Word): Instr {
    match Opcode(w)
    case 32 => Load(AccessByte, Rt(w), Rs(w))
    case 33 => Load(AccessHalf, Rt(w), Rs(w))
    case 35 | 39 => Load(AccessWord, Rt(w), Rs(w))
    case 36 => Load(AccessByteU, Rt(w), Rs(w))
    case 37 => Load(AccessHalfU, Rt(w), Rs(w))
    case 40 => Store(AccessByte, Rt(w), Rs(w))
    case 41 => Store(AccessHalf, Rt(w), Rs(w))
    case 43 => Store(AccessWord, Rt(w), Rs(w))
    case 50 => if Rd(w) < 12 && Rd(w) != 10 then VectorMemory(Rs(w)) else Nop
    case 58 => if Rd(w) < 12 then VectorMemory(Rs(w)) else Nop
    case _ => Nop
  }

  function DecodeBranch(w: Word): Instr {
    match Opcode(w)
    case 1 => DecodeRegimm(w)
    case 2 => Jump(false)
    case 3 => Jump(true)
    case 4 => BranchEqual(Eq, Rs(w), Rt(w))
    case 5 => BranchEqual(Ne, Rs(w), Rt(w))
    case 6 => BranchZero(LeS, Rs(w), false)
    case _ => BranchZero(GtS, Rs(w), false)
  }

  function Decode(w: Word): Instr {
    if IsVector(w) then Vector
    else if Opcode(w) == 0 then DecodeSpecial(w)
    else if Opcode(w) < 8 then DecodeBranch(w)
    else if Opcode(w) < 16 then DecodeImmediate(w)
    else if Opcode(w) == 16 then DecodeCop0(w)
    else if Opcode(w) == 18 then DecodeCop2(w)
    else DecodeMemory(w)
  }

  /** A branch target: the signed 16-bit word offset is taken from the delay slot. */
  function BranchTarget(pc: nat, w: Word): nat { (pc + 1 + Signed(SImm(w))) % MEM_WORDS }

  function JumpTarget(w: Word): nat { w % MEM_WORDS }

  function LinkValue(pc: nat): Word { Addr(pc + 2) }

  /** Register numbers and operations that decoding can produce. */
  predicate WellShaped(d: Instr) {
    match d
    case Shift(op, rd, rt, amount) => IsShift(op) && rd < 32 && rt < 32 && amount < 32
    case ShiftReg(op, rd, rt, rs) => IsShift(op) && rd < 32 && rt < 32 && rs < 32
    case Alu(op, rd, rs, rt) => !IsShift(op) && (IsCompare(op) ==> op.LtS? || op.LtU?) && rd < 32 && rs < 32 && rt < 32
    case Nor(rd, rs, rt) => rd < 32 && rs < 32 && rt < 32
    case AluImm(op, rt, rs, imm) => !IsShift(op) && (IsCompare(op) ==> op.LtS? || op.LtU?) && rs < 32 && rt < 32
    case Lui(rt, _) => rt < 32
    case Jr(rs) => rs < 32
    case Jalr(rd, rs) => rd < 32 && rs < 32
    case BranchZero(op, rs, link) => (op.LtS? || op.GeS? || op.LeS? || op.GtS?) && rs < 32 && (link ==> op.LtS? || op.GeS?)
    case BranchEqual(op, rs, rt) => (op.Eq? || op.Ne?) && rs < 32 && rt < 32
    case MoveFromC0(rt, _) => rt < 32
    case MoveToC0(rt, _) => rt < 32
    case MoveFromC2(rt) => rt < 32
    case MoveToC2(rt) => rt < 32
    case Load(_, rt, rs) => rt < 32 && rs < 32
    case Store(_, rt, rs) => rt < 32 && rs < 32
    case VectorMemory(rs) => rs < 32
    case _ => true
  }

  lemma DecodeShape(w: Word)
    ensures WellShaped(Decode(w))
  {
    SpecialShape(w);
    BranchShape(w);
    ImmediateShape(w);
    MemoryShape(w);
  }

  lemma BranchShape(w: Word)
    ensures WellShaped(DecodeBranch(w))
  {
  }

  lemma ImmediateShape(w: Word)
    ensures WellShaped(DecodeImmediate(w))
  {
  }

  lemma MemoryShape(w: Word)
    ensures WellShaped(DecodeMemory(w))
  {
  }

  lemma SpecialShape(w: Word)
    ensures WellShaped(DecodeSpecial(w))
  {
  }

  // ----- execution -----

  /** A taken branch waits until the instruction after it has run. */
  datatype Pending = NoSlot | Slot(target: nat)

  datatype Effect = Effect(regs: Regs, world: World, jump: Pending, mode: Word)

  function SetReg(regs: Regs, k: nat, v: Word): Regs {
    if 0 < k < 32 then regs[k := v] else regs
  }

  function Reg(regs: Regs, k: nat): Word { if 0 < k < 32 then regs[k] else 0 }

  function Quiet(regs: Regs, world: World): Effect { Effect(regs, world, NoSlot, MODE_CONTINUE) }

  function Address(regs: Regs, rs: nat, w: Word): nat { (Reg(regs, rs) + SImm(w)) % W % 4096 }

  function Execute(env: Env, w: Word, pc: nat, regs: Regs, world: World): Effect {
    Perform(env, Decode(w), w, pc, regs, world)
  }

  function Perform(env: Env, d: Instr, w: Word, pc: nat, regs: Regs, world: World): Effect {
    match d
    case Nop => Quiet(regs, world)
    case Vector => Quiet(regs, env.vector(world, w))
    case Shift(op, rd, rt, amount) => Quiet(SetReg(regs, rd, Alu32(op, Reg(regs, rt), amount)), world)
    case ShiftReg(op, rd, rt, rs) => Quiet(SetReg(regs, rd, Alu32(op, Reg(regs, rt), Reg(regs, rs) % 32)), world)
    case Alu(op, rd, rs, rt) => Quiet(SetReg(regs, rd, Alu32(op, Reg(regs, rs), Reg(regs, rt))), world)
    case Nor(rd, rs, rt) => Quiet(SetReg(regs, rd, W - 1 - Alu32(Or, Reg(regs, rt), Reg(regs, rs))), world)
    case AluImm(op, rt, rs, imm) => Quiet(SetReg(regs, rt, Alu32(op, Reg(regs, rs), imm)), world)
    case Lui(rt, imm) => Quiet(SetReg(regs, rt, imm), world)
    case Jr(rs) => Effect(regs, world, Slot(WordIndex(Reg(regs, rs))), MODE_CONTINUE)
    case Jalr(rd, rs) =>
      Effect(SetReg(regs, rd, LinkValue(pc)), world, Slot(WordIndex(Reg(regs, rs))), MODE_CONTINUE)
    case Break => Effect(regs, world, NoSlot, MODE_BREAK)
    case Jump(link) =>
      Effect(if link then SetReg(regs, 31, LinkValue(pc)) else regs, world, Slot(JumpTarget(w)), MODE_CONTINUE)
    case BranchZero(op, rs, link) =>
      Effect(if link then SetReg(regs, 31, LinkValue(pc)) else regs, world,
             if Alu32(op, Reg(regs, rs), 0) != 0 then Slot(BranchTarget(pc, w)) else NoSlot, MODE_CONTINUE)
    case BranchEqual(op, rs, rt) =>
      Effect(regs, world,
             if Alu32(op, Reg(regs, rs), Reg(regs, rt)) != 0 then Slot(BranchTarget(pc, w)) else NoSlot, MODE_CONTINUE)
    case MoveFromC0(rt, rd) =>
      var r := env.fromC0(world, rt, rd);
      Effect(SetReg(regs, rt, r.value), r.world, NoSlot, r.mode)
    case MoveToC0(rt, rd) =>
      var r := env.toC0(world, rd, Reg(regs, rt));
      Effect(regs, r.world, NoSlot, r.mode)
    case MoveFromC2(rt) => Quiet(SetReg(regs, rt, env.fromC2(world, w)), world)
    case MoveToC2(rt) => Quiet(regs, env.toC2(world, w, Reg(regs, rt)))
    case Load(access, rt, rs) =>
      Quiet(SetReg(regs, rt, Fetch(world.dmem, access, Address(regs, rs, w))), world)
    case Store(access, rt, rs) =>
      Quiet(regs, world.(dmem := Deposit(world.dmem, access, Address(regs, rs, w), Reg(regs, rt))))
    case VectorMemory(rs) => Quiet(regs, env.vectorMemory(world, w, Reg(regs, rs)))
  }

  datatype Cpu = Cpu(regs: Regs, pc: nat, pending: Pending, world: World)

  datatype Progress = Running(cpu: Cpu) | Stopped(mode: Word, cpu: Cpu)

  /** A status returned by a coprocessor handler that makes `run` return to its caller. */
  predicate Halts(mode: Word) { mode == MODE_BREAK || mode == MODE_DMA_READ || mode == MODE_CHECK_FLAGS }

  function NextPc(c: Cpu): nat {
    match c.pending
    case NoSlot => (c.pc + 1) % MEM_WORDS
    case Slot(t) => t
  }

  /** One instruction: execute it, then go to the pending target or to the next word. */
  function Step(env: Env, imem: Imem, c: Cpu): Progress
    requires c.pc < MEM_WORDS
  {
    var e := Execute(env, imem[c.pc], c.pc, c.regs, c.world);
    var c' := Cpu(e.regs, NextPc(c), e.jump, e.world);
    if Halts(e.mode) then Stopped(e.mode, c') else Running(c')
  }
}
