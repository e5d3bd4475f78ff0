/**
 * Each instruction's code computes the reference effect: registers, memory and coprocessors, and a
 * branch outcome left in the condition register and the indirect-target register.
 */
module InstrProofs {
  import opened Words
  import opened Dmem
  import opened Isa
  import opened HostCode
  import opened RegCache
  import opened RegCacheProofs
  import opened Emitter
  import opened MemoryEmitter
  import opened Region
  import opened Recompiler

  /** The register file of the machine: the architectural registers and the branch condition. */
  function File(regs: Regs, cond: Word): RegFile { regs + [cond] }

  /** The word a branch described by `info` goes to. */
  function TargetWord(info: Info, indirect: Host): nat {
    if info.indirect then WordIndex(indirect.lo) else WordIndex(info.target % W)
  }

  lemma ModShift(x: int, k: int)
    ensures (x + k * 4096) % 4096 == x % 4096
    ensures (x + k * 1024) % 1024 == x % 1024
  {
    ModBytes(x, k);
    ModWords(x, k);
  }

  lemma ModBytes(x: int, k: int)
    ensures (x + k * 4096) % 4096 == x % 4096
  {
  }

  lemma ModWords(x: int, k: int)
    ensures (x + k * 1024) % 1024 == x % 1024
  {
  }

  lemma NestedMod(x: int)
    ensures x % W % 4096 == x % 4096
  {
    assert x == x % W + (x / W) * W && W == 0x10_0000 * 4096;
    assert x == x % W + ((x / W) * 0x10_0000) * 4096;
    ModShift(x % W, (x / W) * 0x10_0000);
  }

  lemma MulMod4(x: nat)
    ensures (4 * x) % 4096 == 4 * (x % 1024)
  {
  }

  /** Code generation's byte-address formula and the marking pass's word-address formula agree. */
  lemma ByteTargetIsWordTarget(at: nat, w: Word)
    ensures ByteTarget(at, w) == 4 * WordTarget(at, w)
  {
    var x := 4 * at + 4 + (4 * w) % W;
    NestedMod(x);
    ModShift(x, (4 * w) / W * 0x10_0000);
    assert 4 * (at + 1 + w) == x + ((4 * w) / W * 0x10_0000) * 4096;
    MulMod4(at + 1 + w);
  }

  /** Modulo the memory size, the signed 16-bit offset is the whole instruction word. */
  lemma BranchTargetIsWordTarget(at: nat, w: Word)
    ensures BranchTarget(at, w) == WordTarget(at, w)
  {
    var q := w / 0x1_0000;
    assert w == q * 0x1_0000 + Imm(w);
    var k := if Signed(SImm(w)) == Imm(w) then -64 * q else -64 * q - 64;
    assert Signed(SImm(w)) == w + k * MEM_WORDS;
    ModShift(at + 1 + w, k);
  }

  lemma TargetsAgree(at: nat, w: Word)
    ensures ByteTarget(at, w) == 4 * WordTarget(at, w)
    ensures BranchTarget(at, w) == WordTarget(at, w)
    ensures WordIndex(ByteTarget(at, w) % W) == WordTarget(at, w)
  {
    ByteTargetIsWordTarget(at, w);
    BranchTargetIsWordTarget(at, w);
  }

  // ----- data instructions -----

  lemma FileLookup(regs: Regs, cond: Word, k: nat)
    requires k < 32 && regs[0] == 0
    ensures File(regs, cond)[k] == Reg(regs, k)
  {
  }

  lemma FileUpdate(regs: Regs, cond: Word, k: nat, v: Word)
    requires 0 < k < 32
    ensures Set(File(regs, cond), k, v) == File(SetReg(regs, k, v), cond)
    ensures SetReg(regs, k, v)[0] == regs[0]
  {
  }

  lemma CondUpdate(regs: Regs, cond: Word, v: Word)
    ensures Set(File(regs, cond), COND, v) == File(regs, v)
  {
  }

  /** The code so far did what the reference effect says, and left the branch condition alone. */
  predicate DataDone(env: Env, g: Gen, m0: Machine, m': Machine, e: Effect, cond: Word) {
    && Ok(env, g, m0, m', File(e.regs, cond))
    && m' == m0.(host := m'.host, sr := m'.sr, world := e.world)
    && e.regs[0] == 0
  }

  predicate Start(env: Env, c: Cache, m: Machine, regs: Regs, cond: Word) {
    && Good(c, m, multiset{}, File(regs, cond)) && env.callerSaved == c.callerSaved && regs[0] == 0
  }

  lemma StartOk(env: Env, c: Cache, m: Machine, regs: Regs, cond: Word)
    requires Start(env, c, m, regs, cond)
    ensures Ok(env, Gen(c, []), m, m, File(regs, cond))
  {
  }

  predicate RegisterOnly(d: Instr) {
    d.Shift? || d.ShiftReg? || d.Alu? || d.Nor? || d.AluImm? || d.Lui? || d.Nop?
  }

  /** The register an instruction writes, and the value it writes there. */
  function Destination(d: Instr): nat {
    match d
    case Shift(_, rd, _, _) => rd
    case ShiftReg(_, rd, _, _) => rd
    case Alu(_, rd, _, _) => rd
    case Nor(rd, _, _) => rd
    case AluImm(_, rt, _, _) => rt
    case Lui(rt, _) => rt
    case _ => 0
  }

  function Result(d: Instr, rf: RegFile): Word
    requires WellShaped(d)
  {
    match d
    case Shift(op, _, rt, amount) => Alu32(op, rf[rt], amount)
    case ShiftReg(op, _, rt, rs) => Alu32(op, rf[rt], rf[rs] % 32)
    case Alu(op, _, rs, rt) => Alu32(op, rf[rs], rf[rt])
    case Nor(_, rs, rt) => W - 1 - Alu32(Or, rf[rt], rf[rs])
    case AluImm(op, _, rs, imm) => Alu32(op, rf[rs], imm)
    case Lui(_, imm) => imm
    case _ => 0
  }

  lemma RegisterSim(env: Env, g: Gen, m: Machine, rf: RegFile, d: Instr, w: Word) returns (m': Machine)
    requires Ok(env, g, m, m, rf) && WellShaped(d) && RegisterOnly(d) && Destination(d) != 0
    ensures Ok(env, EmitData(g, d, w), m, m', Set(rf, Destination(d), Result(d, rf))) && SameOutside(m, m')
  {
    match d
    case Shift(op, rd, rt, amount) => m' := UnarySim(env, g, m, m, rf, op, ShiftExt(op), rd, rt, ZeroExt(amount));
    case ShiftReg(op, rd, rt, rs) => m' := ShiftRegSim(env, g, m, m, rf, op, ShiftExt(op), rd, rt, rs);
    case Alu(op, rd, rs, rt) => m' := BinarySim(env, g, m, m, rf, op, AluExt(op), rd, rs, rt);
    case Nor(rd, rs, rt) => m' := NorSim(env, g, m, m, rf, rd, rs, rt);
    case AluImm(op, rt, rs, imm) => m' := ImmediateOpSim(env, g, m, rf, op, rt, rs, imm, w);
    case Lui(rt, imm) => m' := ConstantSim(env, g, m, m, rf, rt, imm);
  }

  lemma ImmediateOpSim(env: Env, g: Gen, m: Machine, rf: RegFile, op: AluOp, rt: nat, rs: nat, imm: Word, w: Word)
    returns (m': Machine)
    requires Ok(env, g, m, m, rf) && WellShaped(AluImm(op, rt, rs, imm)) && rt != 0
    ensures Ok(env, EmitData(g, AluImm(op, rt, rs, imm), w), m, m', Set(rf, rt, Alu32(op, rf[rs], imm))) && SameOutside(m, m')
  {
    if rs == 0 && (op.Add? || op.Or?) {
      m' := ConstantSim(env, g, m, m, rf, rt, imm);
      ConstantResult(op, imm);
    } else {
      m' := UnarySim(env, g, m, m, rf, op, ImmExt(op), rt, rs, SignExt(imm));
    }
  }

  lemma ConstantResult(op: AluOp, imm: Word)
    requires op.Add? || op.Or?
    ensures Alu32(op, 0, imm) == imm
  {
    if op.Or? {
      OrZeroWord(imm);
    }
  }

  lemma ResultIsEffect(env: Env, d: Instr, w: Word, at: nat, regs: Regs, cond: Word, world: World)
    requires WellShaped(d) && RegisterOnly(d) && regs[0] == 0
    ensures var e := Perform(env, d, w, at, regs, world);
            && e.world == world && e.regs[0] == 0
            && (Destination(d) == 0 ==> e.regs == regs)
            && (Destination(d) != 0 ==> File(e.regs, cond) == Set(File(regs, cond), Destination(d), Result(d, File(regs, cond))))
  {
    var k := Destination(d);
    if k != 0 {
      FileUpdate(regs, cond, k, Result(d, File(regs, cond)));
    }
  }

  lemma RegisterInstr(env: Env, c: Cache, m: Machine, regs: Regs, cond: Word, d: Instr, w: Word, at: nat) returns (m': Machine)
    requires Start(env, c, m, regs, cond) && WellShaped(d) && RegisterOnly(d)
    ensures DataDone(env, EmitData(Gen(c, []), d, w), m, m', Perform(env, d, w, at, regs, m.world), cond)
  {
    StartOk(env, c, m, regs, cond);
    ResultIsEffect(env, d, w, at, regs, cond, m.world);
    if Destination(d) == 0 {
      m' := m;
    } else {
      m' := RegisterSim(env, Gen(c, []), m, File(regs, cond), d, w);
    }
  }

  lemma LoadIsEffect(env: Env, d: Instr, w: Word, at: nat, regs: Regs, cond: Word, world: World)
    requires WellShaped(d) && d.Load? && regs[0] == 0
    ensures var e, rf := Perform(env, d, w, at, regs, world), File(regs, cond);
            && e.world == world && e.regs[0] == 0
            && (d.rt == 0 ==> e.regs == regs)
            && (d.rt != 0 ==> File(e.regs, cond) == Set(rf, d.rt, Fetch(world.dmem, d.access, AddressOf(rf[d.rs], SImm(w)))))
  {
    FileLookup(regs, cond, d.rs);
    if d.rt != 0 {
      FileUpdate(regs, cond, d.rt, Fetch(world.dmem, d.access, Address(regs, d.rs, w)));
    }
  }

  lemma LoadInstr(env: Env, c: Cache, m: Machine, regs: Regs, cond: Word, d: Instr, w: Word, at: nat) returns (m': Machine)
    requires Start(env, c, m, regs, cond) && WellShaped(d) && d.Load?
    ensures DataDone(env, EmitData(Gen(c, []), d, w), m, m', Perform(env, d, w, at, regs, m.world), cond)
  {
    StartOk(env, c, m, regs, cond);
    LoadIsEffect(env, d, w, at, regs, cond, m.world);
    if d.rt == 0 {
      m' := m;
    } else {
      m' := LoadTemplateSim(env, Gen(c, []), m, m, File(regs, cond), d.access, d.rt, d.rs, SImm(w));
    }
  }

  lemma StoreIsEffect(env: Env, d: Instr, w: Word, at: nat, regs: Regs, cond: Word, world: World)
    requires WellShaped(d) && d.Store? && regs[0] == 0
    ensures var e, rf := Perform(env, d, w, at, regs, world), File(regs, cond);
            && e.regs == regs
            && e.world == Stored(world, d.access, AddressOf(rf[d.rs], SImm(w)), rf[d.rt])
  {
    FileLookup(regs, cond, d.rs);
    FileLookup(regs, cond, d.rt);
  }

  lemma StoreInstr(env: Env, c: Cache, m: Machine, regs: Regs, cond: Word, d: Instr, w: Word, at: nat) returns (m': Machine)
    requires Start(env, c, m, regs, cond) && WellShaped(d) && d.Store?
    ensures DataDone(env, EmitData(Gen(c, []), d, w), m, m', Perform(env, d, w, at, regs, m.world), cond)
  {
    StartOk(env, c, m, regs, cond);
    StoreIsEffect(env, d, w, at, regs, cond, m.world);
    m' := StoreTemplateSim(env, Gen(c, []), m, m, File(regs, cond), d.access, d.rt, d.rs, SImm(w));
  }

  lemma CallInstr(env: Env, c: Cache, m: Machine, regs: Regs, cond: Word, d: Instr, w: Word, at: nat, kind: CallKind, r: nat)
    returns (m': Machine)
    requires Start(env, c, m, regs, cond) && r < 32
    requires || (d == Vector && kind == CallVector && r == 0) || (d == MoveFromC2(r) && kind == CallFromC2)
             || (d == MoveToC2(r) && kind == CallToC2) || (d == VectorMemory(r) && kind == CallMemory)
    ensures DataDone(env, EmitData(Gen(c, []), d, w), m, m', Perform(env, d, w, at, regs, m.world), cond)
  {
    StartOk(env, c, m, regs, cond);
    m' := CallSim(env, Gen(c, []), m, m, File(regs, cond), kind, r, w);
    CallFile(env, d, w, at, regs, cond, m.world, kind, r);
    CallEmitted(Gen(c, []), d, w, kind, r);
  }

  lemma CallEmitted(g: Gen, d: Instr, w: Word, kind: CallKind, r: nat)
    requires || (d == Vector && kind == CallVector && r == 0) || (d == MoveFromC2(r) && kind == CallFromC2)
             || (d == MoveToC2(r) && kind == CallToC2) || (d == VectorMemory(r) && kind == CallMemory)
    ensures EmitData(g, d, w) == EmitCall(g, kind, r, w)
  {
  }

  /** A handler call leaves the file and the world of the reference. */
  lemma CallFile(env: Env, d: Instr, w: Word, at: nat, regs: Regs, cond: Word, world: World, kind: CallKind, r: nat)
    requires r < 32 && regs[0] == 0
    requires || (d == Vector && kind == CallVector && r == 0) || (d == MoveFromC2(r) && kind == CallFromC2)
             || (d == MoveToC2(r) && kind == CallToC2) || (d == VectorMemory(r) && kind == CallMemory)
    ensures var e := Perform(env, d, w, at, regs, world);
            && e.regs[0] == 0 && CallRegs(env, kind, r, w, File(regs, cond), world) == File(e.regs, cond)
            && CallWorld(env, kind, r, w, File(regs, cond), world) == e.world
  {
    FileLookup(regs, cond, r);
    if r != 0 { FileUpdate(regs, cond, r, env.fromC2(world, w)); }
  }

  lemma DataInstr(env: Env, c: Cache, m: Machine, regs: Regs, cond: Word, d: Instr, w: Word, at: nat) returns (m': Machine)
    requires Start(env, c, m, regs, cond) && WellShaped(d) && IsData(d)
    ensures DataDone(env, EmitData(Gen(c, []), d, w), m, m', Perform(env, d, w, at, regs, m.world), cond)
  {
    match d
    case Load(_, _, _) => m' := LoadInstr(env, c, m, regs, cond, d, w, at);
    case Store(_, _, _) => m' := StoreInstr(env, c, m, regs, cond, d, w, at);
    case Vector => m' := CallInstr(env, c, m, regs, cond, d, w, at, CallVector, 0);
    case MoveFromC2(r) => m' := CallInstr(env, c, m, regs, cond, d, w, at, CallFromC2, r);
    case MoveToC2(r) => m' := CallInstr(env, c, m, regs, cond, d, w, at, CallToC2, r);
    case VectorMemory(r) => m' := CallInstr(env, c, m, regs, cond, d, w, at, CallMemory, r);
    case _ => m' := RegisterInstr(env, c, m, regs, cond, d, w, at);
  }
}
