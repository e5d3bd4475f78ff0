/**
 * Compiling a region: the code of each instruction followed by the code that resolves a pending
 * delay slot, the code after the last instruction, and the code for a slot inherited from the
 * previous block.
 */
module Recompiler {
  import opened Words
  import opened Isa
  import opened HostCode
  import opened RegCache
  import opened Emitter
  import opened MemoryEmitter
  import opened Region

  /** InstructionInfo; `target` is a byte address. */
  datatype Info = Info(target: nat, indirect: bool, branch: bool, conditional: bool, handlesSlot: bool)

  const NO_INFO: Info := Info(0, false, false, false, false)

  /** The byte-address target of a direct branch: (pc + 4 + (instr << 2)) & 0xffc in 32-bit arithmetic. */
  function ByteTarget(at: nat, w: Word): nat { (4 * at + 4 + (4 * w) % W) % W % 4096 / 4 * 4 }

  function DirectInfo(target: nat, conditional: bool): Info { Info(target, false, true, conditional, false) }

  /** What jit_instruction records; an unconditional jump whose slot can be entered sideways becomes conditional. */
  function InfoOf(w: Word, at: nat, slotIsEntry: bool): Info { InfoFor(Decode(w), w, at, slotIsEntry) }

  function InfoFor(d: Instr, w: Word, at: nat, slotIsEntry: bool): Info {
    match d
    case Jr(_) => Info(0, true, true, slotIsEntry, false)
    case Jalr(_, _) => Info(0, true, true, slotIsEntry, false)
    case Break => NO_INFO.(handlesSlot := true)
    case Jump(_) => DirectInfo((w % 1024) * 4, slotIsEntry)
    case BranchZero(op, rs, _) =>
      if op.GtS? && rs == 0 then NO_INFO else DirectInfo(ByteTarget(at, w), !(op.LeS? && rs == 0))
    case BranchEqual(_, _, _) => DirectInfo(ByteTarget(at, w), true)
    case _ => NO_INFO
  }

  predicate IsBranchInstr(d: Instr) { d.Jr? || d.Jalr? || d.Jump? || d.BranchZero? || d.BranchEqual? }

  // ----- branches -----

  /** FLUSH_IMPOSSIBLE_DELAY_SLOT: a second branch in a row must not lose the first one's outcome. */
  function EmitKeepSlot(g: Gen, last: Info): Gen {
    var g1 :=
      if last.branch && last.conditional then
        var g2 := LoadReg(g, COND, NoExt);
        UnlockReg(Emit(g2, PutField(FrameCond, Where(g2.cache.entries, COND))), COND)
      else g;
    if last.branch && last.indirect then Emit(g1, KeepIndirect) else g1
  }

  function EmitSaveIndirect(g: Gen, rs: nat): Gen {
    var g1 := LoadReg(g, rs, NoExt);
    UnlockReg(Emit(g1, PutField(Indirect, Where(g1.cache.entries, rs))), rs)
  }

  /** The condition register of a jump: 1 if its slot can be entered sideways, else 0. */
  function EmitJumpCond(g: Gen, slotIsEntry: bool): Gen { EmitConstant(g, COND, if slotIsEntry then 1 else 0) }

  function EmitJumpLink(g: Gen, at: nat, slotIsEntry: bool): Gen {
    var g1 := ImmediateReg(ImmediateReg(g, 31, SignExt(LinkValue(at))), COND, SignExt(if slotIsEntry then 1 else 0));
    UnlockReg(UnlockReg(g1, 31), COND)
  }

  function EmitBranch(g: Gen, d: Instr, at: nat, slotIsEntry: bool): Gen
    requires IsBranchInstr(d)
  {
    match d
    case Jr(rs) => EmitJumpCond(EmitSaveIndirect(g, rs), slotIsEntry)
    case Jalr(rd, rs) =>
      var g1 := EmitSaveIndirect(g, rs);
      EmitJumpCond(if rd == 0 then g1 else EmitConstant(g1, rd, LinkValue(at)), slotIsEntry)
    case Jump(link) => if link then EmitJumpLink(g, at, slotIsEntry) else EmitJumpCond(g, slotIsEntry)
    case BranchZero(op, rs, link) =>
      if rs == 0 && (op.LeS? || op.GtS?) then g
      else
        var g1 := EmitUnary(g, op, SExt, COND, rs, ZERO);
        if link then EmitConstant(g1, 31, LinkValue(at)) else g1
    case BranchEqual(op, rs, rt) => EmitBinary(g, op, SExt, COND, rs, rt)
  }

  // ----- everything without control flow -----

  function ShiftExt(op: AluOp): Ext { if op.ShrU? then ZExt else if op.ShrS? then SExt else NoExt }
  function AluExt(op: AluOp): Ext { if op.LtS? then SExt else if op.LtU? then ZExt else NoExt }
  function ImmExt(op: AluOp): Ext { if op.LtS? || op.LtU? then SExt else NoExt }

  predicate IsData(d: Instr) { !IsBranchInstr(d) && !d.Break? && !d.MoveFromC0? && !d.MoveToC0? }

  function EmitData(g: Gen, d: Instr, w: Word): Gen
    requires IsData(d)
  {
    match d
    case Nop => g
    case Vector => EmitCall(g, CallVector, 0, w)
    case Shift(op, rd, rt, amount) =>
      if rd == 0 then g else EmitUnary(g, op, ShiftExt(op), rd, rt, ZeroExt(amount))
    case ShiftReg(op, rd, rt, rs) => if rd == 0 then g else EmitShiftReg(g, op, ShiftExt(op), rd, rt, rs)
    case Alu(op, rd, rs, rt) => if rd == 0 then g else EmitBinary(g, op, AluExt(op), rd, rs, rt)
    case Nor(rd, rs, rt) => if rd == 0 then g else EmitNor(g, rd, rs, rt)
    case AluImm(op, rt, rs, imm) =>
      if rt == 0 then g
      else if rs == 0 && (op.Add? || op.Or?) then EmitConstant(g, rt, imm)
      else EmitUnary(g, op, ImmExt(op), rt, rs, SignExt(imm))
    case Lui(rt, imm) => if rt == 0 then g else EmitConstant(g, rt, imm)
    case MoveFromC2(rt) => EmitCall(g, CallFromC2, rt, w)
    case MoveToC2(rt) => EmitCall(g, CallToC2, rt, w)
    case Load(access, rt, rs) => EmitLoad(g, access, rt, rs, SImm(w))
    case Store(access, rt, rs) => EmitStore(g, access, rt, rs, SImm(w))
    case VectorMemory(rs) => EmitCall(g, CallMemory, rs, w)
  }

  // ----- leaving the frame -----

  function PcImm(k: nat): Host { ZeroExt(Addr(k)) }

  function TargetImm(target: nat): Host { ZeroExt(target % W) }

  /** Put the target of `info` into host register h. */
  function TargetOp(info: Info, h: nat): Op {
    if info.indirect then GetField(Indirect, h) else MovI(h, TargetImm(info.target))
  }

  /** jit_exit_dynamic: store the next program counter, honouring a pending slot, and return. */
  function ExitNodes(at: nat, last: Info, first: bool): seq<Node> {
    if first then
      [Straight([GetField(SlotFlag, NEXT_PC)]),
       If(IsZero(NEXT_PC), [Straight([MovI(NEXT_PC, PcImm(at + 1))]), JumpReturn],
          [Straight([MovI(NEXT_PC, ZERO), PutField(SlotFlag, NEXT_PC), GetField(Target, NEXT_PC)]), JumpReturn])]
    else if !last.branch then [Straight([MovI(NEXT_PC, PcImm(at + 1))]), JumpReturn]
    else if !last.conditional then [Straight([TargetOp(last, NEXT_PC)]), JumpReturn]
    else
      [Straight([LoadSr(NEXT_PC, COND, SExt)]),
       If(IsZero(NEXT_PC), [Straight([MovI(NEXT_PC, PcImm(at + 1))])], [Straight([TargetOp(last, NEXT_PC)])]),
       JumpReturn]
  }

  // ----- one instruction -----

  /** Code and the cache it leaves behind. */
  datatype Piece = Piece(nodes: seq<Node>, cache: Cache)

  function FromGen(g: Gen): Piece { Piece([Straight(g.ops)], g.cache) }

  function CompileInstr(c: Cache, w: Word, at: nat, last: Info, first: bool, slotIsEntry: bool): Piece {
    WrappedInstr(c, w, at, last, first, slotIsEntry, WRAPS)
  }

  function WrappedInstr(c: Cache, w: Word, at: nat, last: Info, first: bool, slotIsEntry: bool, wraps: nat): Piece {
    if wraps > 0 then WrappedInstr(c, w, at, last, first, slotIsEntry, wraps - 1)
    else InstrPiece(c, w, at, last, first, slotIsEntry)
  }

  lemma OpenInstr(c: Cache, w: Word, at: nat, last: Info, first: bool, slotIsEntry: bool)
    ensures CompileInstr(c, w, at, last, first, slotIsEntry) == InstrPiece(c, w, at, last, first, slotIsEntry)
  {
    assert WrappedInstr(c, w, at, last, first, slotIsEntry, 0) == InstrPiece(c, w, at, last, first, slotIsEntry);
    assert WrappedInstr(c, w, at, last, first, slotIsEntry, 1) == WrappedInstr(c, w, at, last, first, slotIsEntry, 0);
  }

  function InstrPiece(c: Cache, w: Word, at: nat, last: Info, first: bool, slotIsEntry: bool): Piece {
    var d := Decode(w);
    var g := Gen(c, []);
    if IsBranchInstr(d) then FromGen(EmitBranch(EmitKeepSlot(g, last), d, at, slotIsEntry))
    else if d.Break? then
      var g1 := FlushAll(g);
      Piece([Straight(g1.ops + [MovI(MODE, ZeroExt(MODE_BREAK))])] + ExitNodes(at, last, first), g1.cache)
    else if d.MoveFromC0? || d.MoveToC0? then
      var g1 := FlushAll(g);
      var call := Call(if d.MoveFromC0? then CallFromC0 else CallToC0, d.rt, w);
      Piece([Straight(g1.ops + [call]), If(IsMode(MODE, MODE_CONTINUE), [], ExitNodes(at, last, first))], g1.cache)
    else FromGen(EmitData(g, d, w))
  }

  // ----- delay slots -----

  /** After the first instruction: was a slot pending when the block was entered? */
  function LatentCheck(c: Cache): Piece {
    var g1 := ModifyReg(Gen(c, []), SCRATCH0);
    var h := Where(g1.cache.entries, SCRATCH0);
    var g2 := FlushAll(UnlockReg(Emit(g1, GetField(SlotFlag, h)), SCRATCH0));
    Piece([Straight(g2.ops), LatentIfNonZero(h)], g2.cache)
  }

  predicate IsLocal(info: Info, base: nat, end: nat) { !info.indirect && 4 * base <= info.target < 4 * end }

  function GoTo(info: Info): seq<Node> { [Straight([TargetOp(info, NEXT_PC)]), JumpEnter] }

  /** Test a copy of the condition after clearing it and flushing. */
  function TestPiece(g: Gen, hc: nat, last: Info, base: nat, end: nat): Piece {
    var hs := Where(g.cache.entries, SCRATCH0);
    var g4 := Emit(Emit(g, MovR(hs, hc)), MovI(hc, ZERO));
    var g5 := FlushAll(UnlockReg(UnlockReg(UnlockReg(g4, COND), COND), SCRATCH0));
    Piece([Straight(g5.ops)] +
          (if IsLocal(last, base, end) then [LocalIfNonZero(hs, (last.target - 4 * base) / 4)]
           else [If(IsZero(hs), [], GoTo(last))]),
          g5.cache)
  }

  /** jit_handle_delay_slot: the instruction just executed was a slot; clear the condition and go. */
  function ResolveSlot(c: Cache, last: Info, base: nat, end: nat): Piece {
    if last.conditional then
      var g2 := ModifyReg(LoadReg(Gen(c, []), COND, NoExt), COND);
      TestPiece(ModifyReg(g2, SCRATCH0), Where(g2.cache.entries, COND), last, base, end)
    else
      var g1 := ModifyReg(Gen(c, []), COND);
      var g2 := FlushAll(UnlockReg(Emit(g1, MovI(Where(g1.cache.entries, COND), ZERO)), COND));
      Piece([Straight(g2.ops)] +
            (if IsLocal(last, base, end) then [JumpLocal((last.target - 4 * base) / 4)] else GoTo(last)),
            g2.cache)
  }

  /** The first of two branches in a row is taken: hand the second one over as a pending slot. */
  function HandOver(info: Info, last: Info, hc: nat): seq<Node> {
    [Straight(if info.conditional then [] else [MovI(hc, ZeroExt(1))]),
     Straight([PutField(SlotFlag, hc), TargetOp(info, hc), PutField(Target, hc), FirstTargetOp(last)]),
     JumpEnter]
  }

  /** The first branch's target; an indirect one was moved to the stack by the second branch. */
  function FirstTargetOp(last: Info): Op {
    if last.indirect then GetField(FrameIndirect, NEXT_PC) else MovI(NEXT_PC, TargetImm(last.target))
  }

  /** Everything released and flushed; hc, hs and hi are still readable. */
  function DoublePiece(g: Gen, info: Info, last: Info, hc: nat, hs: nat, hi: nat): Piece {
    var g4 := FlushAll(UnlockReg(UnlockReg(UnlockReg(g, COND), SCRATCH0), SCRATCH1));
    if last.conditional then
      Piece([Straight(g4.ops), Straight([GetField(FrameCond, hi), MovI(hs, ZERO), PutField(FrameCond, hs)]),
             If(IsZero(hi), [], HandOver(info, last, hc))], g4.cache)
    else
      Piece([Straight(g4.ops), Straight([MovI(hc, ZERO), PutField(FrameCond, hc)])] + HandOver(info, last, hc), g4.cache)
  }

  /** jit_handle_impossible_delay_slot: a branch was executed in the slot of another branch. */
  function ResolveDoubleBranch(c: Cache, info: Info, last: Info): Piece {
    var g1 := LoadReg(Gen(c, []), COND, NoExt);
    var g2 := ModifyReg(g1, SCRATCH0);
    var g3 := ModifyReg(g2, SCRATCH1);
    DoublePiece(g3, info, last, Where(g1.cache.entries, COND), Where(g2.cache.entries, SCRATCH0),
                Where(g3.cache.entries, SCRATCH1))
  }

  /** Which of the delay-slot cases follows the instruction. */
  function CompileSlot(c: Cache, info: Info, last: Info, first: bool, base: nat, end: nat): Piece {
    WrappedSlot(c, info, last, first, base, end, WRAPS)
  }

  function WrappedSlot(c: Cache, info: Info, last: Info, first: bool, base: nat, end: nat, wraps: nat): Piece {
    if wraps > 0 then WrappedSlot(c, info, last, first, base, end, wraps - 1) else SlotPiece(c, info, last, first, base, end)
  }

  lemma OpenSlot(c: Cache, info: Info, last: Info, first: bool, base: nat, end: nat)
    ensures CompileSlot(c, info, last, first, base, end) == SlotPiece(c, info, last, first, base, end)
  {
    assert WrappedSlot(c, info, last, first, base, end, 0) == SlotPiece(c, info, last, first, base, end);
    assert WrappedSlot(c, info, last, first, base, end, 1) == WrappedSlot(c, info, last, first, base, end, 0);
  }

  function SlotPiece(c: Cache, info: Info, last: Info, first: bool, base: nat, end: nat): Piece {
    if first && !info.handlesSlot then LatentCheck(c)
    else if info.branch && last.branch then ResolveDoubleBranch(c, info, last)
    else if !info.handlesSlot && last.branch then ResolveSlot(c, last, base, end)
    else Piece([], c)
  }

  function CarryNodes(last: Info, hc: nat, hs: nat): seq<Node> {
    if !last.branch then [] else if last.conditional then [If(IsZero(hc), [], Carry(last, hs))] else Carry(last, hs)
  }

  /** Everything flushed; hc still holds the condition and hs is free. */
  function EndPiece(g: Gen, last: Info, end: nat, hc: nat): Piece {
    var g2 := ModifyReg(g, SCRATCH0);
    var hs := Where(g2.cache.entries, SCRATCH0);
    var g3 := FlushAll(UnlockReg(g2, SCRATCH0));
    Piece([Straight(g3.ops)] + (CarryNodes(last, hc, hs) + [Straight([MovI(NEXT_PC, ZeroExt((4 * end) % W))]), JumpEnter]),
          g3.cache)
  }

  /** jit_end_of_block: run on into the next block, carrying a pending slot through the CPU state. */
  function EndOfBlock(c: Cache, last: Info, end: nat): Piece {
    var g0 := FlushAll(Gen(c, []));
    if last.branch && last.conditional then
      var g1 := LoadReg(g0, COND, NoExt);
      EndPiece(UnlockReg(g1, COND), last, end, Where(g1.cache.entries, COND))
    else EndPiece(g0, last, end, 0)
  }

  /** Move a taken branch into the CPU state. */
  function Carry(last: Info, h: nat): seq<Node> {
    [Straight([TargetOp(last, h), PutField(Target, h), MovI(h, ZeroExt(1)), PutField(SlotFlag, h)])]
  }

  /** jit_handle_latent_delay_slot: the block was entered inside a slot, and the first instruction has run. */
  function LatentCode(c: Cache, first: Info): seq<Node> {
    var conditional := first.branch && first.conditional;
    var g1 := if conditional then LoadReg(Gen(c, []), COND, NoExt) else Gen(c, []);
    var hc := if conditional then Where(g1.cache.entries, COND) else NEXT_PC;
    var g2 := FlushAll(if conditional then UnlockReg(g1, COND) else g1);
    [Straight(g2.ops)] + LatentNodes(first, hc)
  }

  function LatentNodes(first: Info, hc: nat): seq<Node> {
    if !first.branch then
      [Straight([MovI(NEXT_PC, ZERO), PutField(SlotFlag, NEXT_PC), GetField(Target, NEXT_PC)]), JumpEnter]
    else
      [Straight(if first.conditional then [] else [MovI(hc, ZeroExt(1))]),
       Straight([PutField(SlotFlag, hc), GetField(Target, NEXT_PC), TargetOp(first, MODE), PutField(Target, MODE)]),
       JumpEnter]
  }

  // ----- regions -----

  /** The state of the compiler in front of an instruction: its cache and what it knows of the one before. */
  datatype Front = Front(cache: Cache, last: Info)

  predicate SlotIsEntry(imem: Imem, base: nat, end: nat, i: nat)
    requires end <= MEM_WORDS
  {
    base + i + 1 < end && IsEntry(imem, base, end, i + 1)
  }

  function InfoAt(imem: Imem, base: nat, end: nat, i: nat): Info
    requires base + i < end <= MEM_WORDS
  {
    InfoOf(imem[base + i], base + i, SlotIsEntry(imem, base, end, i))
  }

  /** A label: flush, so that a goto may arrive, and start with an empty cache. */
  function LabelCode(c: Cache): Piece {
    var g := FlushAll(Gen(c, []));
    Piece([Straight(g.ops)], Reset(g.cache))
  }

  /** The compiler state in front of instruction i, after its label if it has one. */
  function FrontAt(imem: Imem, base: nat, end: nat, c0: Cache, i: nat): Front
    requires base + i < end <= MEM_WORDS
    decreases i, 0
  {
    var f := if i == 0 then Front(Reset(c0), NO_INFO)
             else Front(Body(imem, base, end, c0, i - 1).cache, InfoAt(imem, base, end, i - 1));
    if IsEntry(imem, base, end, i) then Front(LabelCode(f.cache).cache, f.last) else f
  }

  /** The code of instruction i, from the compiler state in front of it. */
  function Body(imem: Imem, base: nat, end: nat, c0: Cache, i: nat): Piece
    requires base + i < end <= MEM_WORDS
    decreases i, 1
  {
    BodyCode(imem, base, end, i, FrontAt(imem, base, end, c0, i), WRAPS)
  }

  function BodyCode(imem: Imem, base: nat, end: nat, i: nat, f: Front, wraps: nat): Piece
    requires base + i < end <= MEM_WORDS
  {
    if wraps > 0 then BodyCode(imem, base, end, i, f, wraps - 1)
    else
      var p := CompileInstr(f.cache, imem[base + i], base + i, f.last, i == 0, SlotIsEntry(imem, base, end, i));
      var q := CompileSlot(p.cache, InfoAt(imem, base, end, i), f.last, i == 0, base, end);
      Piece(p.nodes + q.nodes, q.cache)
  }

  /** The compiler state in front of the instruction after i. */
  lemma FrontNext(imem: Imem, base: nat, end: nat, c0: Cache, i: nat, c: Cache) returns (f: Front)
    requires base + i + 1 < end <= MEM_WORDS && c == Body(imem, base, end, c0, i).cache
    ensures f == FrontAt(imem, base, end, c0, i + 1)
    ensures f == Front(if IsEntry(imem, base, end, i + 1) then LabelCode(c).cache else c, InfoAt(imem, base, end, i))
  {
    f := FrontAt(imem, base, end, c0, i + 1);
  }

  /** The compiler state in front of instruction j, from the one before. */
  lemma FrontBehind(imem: Imem, base: nat, end: nat, c0: Cache, j: nat, c: Cache) returns (f: Front)
    requires j > 0 && base + j < end <= MEM_WORDS && c == Body(imem, base, end, c0, j - 1).cache
    ensures f == FrontAt(imem, base, end, c0, j)
    ensures f == Front(if IsEntry(imem, base, end, j) then LabelCode(c).cache else c, InfoAt(imem, base, end, j - 1))
  {
    f := FrontAt(imem, base, end, c0, j);
  }

  lemma BodyFrom(imem: Imem, base: nat, end: nat, c0: Cache, i: nat, f: Front, info: Info, slotIsEntry: bool, p: Piece, q: Piece)
    requires base + i < end <= MEM_WORDS && f == FrontAt(imem, base, end, c0, i)
    requires info == InfoAt(imem, base, end, i) && slotIsEntry == SlotIsEntry(imem, base, end, i)
    requires p == CompileInstr(f.cache, imem[base + i], base + i, f.last, i == 0, slotIsEntry)
    requires q == CompileSlot(p.cache, info, f.last, i == 0, base, end)
    ensures Body(imem, base, end, c0, i) == Piece(p.nodes + q.nodes, q.cache)
  {
    assert BodyCode(imem, base, end, i, f, 0) == Piece(p.nodes + q.nodes, q.cache);
    assert BodyCode(imem, base, end, i, f, 1) == BodyCode(imem, base, end, i, f, 0);
  }
}
