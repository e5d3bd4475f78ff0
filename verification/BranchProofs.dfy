/**
 * Branch instructions: the emitted code leaves the outcome where the delay-slot code looks for it.
 */
module BranchProofs {
  import opened Words
  import opened Isa
  import opened HostCode
  import opened RegCache
  import opened RegCacheProofs
  import opened Emitter
  import opened Region
  import opened Recompiler
  import opened InstrProofs

  /** A branch outcome as the generated code keeps it: a condition register and an indirect target. */
  predicate Encodes(info: Info, jump: Pending, cond: Word, indirect: Host) {
    if info.branch then
      && (if info.conditional then jump.Slot? <==> cond != 0 else jump.Slot?)
      && (jump.Slot? ==> jump.target == TargetWord(info, indirect))
    else jump == NoSlot
  }

  /** Only registers and branch bookkeeping may differ. */
  predicate SameState(m: Machine, m': Machine) {
    m' == m.(host := m'.host, sr := m'.sr, indirect := m'.indirect, frameCond := m'.frameCond, frameIndirect := m'.frameIndirect)
  }

  // ----- reference side -----

  function CondAfter(d: Instr, regs: Regs, cond: Word, slotIsEntry: bool): Word {
    match d
    case BranchZero(op, rs, _) => if rs == 0 && (op.LeS? || op.GtS?) then cond else Alu32(op, Reg(regs, rs), 0)
    case BranchEqual(op, rs, rt) => Alu32(op, Reg(regs, rs), Reg(regs, rt))
    case _ => if slotIsEntry then 1 else 0
  }

  function LinkRegister(d: Instr): nat {
    match d
    case Jalr(rd, _) => rd
    case Jump(link) => if link then 31 else 0
    case BranchZero(_, _, link) => if link then 31 else 0
    case _ => 0
  }

  predicate IndirectReady(d: Instr, regs: Regs, before: Host, after: Host) {
    match d
    case Jr(rs) => after.lo == Reg(regs, rs)
    case Jalr(_, rs) => after.lo == Reg(regs, rs)
    case _ => after == before
  }

  /** The reference effect of a branch, in the terms the generated code uses. */
  lemma BranchEffect(env: Env, d: Instr, w: Word, at: nat, regs: Regs, cond: Word, world: World, slotIsEntry: bool,
                     before: Host, after: Host)
    requires WellShaped(d) && IsBranchInstr(d) && regs[0] == 0 && IndirectReady(d, regs, before, after)
    ensures var e := Perform(env, d, w, at, regs, world);
            && e.world == world && e.mode == MODE_CONTINUE && e.regs[0] == 0
            && e.regs == SetReg(regs, LinkRegister(d), LinkValue(at))
            && Encodes(InfoFor(d, w, at, slotIsEntry), e.jump, CondAfter(d, regs, cond, slotIsEntry), after)
            && (!InfoFor(d, w, at, slotIsEntry).branch ==> CondAfter(d, regs, cond, slotIsEntry) == cond && after == before)
  {
    TargetsAgree(at, w);
    JumpWord(w);
  }

  lemma JumpWord(w: Word)
    ensures WordIndex((w % 1024 * 4) % W) == JumpTarget(w)
  {
  }

  // ----- bookkeeping code -----

  lemma FieldSim(env: Env, g: Gen, m0: Machine, m: Machine, held: multiset<nat>, rf: RegFile, field: Field, h: nat)
    returns (m': Machine)
    requires Exec(env, g.ops, m0) == m && Good(g.cache, m, held, rf) && h < |m.host|
    ensures m' == WriteField(m, field, m.host[h])
    ensures Exec(env, Emit(g, PutField(field, h)).ops, m0) == m' && Good(g.cache, m', held, rf)
  {
    m' := WriteField(m, field, m.host[h]);
    RunOne(env, g.ops, PutField(field, h), m0, m, m');
  }

  /** Load a register, store it into a field, release it. */
  lemma SaveSim(env: Env, g: Gen, m0: Machine, m: Machine, rf: RegFile, k: nat, field: Field)
    returns (m': Machine, v: Host)
    requires Ok(env, g, m0, m, rf) && k <= COND
    ensures var g1 := LoadReg(g, k, NoExt);
            Ok(env, UnlockReg(Emit(g1, PutField(field, Where(g1.cache.entries, k))), k), m0, m', rf)
    ensures v.lo == rf[k] && (k == COND ==> v == SignExt(rf[k]))
    ensures m' == WriteField(m.(host := m'.host, sr := m'.sr), field, v)
  {
    var m1 := LoadSim(env, g, m0, m, multiset{}, rf, k, NoExt);
    var g1 := LoadReg(g, k, NoExt);
    var h := Where(g1.cache.entries, k);
    v := m1.host[h];
    assert Owns(g1.cache.entries[h], k);
    m' := SaveCore(env, g1, m0, m1, rf, k, field, h);
  }

  lemma SaveCore(env: Env, g: Gen, m0: Machine, m: Machine, rf: RegFile, k: nat, field: Field, h: nat) returns (m': Machine)
    requires Exec(env, g.ops, m0) == m && Good(g.cache, m, multiset{k}, rf) && env.callerSaved == g.cache.callerSaved
    requires h < |m.host|
    ensures Ok(env, UnlockReg(Emit(g, PutField(field, h)), k), m0, m', rf)
    ensures m' == WriteField(m.(host := m'.host, sr := m'.sr), field, m.host[h])
  {
    m' := FieldSim(env, g, m0, m, multiset{k}, rf, field, h);
    UnlockMeaning(Emit(g, PutField(field, h)), m', multiset{k}, rf, k);
  }

  /** What a second branch in a row must find saved. */
  predicate SlotKept(last: Info, cond: Word, m: Machine, m': Machine) {
    && (last.branch && last.conditional ==> m'.frameCond == SignExt(cond))
    && (last.branch && last.indirect ==> m'.frameIndirect == m.indirect)
  }

  lemma KeepSlotSim(env: Env, g: Gen, m0: Machine, m: Machine, rf: RegFile, last: Info) returns (m': Machine)
    requires Ok(env, g, m0, m, rf)
    ensures Ok(env, EmitKeepSlot(g, last), m0, m', rf)
    ensures SameState(m, m') && m'.indirect == m.indirect && SlotKept(last, rf[COND], m, m')
  {
    var g1, m1 := g, m;
    if last.branch && last.conditional {
      var v;
      m1, v := SaveSim(env, g, m0, m, rf, COND, FrameCond);
      var g2 := LoadReg(g, COND, NoExt);
      g1 := UnlockReg(Emit(g2, PutField(FrameCond, Where(g2.cache.entries, COND))), COND);
    }
    m' := m1;
    if last.branch && last.indirect {
      m' := m1.(frameIndirect := m1.indirect);
      RunOne(env, g1.ops, KeepIndirect, m0, m1, m');
    }
  }

  lemma JumpLinkSim(env: Env, g: Gen, m0: Machine, m: Machine, rf: RegFile, at: nat, slotIsEntry: bool) returns (m': Machine)
    requires Ok(env, g, m0, m, rf)
    ensures Ok(env, EmitJumpLink(g, at, slotIsEntry), m0, m', Set(Set(rf, 31, LinkValue(at)), COND, if slotIsEntry then 1 else 0))
    ensures SameOutside(m, m')
  {
    var v, cv := SignExt(LinkValue(at)), SignExt(if slotIsEntry then 1 else 0);
    var m1 := ImmediateSim(env, g, m0, m, multiset{}, rf, 31, v);
    var g1 := ImmediateReg(g, 31, v);
    var rf1 := Set(rf, 31, v.lo);
    m' := ImmediateSim(env, g1, m0, m1, multiset{31}, rf1, COND, cv);
    ReleaseTwo(ImmediateReg(g1, COND, cv), m', Set(rf1, COND, cv.lo), 31, COND);
  }

  // ----- the branch itself -----

  /** After the branch code: the condition register holds CondAfter and the indirect target is saved. */
  predicate BranchCoded(env: Env, g: Gen, m0: Machine, m: Machine, m': Machine, d: Instr, at: nat, regs: Regs, cond: Word,
                        slotIsEntry: bool)
  {
    && Ok(env, g, m0, m', File(SetReg(regs, LinkRegister(d), LinkValue(at)), CondAfter(d, regs, cond, slotIsEntry)))
    && m' == m.(host := m'.host, sr := m'.sr, indirect := m'.indirect)
    && IndirectReady(d, regs, m.indirect, m'.indirect)
  }

  lemma BranchCode(env: Env, g: Gen, m0: Machine, m: Machine, d: Instr, at: nat, regs: Regs, cond: Word, slotIsEntry: bool)
    returns (m': Machine)
    requires Ok(env, g, m0, m, File(regs, cond)) && regs[0] == 0 && WellShaped(d) && IsBranchInstr(d)
    ensures BranchCoded(env, EmitBranch(g, d, at, slotIsEntry), m0, m, m', d, at, regs, cond, slotIsEntry)
  {
    if d.Jr? || d.Jalr? {
      m' := IndirectJumpCode(env, g, m0, m, d, at, regs, cond, slotIsEntry);
    } else if d.Jump? {
      m' := DirectJumpCode(env, g, m0, m, d, at, regs, cond, slotIsEntry);
    } else {
      m' := CompareBranchCode(env, g, m0, m, d, at, regs, cond, slotIsEntry);
    }
  }

  lemma IndirectJumpCode(env: Env, g: Gen, m0: Machine, m: Machine, d: Instr, at: nat, regs: Regs, cond: Word, slotIsEntry: bool)
    returns (m': Machine)
    requires Ok(env, g, m0, m, File(regs, cond)) && regs[0] == 0 && WellShaped(d) && (d.Jr? || d.Jalr?)
    ensures BranchCoded(env, EmitBranch(g, d, at, slotIsEntry), m0, m, m', d, at, regs, cond, slotIsEntry)
  {
    var rf := File(regs, cond);
    var m1, target := SaveSim(env, g, m0, m, rf, d.rs, Indirect);
    FileLookup(regs, cond, d.rs);
    var g1 := EmitSaveIndirect(g, d.rs);
    var rd := LinkRegister(d);
    var v := if slotIsEntry then 1 else 0;
    if rd == 0 {
      m' := ConstantSim(env, g1, m0, m1, rf, COND, v);
    } else {
      var m2 := ConstantSim(env, g1, m0, m1, rf, rd, LinkValue(at));
      FileUpdate(regs, cond, rd, LinkValue(at));
      m' := ConstantSim(env, EmitConstant(g1, rd, LinkValue(at)), m0, m2, Set(rf, rd, LinkValue(at)), COND, v);
    }
    CondUpdate(SetReg(regs, rd, LinkValue(at)), cond, v);
  }

  lemma DirectJumpCode(env: Env, g: Gen, m0: Machine, m: Machine, d: Instr, at: nat, regs: Regs, cond: Word, slotIsEntry: bool)
    returns (m': Machine)
    requires Ok(env, g, m0, m, File(regs, cond)) && d.Jump?
    ensures BranchCoded(env, EmitBranch(g, d, at, slotIsEntry), m0, m, m', d, at, regs, cond, slotIsEntry)
  {
    if d.link {
      m' := LinkedJumpCode(env, g, m0, m, d, at, regs, cond, slotIsEntry);
    } else {
      m' := ConstantSim(env, g, m0, m, File(regs, cond), COND, if slotIsEntry then 1 else 0);
      CondUpdate(regs, cond, if slotIsEntry then 1 else 0);
    }
  }

  lemma LinkedJumpCode(env: Env, g: Gen, m0: Machine, m: Machine, d: Instr, at: nat, regs: Regs, cond: Word, slotIsEntry: bool)
    returns (m': Machine)
    requires Ok(env, g, m0, m, File(regs, cond)) && d.Jump? && d.link
    ensures BranchCoded(env, EmitBranch(g, d, at, slotIsEntry), m0, m, m', d, at, regs, cond, slotIsEntry)
  {
    var v := if slotIsEntry then 1 else 0;
    LinkFile(regs, cond, LinkValue(at), v);
    m' := JumpLinkSim(env, g, m0, m, File(regs, cond), at, slotIsEntry);
    LinkedJumpCore(env, EmitJumpLink(g, at, slotIsEntry), m0, m, m', d, at, regs, cond, slotIsEntry, v);
  }

  lemma LinkedJumpCore(env: Env, g: Gen, m0: Machine, m: Machine, m': Machine, d: Instr, at: nat, regs: Regs, cond: Word,
                       slotIsEntry: bool, v: Word)
    requires v == (if slotIsEntry then 1 else 0) && Ok(env, g, m0, m', File(SetReg(regs, 31, LinkValue(at)), v))
    requires SameOutside(m, m') && d.Jump? && d.link
    ensures BranchCoded(env, g, m0, m, m', d, at, regs, cond, slotIsEntry)
  {
    assert CondAfter(d, regs, cond, slotIsEntry) == v && LinkRegister(d) == 31;
  }

  lemma LinkFile(regs: Regs, cond: Word, link: Word, v: Word)
    ensures Set(Set(File(regs, cond), 31, link), COND, v) == File(SetReg(regs, 31, link), v)
  {
    FileUpdate(regs, cond, 31, link);
    CondUpdate(SetReg(regs, 31, link), cond, v);
  }

  lemma CompareBranchCode(env: Env, g: Gen, m0: Machine, m: Machine, d: Instr, at: nat, regs: Regs, cond: Word, slotIsEntry: bool)
    returns (m': Machine)
    requires Ok(env, g, m0, m, File(regs, cond)) && regs[0] == 0 && WellShaped(d) && (d.BranchZero? || d.BranchEqual?)
    ensures BranchCoded(env, EmitBranch(g, d, at, slotIsEntry), m0, m, m', d, at, regs, cond, slotIsEntry)
  {
    var rf := File(regs, cond);
    var v := CondAfter(d, regs, cond, slotIsEntry);
    FileLookup(regs, cond, d.rs);
    if d.BranchEqual? {
      FileLookup(regs, cond, d.rt);
      m' := BinarySim(env, g, m0, m, rf, d.op, SExt, COND, d.rs, d.rt);
      CondUpdate(regs, cond, v);
    } else if d.rs == 0 && (d.op.LeS? || d.op.GtS?) {
      m' := m;
    } else {
      var m1 := UnarySim(env, g, m0, m, rf, d.op, SExt, COND, d.rs, ZERO);
      CondUpdate(regs, cond, v);
      m' := m1;
      if d.link {
        m' := ConstantSim(env, EmitUnary(g, d.op, SExt, COND, d.rs, ZERO), m0, m1, File(regs, v), 31, LinkValue(at));
        FileUpdate(regs, v, 31, LinkValue(at));
      }
    }
  }
}
