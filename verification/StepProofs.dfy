/**
 * One instruction with its exits: the code of an instruction either falls through having done the
 * reference effect, or returns to the caller exactly when a handler or BREAK asks for it.
 */
module StepProofs {
  import opened Words
  import opened Isa
  import opened HostCode
  import opened RegCache
  import opened RegCacheProofs
  import opened Emitter
  import opened MemoryEmitter
  import opened Region
  import opened Recompiler
  import opened InstrProofs
  import opened BranchProofs
  import opened SlotProofs

  /** The instruction has run and control falls through to the delay-slot code. */
  predicate Executed(env: Env, c: Cache, m: Machine, m': Machine, e: Effect, info: Info, last: Info, cond: Word, cond': Word) {
    && Start(env, c, m', e.regs, cond')
    && m' == m.(host := m'.host, sr := m'.sr, world := e.world, indirect := m'.indirect,
                frameCond := m'.frameCond, frameIndirect := m'.frameIndirect)
    && |m'.host| == |m.host|
    && Encodes(info, e.jump, cond', m'.indirect)
    && (!info.branch ==> cond' == cond && m'.indirect == m.indirect)
    && (info.branch ==> SlotKept(last, cond, m, m'))
  }

  /** Control returns to the caller with the registers in memory and the next program counter. */
  predicate Returned(m: Machine, m': Machine, e: Effect, cond: Word, next: nat) {
    && m'.sr == File(e.regs, cond) && m'.world == e.world && m'.slotFlag == 0 && e.regs[0] == 0
    && |m'.host| == |m.host| >= 2
    && m'.host[MODE] == ZeroExt(e.mode) && WordIndex(m'.host[NEXT_PC].lo) == next
  }

  lemma StartMachine(env: Env, c: Cache, m: Machine, regs: Regs, cond: Word)
    requires Start(env, c, m, regs, cond)
    ensures |m.host| >= 3
  {
  }

  lemma DataStep(env: Env, c: Cache, m: Machine, regs: Regs, cond: Word, d: Instr, w: Word, at: nat, last: Info,
                 slotIsEntry: bool)
    returns (m': Machine)
    requires Start(env, c, m, regs, cond) && WellShaped(d) && IsData(d)
    ensures var e, g := Perform(env, d, w, at, regs, m.world), EmitData(Gen(c, []), d, w);
            && e.mode == MODE_CONTINUE
            && Run(env, FromGen(g).nodes, m) == Next(m')
            && Executed(env, g.cache, m, m', e, InfoFor(d, w, at, slotIsEntry), last, cond, cond)
  {
    m' := DataInstr(env, c, m, regs, cond, d, w, at);
    QuietData(env, d, w, at, regs, m.world, slotIsEntry);
    DataStepCore(env, EmitData(Gen(c, []), d, w), m, m', Perform(env, d, w, at, regs, m.world), last, cond);
  }

  lemma DataStepCore(env: Env, g: Gen, m: Machine, m': Machine, e: Effect, last: Info, cond: Word)
    requires DataDone(env, g, m, m', e, cond) && e.jump == NoSlot
    ensures Run(env, FromGen(g).nodes, m) == Next(m') && Executed(env, g.cache, m, m', e, NO_INFO, last, cond, cond)
  {
    RunLast(env, Straight(g.ops), m);
  }

  lemma QuietData(env: Env, d: Instr, w: Word, at: nat, regs: Regs, world: World, slotIsEntry: bool)
    requires IsData(d)
    ensures var e := Perform(env, d, w, at, regs, world); e.mode == MODE_CONTINUE && e.jump == NoSlot
    ensures InfoFor(d, w, at, slotIsEntry) == NO_INFO
  {
  }

  lemma BranchStep(env: Env, c: Cache, m: Machine, regs: Regs, cond: Word, d: Instr, w: Word, at: nat, last: Info,
                   slotIsEntry: bool)
    returns (m': Machine)
    requires Start(env, c, m, regs, cond) && WellShaped(d) && IsBranchInstr(d)
    ensures var e, g := Perform(env, d, w, at, regs, m.world), EmitBranch(EmitKeepSlot(Gen(c, []), last), d, at, slotIsEntry);
            && e.mode == MODE_CONTINUE
            && Run(env, FromGen(g).nodes, m) == Next(m')
            && Executed(env, g.cache, m, m', e, InfoFor(d, w, at, slotIsEntry), last, cond,
                        CondAfter(d, regs, cond, slotIsEntry))
  {
    StartOk(env, c, m, regs, cond);
    var m1 := KeepSlotSim(env, Gen(c, []), m, m, File(regs, cond), last);
    var g1 := EmitKeepSlot(Gen(c, []), last);
    m' := BranchCode(env, g1, m, m1, d, at, regs, cond, slotIsEntry);
    BranchEffect(env, d, w, at, regs, cond, m.world, slotIsEntry, m.indirect, m'.indirect);
    BranchStepCore(env, EmitBranch(g1, d, at, slotIsEntry), m, m1, m', d, at, regs, cond, slotIsEntry,
                   Perform(env, d, w, at, regs, m.world), InfoFor(d, w, at, slotIsEntry), last);
  }

  lemma BranchStepCore(env: Env, g: Gen, m: Machine, m1: Machine, m': Machine, d: Instr, at: nat, regs: Regs, cond: Word,
                       slotIsEntry: bool, e: Effect, info: Info, last: Info)
    requires BranchCoded(env, g, m, m1, m', d, at, regs, cond, slotIsEntry)
    requires SameState(m, m1) && m1.indirect == m.indirect && SlotKept(last, cond, m, m1)
    requires e.world == m.world && e.regs[0] == 0 && e.regs == SetReg(regs, LinkRegister(d), LinkValue(at))
    requires Encodes(info, e.jump, CondAfter(d, regs, cond, slotIsEntry), m'.indirect)
    requires !info.branch ==> CondAfter(d, regs, cond, slotIsEntry) == cond && m'.indirect == m.indirect
    ensures Run(env, FromGen(g).nodes, m) == Next(m')
    ensures Executed(env, g.cache, m, m', e, info, last, cond, CondAfter(d, regs, cond, slotIsEntry))
  {
    RunLast(env, Straight(g.ops), m);
  }

  // ----- exits -----

  lemma BreakStep(env: Env, c: Cache, m: Machine, regs: Regs, cond: Word, at: nat, last: Info, first: bool, pending: Pending)
    returns (m': Machine)
    requires Start(env, c, m, regs, cond) && PendingIs(first, last, cond, m, pending)
    ensures var g := FlushAll(Gen(c, []));
            Run(env, [Straight(g.ops + [MovI(MODE, ZeroExt(MODE_BREAK))])] + ExitNodes(at, last, first), m) == Return(m')
    ensures Returned(m, m', Effect(regs, m.world, NoSlot, MODE_BREAK), cond, NextWord(at, pending))
  {
    StartOk(env, c, m, regs, cond);
    StartMachine(env, c, m, regs, cond);
    var m1 := FlushAllSim(env, Gen(c, []), m, m, File(regs, cond));
    var g := FlushAll(Gen(c, []));
    var m2 := Poke(m1, MODE, ZeroExt(MODE_BREAK));
    RunOne(env, g.ops, MovI(MODE, ZeroExt(MODE_BREAK)), m, m1, m2);
    RunStraight(env, g.ops + [MovI(MODE, ZeroExt(MODE_BREAK))], ExitNodes(at, last, first), m);
    m' := ExitSim(env, m2, at, last, first, pending);
  }

  /** The machine after a coprocessor-0 handler. */
  lemma C0Call(env: Env, m: Machine, regs: Regs, cond: Word, d: Instr, w: Word, at: nat) returns (m': Machine)
    requires (d.MoveFromC0? || d.MoveToC0?) && d.rd == Rd(w) && WellShaped(d)
    requires m.sr == File(regs, cond) && regs[0] == 0 && |m.host| >= 2
    ensures var e := Perform(env, d, w, at, regs, m.world);
            && ExecOp(env, Call(if d.MoveFromC0? then CallFromC0 else CallToC0, d.rt, w), m) == m'
            && m' == m.(host := m'.host, sr := m'.sr, world := e.world) && |m'.host| == |m.host|
            && m'.host[MODE] == ZeroExt(e.mode) && m'.sr == File(e.regs, cond) && e.regs[0] == 0 && e.jump == NoSlot
  {
    m' := ExecOp(env, Call(if d.MoveFromC0? then CallFromC0 else CallToC0, d.rt, w), m);
    FileLookup(regs, cond, d.rt);
    if d.rt != 0 {
      FileUpdate(regs, cond, d.rt, env.fromC0(m.world, d.rt, Rd(w)).value);
    }
  }

  lemma C0Step(env: Env, c: Cache, m: Machine, regs: Regs, cond: Word, d: Instr, w: Word, at: nat, last: Info, first: bool,
               pending: Pending)
    returns (m': Machine)
    requires Start(env, c, m, regs, cond) && WellShaped(d) && PendingIs(first, last, cond, m, pending)
    requires (d.MoveFromC0? || d.MoveToC0?) && d.rd == Rd(w)
    ensures var e, g := Perform(env, d, w, at, regs, m.world), FlushAll(Gen(c, []));
            var call := Call(if d.MoveFromC0? then CallFromC0 else CallToC0, d.rt, w);
            var o := Run(env, [Straight(g.ops + [call]), If(IsMode(MODE, MODE_CONTINUE), [], ExitNodes(at, last, first))], m);
            if e.mode == MODE_CONTINUE then
              o == Next(m') && Executed(env, g.cache, m, m', e, NO_INFO, last, cond, cond)
            else
              o == Return(m') && Returned(m, m', e, cond, NextWord(at, pending))
  {
    StartOk(env, c, m, regs, cond);
    StartMachine(env, c, m, regs, cond);
    var m1 := FlushAllSim(env, Gen(c, []), m, m, File(regs, cond));
    var g := FlushAll(Gen(c, []));
    var call := Call(if d.MoveFromC0? then CallFromC0 else CallToC0, d.rt, w);
    var m2 := C0Call(env, m1, regs, cond, d, w, at);
    var exit := If(IsMode(MODE, MODE_CONTINUE), [], ExitNodes(at, last, first));
    RunOne(env, g.ops, call, m, m1, m2);
    RunThen(env, g.ops + [call], exit, m);
    if Perform(env, d, w, at, regs, m.world).mode == MODE_CONTINUE {
      m' := m2;
      DeadRepresents(g.cache, m2);
    } else {
      m' := ExitSim(env, m2, at, last, first, pending);
    }
  }

  // ----- all instructions -----

  /** Either the effect happened and control falls through, or control left with the right program counter. */
  lemma InstrSim(env: Env, c: Cache, m: Machine, regs: Regs, cond: Word, w: Word, at: nat, last: Info, first: bool,
                 slotIsEntry: bool, pending: Pending)
    returns (m': Machine, cond': Word)
    requires Start(env, c, m, regs, cond) && PendingIs(first, last, cond, m, pending)
    ensures var e, p := Execute(env, w, at, regs, m.world), CompileInstr(c, w, at, last, first, slotIsEntry);
            if e.mode == MODE_CONTINUE then
              Run(env, p.nodes, m) == Next(m')
              && Executed(env, p.cache, m, m', e, InfoOf(w, at, slotIsEntry), last, cond, cond')
            else
              Run(env, p.nodes, m) == Return(m') && Returned(m, m', e, cond, NextWord(at, pending))
  {
    OpenInstr(c, w, at, last, first, slotIsEntry);
    DecodeShape(w);
    var d := Decode(w);
    cond' := cond;
    if IsBranchInstr(d) {
      m' := BranchStep(env, c, m, regs, cond, d, w, at, last, slotIsEntry);
      cond' := CondAfter(d, regs, cond, slotIsEntry);
    } else if d.Break? {
      m' := BreakStep(env, c, m, regs, cond, at, last, first, pending);
    } else if d.MoveFromC0? || d.MoveToC0? {
      DecodeC0(w);
      m' := C0Step(env, c, m, regs, cond, d, w, at, last, first, pending);
    } else {
      m' := DataStep(env, c, m, regs, cond, d, w, at, last, slotIsEntry);
    }
  }

  lemma DecodeC0(w: Word)
    ensures Decode(w).MoveFromC0? ==> Decode(w) == MoveFromC0(Rt(w), Rd(w))
    ensures Decode(w).MoveToC0? ==> Decode(w) == MoveToC0(Rt(w), Rd(w))
  {
  }
}
