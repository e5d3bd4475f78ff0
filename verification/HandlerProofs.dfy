/**
 * The delay-slot handlers and the ends of blocks: each hands control on with the pending branch
 * recorded where the next piece of code expects it.
 */
module HandlerProofs {
  import opened Words
  import opened Isa
  import opened HostCode
  import opened RegCache
  import opened RegCacheProofs
  import opened Emitter
  import opened Region
  import opened Recompiler
  import opened InstrProofs
  import opened BranchProofs
  import opened SlotProofs

  /** Everything is in memory and no host register is in use. */
  predicate Clear(env: Env, c: Cache, m: Machine, regs: Regs, cond: Word) {
    Start(env, c, m, regs, cond) && AllDead(c.entries) && m.sr == File(regs, cond)
  }

  /** No register in use, no lock, no failure. */
  predicate Idle(env: Env, c: Cache, n: nat) {
    && Sound(c) && env.callerSaved == c.callerSaved && |c.entries| == n && AllDead(c.entries)
    && forall j :: 0 <= j < |c.entries| ==> c.entries[j].locks == 0
  }

  lemma FlushClears(env: Env, g: Gen, m0: Machine, m: Machine, regs: Regs, cond: Word) returns (m': Machine)
    requires Ok(env, g, m0, m, File(regs, cond)) && regs[0] == 0
    ensures Exec(env, FlushAll(g).ops, m0) == m' && m' == m.(sr := m'.sr)
    ensures Clear(env, FlushAll(g).cache, m', regs, cond) && Idle(env, FlushAll(g).cache, |m.host|)
  {
    m' := FlushAllSim(env, g, m0, m, File(regs, cond));
  }

  // ----- caches without a machine -----

  /** What compilation keeps true of its cache between instructions, whatever runs. */
  predicate Wf(env: Env, c: Cache) {
    && Sound(c) && env.callerSaved == c.callerSaved && |c.entries| == env.hostRegisters
    && Distinct(c.entries)
    && forall j :: 0 <= j < |c.entries| ==>
         && c.entries[j].locks == 0
         && (c.entries[j].live ==> c.entries[j].mips <= SCRATCH1 && (c.entries[j].mips == 0 ==> !c.entries[j].modified))
  }

  lemma WfOfStart(env: Env, c: Cache, m: Machine, regs: Regs, cond: Word)
    requires Start(env, c, m, regs, cond) && |m.host| == env.hostRegisters
    ensures Wf(env, c)
  {
    forall j | 0 <= j < |c.entries| && c.entries[j].live
      ensures c.entries[j].locks == 0 && c.entries[j].mips <= SCRATCH1
      ensures c.entries[j].mips == 0 ==> !c.entries[j].modified
    {
      assert EntryFaithful(c.entries[j], m.host[j], m.sr, File(regs, cond));
    }
  }

  function ZeroRegs(): Regs { seq(32, _ => 0) }

  function ZeroFile(): RegFile { seq(SR_WORDS, _ => 0) }

  function ZeroMachine(env: Env, world: World): Machine {
    Machine(seq(env.hostRegisters, _ => ZERO), ZeroFile(), ZERO, ZERO, ZERO, 0, 0, world)
  }

  /** Every well-formed cache describes the machine whose registers are all zero. */
  lemma StartOfWf(env: Env, c: Cache, world: World)
    requires Wf(env, c)
    ensures Start(env, c, ZeroMachine(env, world), ZeroRegs(), 0)
  {
    assert File(ZeroRegs(), 0) == ZeroFile();
  }

  // ----- labels -----

  /** With nothing in use, a fresh cache describes the machine. */
  lemma ResetMeaning(env: Env, c: Cache, m: Machine, regs: Regs, cond: Word)
    requires Sound(c) && |c.entries| == |m.host| && env.callerSaved == c.callerSaved
    requires m.sr == File(regs, cond) && regs[0] == 0
    ensures Start(env, Reset(c), m, regs, cond)
  {
    DeadRepresents(Reset(c), m);
  }

  lemma LabelSim(env: Env, c: Cache, m: Machine, regs: Regs, cond: Word) returns (m': Machine)
    requires Start(env, c, m, regs, cond)
    ensures var p := LabelCode(c);
            && Run(env, p.nodes, m) == Next(m') && m' == m.(sr := m'.sr)
            && Start(env, p.cache, m', regs, cond) && AllDead(p.cache.entries)
  {
    StartOk(env, c, m, regs, cond);
    m' := FlushClears(env, Gen(c, []), m, m, regs, cond);
    var g := FlushAll(Gen(c, []));
    ResetMeaning(env, g.cache, m', regs, cond);
    RunLast(env, Straight(g.ops), m);
  }

  // ----- the latent check -----

  lemma LatentCheckSim(env: Env, c: Cache, m: Machine, regs: Regs, cond: Word) returns (m': Machine)
    requires Start(env, c, m, regs, cond)
    ensures var p := LatentCheck(c);
            && Run(env, p.nodes, m) == (if m.slotFlag == 0 then Next(m') else Latent(m'))
            && Clear(env, p.cache, m', regs, cond) && m' == m.(host := m'.host, sr := m'.sr) && |m'.host| == |m.host|
  {
    StartOk(env, c, m, regs, cond);
    var m1 := ModifySim(env, Gen(c, []), m, m, multiset{}, File(regs, cond), SCRATCH0);
    m' := LatentCheckCore(env, ModifyReg(Gen(c, []), SCRATCH0), m, m1, regs, cond);
  }

  lemma LatentCheckCore(env: Env, g: Gen, m0: Machine, m: Machine, regs: Regs, cond: Word) returns (m': Machine)
    requires Exec(env, g.ops, m0) == m && Sound(g.cache) && env.callerSaved == g.cache.callerSaved && regs[0] == 0
    requires Reserved(g.cache.entries, m, File(regs, cond), SCRATCH0) && Held(g.cache.entries, multiset{SCRATCH0})
    ensures var h := Where(g.cache.entries, SCRATCH0);
            var g2 := FlushAll(UnlockReg(Emit(g, GetField(SlotFlag, h)), SCRATCH0));
            && Run(env, [Straight(g2.ops), LatentIfNonZero(h)], m0) == (if m.slotFlag == 0 then Next(m') else Latent(m'))
            && Clear(env, g2.cache, m', regs, cond) && m' == m.(host := m'.host, sr := m'.sr) && |m'.host| == |m.host|
  {
    var h := Where(g.cache.entries, SCRATCH0);
    var m1, g1 := WriteOnly(env, g, GetField(SlotFlag, h), m0, m, File(regs, cond), SCRATCH0, SignExt(m.slotFlag));
    m' := FlushClears(env, g1, m0, m1, regs, cond);
    RunThen(env, FlushAll(g1).ops, LatentIfNonZero(h), m0);
  }

  // ----- jumping on -----

  /** Control enters the block at the given word; m carries any pending slot in the CPU state. */
  predicate Enters(env: Env, m: Machine, regs: Regs, world: World, pc: nat, pending: Pending) {
    && |m.host| == env.hostRegisters >= 2 && regs[0] == 0
    && m.sr[..32] == regs && m.world == world
    && WordIndex(m.host[NEXT_PC].lo) == pc
    && pending == StateSlot(m)
  }

  lemma GoToSim(env: Env, m: Machine, info: Info) returns (m': Machine)
    requires |m.host| >= 1
    ensures Run(env, GoTo(info), m) == Enter(m')
    ensures m' == m.(host := m'.host) && |m'.host| == |m.host| && WordIndex(m'.host[NEXT_PC].lo) == TargetWord(info, m.indirect)
  {
    var v := TargetOpValue(env, m, info, NEXT_PC);
    m' := Poke(m, NEXT_PC, v);
    ExecOne(env, TargetOp(info, NEXT_PC), m);
    RunThen(env, [TargetOp(info, NEXT_PC)], JumpEnter, m);
  }

  // ----- an ordinary slot -----

  /** Where control goes after a slot whose branch has the given outcome. */
  predicate Resolved(env: Env, o: Outcome, c: Cache, m: Machine, m': Machine, regs: Regs, last: Info, taken: bool, base: nat,
                     end: nat)
  {
    && m' == m.(host := m'.host, sr := m'.sr) && |m'.host| == |m.host| && m'.sr == File(regs, 0) && regs[0] == 0
    && Idle(env, c, |m.host|)
    && if !taken then o == Next(m') && Clear(env, c, m', regs, 0)
       else if IsLocal(last, base, end) then o == Local((last.target - 4 * base) / 4, m')
       else o == Enter(m') && |m.host| >= 1 && WordIndex(m'.host[NEXT_PC].lo) == TargetWord(last, m.indirect)
  }

  lemma JumpSlotSim(env: Env, c: Cache, m: Machine, regs: Regs, cond: Word, last: Info, base: nat, end: nat)
    returns (m': Machine)
    requires Start(env, c, m, regs, cond) && !last.conditional
    ensures var p := ResolveSlot(c, last, base, end);
            Resolved(env, Run(env, p.nodes, m), p.cache, m, m', regs, last, true, base, end)
  {
    StartOk(env, c, m, regs, cond);
    var rf := File(regs, cond);
    var m1 := ModifySim(env, Gen(c, []), m, m, multiset{}, rf, COND);
    var g1 := ModifyReg(Gen(c, []), COND);
    var h := Where(g1.cache.entries, COND);
    var m2 := ClearCond(env, g1, m, m1, regs, cond);
    var g2 := FlushAll(UnlockReg(Emit(g1, MovI(h, ZERO)), COND));
    if IsLocal(last, base, end) {
      m' := m2;
      RunThen(env, g2.ops, JumpLocal((last.target - 4 * base) / 4), m);
      assert [Straight(g2.ops)] + [JumpLocal((last.target - 4 * base) / 4)]
          == [Straight(g2.ops), JumpLocal((last.target - 4 * base) / 4)];
    } else {
      m' := GoToSim(env, m2, last);
      RunStraight(env, g2.ops, GoTo(last), m);
    }
  }

  lemma ClearCond(env: Env, g: Gen, m0: Machine, m: Machine, regs: Regs, cond: Word) returns (m': Machine)
    requires Exec(env, g.ops, m0) == m && Sound(g.cache) && env.callerSaved == g.cache.callerSaved && regs[0] == 0
    requires Reserved(g.cache.entries, m, File(regs, cond), COND) && Held(g.cache.entries, multiset{COND})
    ensures var g2 := FlushAll(UnlockReg(Emit(g, MovI(Where(g.cache.entries, COND), ZERO)), COND));
            && Exec(env, g2.ops, m0) == m' && m' == m.(host := m'.host, sr := m'.sr)
            && Clear(env, g2.cache, m', regs, 0) && Idle(env, g2.cache, |m.host|)
  {
    var m1, g1 := WriteOnly(env, g, MovI(Where(g.cache.entries, COND), ZERO), m0, m, File(regs, cond), COND, ZERO);
    CondUpdate(regs, cond, 0);
    m' := FlushClears(env, g1, m0, m1, regs, 0);
  }

  /** Both registers of a conditional slot are held: the condition in hc, a scratch register hs. */
  ghost predicate ReadyToTest(env: Env, g: Gen, m0: Machine, m: Machine, regs: Regs, cond: Word, hc: nat) {
    && Exec(env, g.ops, m0) == m && Sound(g.cache) && env.callerSaved == g.cache.callerSaved && regs[0] == 0
    && Reserved(g.cache.entries, m, File(regs, cond), SCRATCH0)
    && Held(g.cache.entries, multiset{COND, COND} + multiset{SCRATCH0})
    && hc < |m.host| == |g.cache.entries| && hc != Where(g.cache.entries, SCRATCH0)
    && Owns(g.cache.entries[hc], COND) && g.cache.entries[hc].modified && g.cache.entries[hc].sign == NoExt
    && m.host[hc] == SignExt(cond)
  }

  lemma PrepareTest(env: Env, c: Cache, m: Machine, regs: Regs, cond: Word) returns (m': Machine)
    requires Start(env, c, m, regs, cond)
    ensures var g2 := ModifyReg(LoadReg(Gen(c, []), COND, NoExt), COND);
            ReadyToTest(env, ModifyReg(g2, SCRATCH0), m, m', regs, cond, Where(g2.cache.entries, COND))
    ensures m' == m.(host := m'.host, sr := m'.sr)
  {
    var g1, m1, hc := HoldCond(env, c, m, regs, cond);
    m' := PrepareTestCore(env, g1, m, m1, regs, cond);
  }

  lemma PrepareTestCore(env: Env, g: Gen, m0: Machine, m: Machine, regs: Regs, cond: Word) returns (m': Machine)
    requires Exec(env, g.ops, m0) == m && Good(g.cache, m, multiset{COND}, File(regs, cond))
    requires env.callerSaved == g.cache.callerSaved && regs[0] == 0
    ensures var g2 := ModifyReg(g, COND);
            ReadyToTest(env, ModifyReg(g2, SCRATCH0), m0, m', regs, cond, Where(g2.cache.entries, COND))
    ensures m' == m.(host := m'.host, sr := m'.sr)
  {
    var rf := File(regs, cond);
    var m2 := ModifySim(env, g, m0, m, multiset{COND}, rf, COND);
    var g2 := ModifyReg(g, COND);
    var hc := Where(g2.cache.entries, COND);
    assert COND in multiset{COND} && Owns(g.cache.entries[hc], COND);
    assert m2.host[hc] == SignExt(cond);
    assert m2.host[hc := m2.host[hc]] == m2.host && Set(rf, COND, cond) == rf;
    assert multiset{COND} + multiset{COND} == multiset{COND, COND};
    m' := ReserveScratch(env, g2, m0, m2, regs, cond, hc);
  }

  lemma ReserveScratch(env: Env, g: Gen, m0: Machine, m: Machine, regs: Regs, cond: Word, hc: nat) returns (m': Machine)
    requires Exec(env, g.ops, m0) == m && Good(g.cache, m, multiset{COND, COND}, File(regs, cond))
    requires env.callerSaved == g.cache.callerSaved && regs[0] == 0
    requires Where(g.cache.entries, COND) == hc && hc < |g.cache.entries|
    requires g.cache.entries[hc].modified && g.cache.entries[hc].sign == NoExt && m.host[hc] == SignExt(cond)
    ensures ReadyToTest(env, ModifyReg(g, SCRATCH0), m0, m', regs, cond, hc)
    ensures m' == m.(host := m'.host, sr := m'.sr)
  {
    m' := ModifySim(env, g, m0, m, multiset{COND, COND}, File(regs, cond), SCRATCH0);
    assert COND in multiset{COND, COND};
  }

  /** Copy the condition to the scratch register, clear it and release everything. */
  lemma TestMoves(env: Env, g: Gen, m0: Machine, m: Machine, regs: Regs, cond: Word, hs: nat, hc: nat) returns (m': Machine, g': Gen)
    requires ReadyToTest(env, g, m0, m, regs, cond, hc) && hs == Where(g.cache.entries, SCRATCH0)
    ensures g' == UnlockReg(UnlockReg(UnlockReg(Emit(Emit(g, MovR(hs, hc)), MovI(hc, ZERO)), COND), COND), SCRATCH0)
    ensures Ok(env, g', m0, m', File(regs, 0)) && m' == m.(host := m'.host) && |m'.host| == |m.host|
    ensures hs < |m'.host| && m'.host[hs] == SignExt(cond)
  {
    var m1 := Poke(m, hs, SignExt(cond));
    m' := Poke(m1, hc, ZERO);
    RunTwo(env, g.ops, MovR(hs, hc), MovI(hc, ZERO), m0, m, m1, m');
    var g4 := Emit(Emit(g, MovR(hs, hc)), MovI(hc, ZERO));
    assert m1.host == m.host[hs := SignExt(cond)];
    OverwriteMeaning(g.cache.entries, m1.host, m1.sr, File(regs, cond), hc, COND, ZERO);
    CondUpdate(regs, cond, 0);
    assert multiset{COND, COND} + multiset{SCRATCH0} == multiset{COND} + multiset{COND} + multiset{SCRATCH0};
    ReleaseThree(g4, m', File(regs, 0), COND, COND, SCRATCH0);
    g' := UnlockReg(UnlockReg(UnlockReg(g4, COND), COND), SCRATCH0);
  }

  /** And flush. */
  lemma TestCode(env: Env, g: Gen, m0: Machine, m: Machine, regs: Regs, cond: Word, hc: nat) returns (m': Machine)
    requires ReadyToTest(env, g, m0, m, regs, cond, hc)
    ensures var hs := Where(g.cache.entries, SCRATCH0);
            var g4 := Emit(Emit(g, MovR(hs, hc)), MovI(hc, ZERO));
            var g5 := FlushAll(UnlockReg(UnlockReg(UnlockReg(g4, COND), COND), SCRATCH0));
            && Exec(env, g5.ops, m0) == m' && m' == m.(host := m'.host, sr := m'.sr)
            && Clear(env, g5.cache, m', regs, 0) && Idle(env, g5.cache, |m.host|)
            && hs < |m'.host| && m'.host[hs] == SignExt(cond)
  {
    var m2, g' := TestMoves(env, g, m0, m, regs, cond, Where(g.cache.entries, SCRATCH0), hc);
    m' := FlushClears(env, g', m0, m2, regs, 0);
  }

  lemma BranchSlotSim(env: Env, c: Cache, m: Machine, regs: Regs, cond: Word, last: Info, base: nat, end: nat)
    returns (m': Machine)
    requires Start(env, c, m, regs, cond) && last.conditional
    ensures var p := ResolveSlot(c, last, base, end);
            Resolved(env, Run(env, p.nodes, m), p.cache, m, m', regs, last, cond != 0, base, end)
  {
    var m3 := PrepareTest(env, c, m, regs, cond);
    var g2 := ModifyReg(LoadReg(Gen(c, []), COND, NoExt), COND);
    m' := TestPieceSim(env, ModifyReg(g2, SCRATCH0), m, m3, regs, cond, Where(g2.cache.entries, COND), last, base, end);
  }

  lemma TestPieceSim(env: Env, g: Gen, m0: Machine, m: Machine, regs: Regs, cond: Word, hc: nat, last: Info, base: nat, end: nat)
    returns (m': Machine)
    requires ReadyToTest(env, g, m0, m, regs, cond, hc) && m == m0.(host := m.host, sr := m.sr)
    ensures var p := TestPiece(g, hc, last, base, end);
            Resolved(env, Run(env, p.nodes, m0), p.cache, m0, m', regs, last, cond != 0, base, end)
  {
    var hs := Where(g.cache.entries, SCRATCH0);
    var m5 := TestCode(env, g, m0, m, regs, cond, hc);
    var g4 := Emit(Emit(g, MovR(hs, hc)), MovI(hc, ZERO));
    var g5 := FlushAll(UnlockReg(UnlockReg(UnlockReg(g4, COND), COND), SCRATCH0));
    m' := TestAndGo(env, g5, m0, m5, regs, cond, last, base, end, hs);
  }

  lemma TestAndGo(env: Env, g: Gen, m0: Machine, m: Machine, regs: Regs, cond: Word, last: Info, base: nat, end: nat, hs: nat)
    returns (m': Machine)
    requires Exec(env, g.ops, m0) == m && m == m0.(host := m.host, sr := m.sr) && Clear(env, g.cache, m, regs, 0)
    requires Idle(env, g.cache, |m0.host|)
    requires hs < |m.host| && m.host[hs] == SignExt(cond)
    ensures var nodes := [Straight(g.ops)] +
                         (if IsLocal(last, base, end) then [LocalIfNonZero(hs, (last.target - 4 * base) / 4)]
                          else [If(IsZero(hs), [], GoTo(last))]);
            Resolved(env, Run(env, nodes, m0), g.cache, m0, m', regs, last, cond != 0, base, end)
  {
    m' := m;
    if IsLocal(last, base, end) {
      RunThen(env, g.ops, LocalIfNonZero(hs, (last.target - 4 * base) / 4), m0);
      assert [Straight(g.ops)] + [LocalIfNonZero(hs, (last.target - 4 * base) / 4)]
          == [Straight(g.ops), LocalIfNonZero(hs, (last.target - 4 * base) / 4)];
    } else {
      RunThen(env, g.ops, If(IsZero(hs), [], GoTo(last)), m0);
      assert [Straight(g.ops)] + [If(IsZero(hs), [], GoTo(last))] == [Straight(g.ops), If(IsZero(hs), [], GoTo(last))];
      if cond != 0 {
        m' := GoToSim(env, m, last);
      }
    }
  }

  // ----- two branches in a row -----

  /** Hand the second branch to the CPU state and go to the first one's target. */
  predicate HandedOver(m: Machine, m': Machine, info: Info, last: Info, flag: Word) {
    && m' == m.(host := m'.host, slotFlag := flag, target := m'.target) && |m'.host| == |m.host| >= 1
    && WordIndex(m'.target) == TargetWord(info, m.indirect)
    && WordIndex(m'.host[NEXT_PC].lo) == TargetWord(last, m.frameIndirect)
  }

  lemma HandOverSim(env: Env, m: Machine, info: Info, last: Info, hc: nat) returns (m': Machine)
    requires hc < |m.host|
    ensures Run(env, HandOver(info, last, hc), m) == Enter(m')
    ensures HandedOver(m, m', info, last, if info.conditional then m.host[hc].lo else 1)
  {
    var force := if info.conditional then [] else [MovI(hc, ZeroExt(1))];
    var m1 := if info.conditional then m else Poke(m, hc, ZeroExt(1));
    if !info.conditional { ExecOne(env, MovI(hc, ZeroExt(1)), m); }
    var ops := [PutField(SlotFlag, hc), TargetOp(info, hc), PutField(Target, hc), FirstTargetOp(last)];
    assert HandOver(info, last, hc) == [Straight(force)] + [Straight(ops), JumpEnter];
    RunStraight(env, force, [Straight(ops), JumpEnter], m);
    RunThen(env, ops, JumpEnter, m1);
    m' := HandOverOps(env, m1, info, last, hc);
  }

  lemma HandOverOps(env: Env, m: Machine, info: Info, last: Info, hc: nat) returns (m': Machine)
    requires hc < |m.host|
    ensures Exec(env, [PutField(SlotFlag, hc), TargetOp(info, hc), PutField(Target, hc), FirstTargetOp(last)], m) == m'
    ensures HandedOver(m, m', info, last, m.host[hc].lo)
  {
    var m1 := m.(slotFlag := m.host[hc].lo);
    var v := TargetOpValue(env, m1, info, hc);
    var m2 := Poke(m1, hc, v);
    var m3 := m2.(target := v.lo);
    var t := if last.indirect then m.frameIndirect else TargetImm(last.target);
    m' := Poke(m3, NEXT_PC, t);
    ExecFour(env, PutField(SlotFlag, hc), TargetOp(info, hc), PutField(Target, hc), FirstTargetOp(last), m);
  }

  /** Where control goes after a branch in the slot of a branch. */
  predicate DoubleResolved(env: Env, o: Outcome, c: Cache, m: Machine, m': Machine, regs: Regs, cond: Word, info: Info,
                           last: Info)
  {
    && Idle(env, c, |m.host|) && m'.sr == File(regs, cond) && regs[0] == 0 && |m'.host| == |m.host|
    && if last.conditional && m.frameCond == ZERO then
         && o == Next(m') && Clear(env, c, m', regs, cond)
         && m' == m.(host := m'.host, sr := m'.sr, frameCond := m'.frameCond)
       else
         && o == Enter(m') && |m'.host| >= 1
         && m' == m.(host := m'.host, sr := m'.sr, frameCond := m'.frameCond, slotFlag := HandedFlag(info, last, cond),
                     target := m'.target)
         && WordIndex(m'.target) == TargetWord(info, m.indirect)
         && WordIndex(m'.host[NEXT_PC].lo) == TargetWord(last, m.frameIndirect)
  }

  /** What the code stores in has_delay_slot; with an unconditional first branch it stores 0 for a conditional second one. */
  function HandedFlag(info: Info, last: Info, cond: Word): Word {
    if !info.conditional then 1 else if last.conditional then cond else 0
  }

  /** The condition in hc and two scratch registers. */
  predicate ReadyForDouble(env: Env, g: Gen, m0: Machine, m: Machine, regs: Regs, cond: Word, hc: nat, hs: nat, hi: nat) {
    && Exec(env, g.ops, m0) == m && env.callerSaved == g.cache.callerSaved && regs[0] == 0
    && Good(g.cache, m, multiset{COND} + multiset{SCRATCH0} + multiset{SCRATCH1}, File(regs, cond))
    && hc < |m.host| && hs < |m.host| && hi < |m.host| && hc != hs && hc != hi && hs != hi
    && m.host[hc] == SignExt(cond)
  }

  lemma PrepareDouble(env: Env, c: Cache, m: Machine, regs: Regs, cond: Word) returns (m': Machine)
    requires Start(env, c, m, regs, cond)
    ensures var g1 := LoadReg(Gen(c, []), COND, NoExt);
            var g2 := ModifyReg(g1, SCRATCH0);
            var g3 := ModifyReg(g2, SCRATCH1);
            ReadyForDouble(env, g3, m, m', regs, cond, Where(g1.cache.entries, COND), Where(g2.cache.entries, SCRATCH0),
                           Where(g3.cache.entries, SCRATCH1))
    ensures m' == m.(host := m'.host, sr := m'.sr)
  {
    var g1, m1, hc := HoldCond(env, c, m, regs, cond);
    m' := PrepareDoubleCore(env, g1, m, m1, regs, cond, hc);
  }

  /** Load the condition and keep it locked. */
  lemma HoldCond(env: Env, c: Cache, m: Machine, regs: Regs, cond: Word) returns (g: Gen, m': Machine, hc: nat)
    requires Start(env, c, m, regs, cond)
    ensures g == LoadReg(Gen(c, []), COND, NoExt) && Exec(env, g.ops, m) == m' && Good(g.cache, m', multiset{COND}, File(regs, cond))
    ensures env.callerSaved == g.cache.callerSaved && regs[0] == 0 && m' == m.(host := m'.host, sr := m'.sr)
    ensures hc == Where(g.cache.entries, COND) < |m'.host| && m'.host[hc] == SignExt(cond)
  {
    StartOk(env, c, m, regs, cond);
    m' := LoadSim(env, Gen(c, []), m, m, multiset{}, File(regs, cond), COND, NoExt);
    g := LoadReg(Gen(c, []), COND, NoExt);
    hc := Where(g.cache.entries, COND);
    assert multiset{} + multiset{COND} == multiset{COND};
    CondExtended(g.cache, m', multiset{COND}, regs, cond, hc);
  }

  lemma CondExtended(c: Cache, m: Machine, held: multiset<nat>, regs: Regs, cond: Word, hc: nat)
    requires Good(c, m, held, File(regs, cond)) && hc == Where(c.entries, COND) < |m.host|
    ensures m.host[hc] == SignExt(cond)
  {
    assert Owns(c.entries[hc], COND);
    assert EntryFaithful(c.entries[hc], m.host[hc], m.sr, File(regs, cond));
  }

  lemma PrepareDoubleCore(env: Env, g: Gen, m0: Machine, m: Machine, regs: Regs, cond: Word, hc: nat) returns (m': Machine)
    requires Exec(env, g.ops, m0) == m && Good(g.cache, m, multiset{COND}, File(regs, cond))
    requires env.callerSaved == g.cache.callerSaved && regs[0] == 0
    requires hc == Where(g.cache.entries, COND) < |m.host| && m.host[hc] == SignExt(cond)
    ensures var g2 := ModifyReg(g, SCRATCH0);
            var g3 := ModifyReg(g2, SCRATCH1);
            ReadyForDouble(env, g3, m0, m', regs, cond, hc, Where(g2.cache.entries, SCRATCH0), Where(g3.cache.entries, SCRATCH1))
    ensures m' == m.(host := m'.host, sr := m'.sr)
  {
    var rf := File(regs, cond);
    var m2 := ModifySim(env, g, m0, m, multiset{COND}, rf, SCRATCH0);
    var g2 := ModifyReg(g, SCRATCH0);
    var hs := Where(g2.cache.entries, SCRATCH0);
    assert COND in multiset{COND};
    assert m2.host[hs := m2.host[hs]] == m2.host;
    m' := PrepareDoubleLast(env, g2, m0, m2, regs, cond, hc, hs);
  }

  lemma PrepareDoubleLast(env: Env, g: Gen, m0: Machine, m: Machine, regs: Regs, cond: Word, hc: nat, hs: nat)
    returns (m': Machine)
    requires Exec(env, g.ops, m0) == m && Good(g.cache, m, multiset{COND} + multiset{SCRATCH0}, File(regs, cond))
    requires env.callerSaved == g.cache.callerSaved && regs[0] == 0
    requires hc == Where(g.cache.entries, COND) < |m.host| && hs == Where(g.cache.entries, SCRATCH0) < |m.host|
    requires hc != hs && m.host[hc] == SignExt(cond)
    ensures var g3 := ModifyReg(g, SCRATCH1);
            ReadyForDouble(env, g3, m0, m', regs, cond, hc, hs, Where(g3.cache.entries, SCRATCH1))
    ensures m' == m.(host := m'.host, sr := m'.sr)
  {
    var held := multiset{COND} + multiset{SCRATCH0};
    m' := ModifySim(env, g, m0, m, held, File(regs, cond), SCRATCH1);
    var hi := Where(ModifyReg(g, SCRATCH1).cache.entries, SCRATCH1);
    assert COND in held && SCRATCH0 in held;
    assert m'.host[hi := m'.host[hi]] == m'.host;
  }

  lemma DoubleBranchSim(env: Env, c: Cache, m: Machine, regs: Regs, cond: Word, info: Info, last: Info) returns (m': Machine)
    requires Start(env, c, m, regs, cond)
    ensures var p := ResolveDoubleBranch(c, info, last);
            DoubleResolved(env, Run(env, p.nodes, m), p.cache, m, m', regs, cond, info, last)
  {
    var m1 := PrepareDouble(env, c, m, regs, cond);
    var g1 := LoadReg(Gen(c, []), COND, NoExt);
    var g2 := ModifyReg(g1, SCRATCH0);
    var g3 := ModifyReg(g2, SCRATCH1);
    m' := DoublePieceSim(env, g3, m, m1, regs, cond, info, last, Where(g1.cache.entries, COND),
                         Where(g2.cache.entries, SCRATCH0), Where(g3.cache.entries, SCRATCH1));
  }

  lemma DoublePieceSim(env: Env, g: Gen, m0: Machine, m: Machine, regs: Regs, cond: Word, info: Info, last: Info,
                       hc: nat, hs: nat, hi: nat)
    returns (m': Machine)
    requires ReadyForDouble(env, g, m0, m, regs, cond, hc, hs, hi) && m == m0.(host := m.host, sr := m.sr)
    ensures var p := DoublePiece(g, info, last, hc, hs, hi);
            DoubleResolved(env, Run(env, p.nodes, m0), p.cache, m0, m', regs, cond, info, last)
  {
    ReleaseThree(g, m, File(regs, cond), COND, SCRATCH0, SCRATCH1);
    var g3 := UnlockReg(UnlockReg(UnlockReg(g, COND), SCRATCH0), SCRATCH1);
    var m4 := FlushClears(env, g3, m0, m, regs, cond);
    if last.conditional {
      m' := ConditionalDouble(env, FlushAll(g3), m0, m4, regs, cond, info, last, hc, hs, hi);
    } else {
      m' := UnconditionalDouble(env, FlushAll(g3), m0, m4, regs, cond, info, last, hc);
    }
  }

  /** Fetch the first branch's condition into hi and clear its stack slot. */
  lemma RestoreFirst(env: Env, m: Machine, hs: nat, hi: nat) returns (m': Machine)
    requires hs < |m.host| && hi < |m.host| && hs != hi
    ensures Exec(env, [GetField(FrameCond, hi), MovI(hs, ZERO), PutField(FrameCond, hs)], m) == m'
    ensures m' == m.(host := m.host[hi := m.frameCond][hs := ZERO], frameCond := ZERO)
  {
    ExecThree(env, GetField(FrameCond, hi), MovI(hs, ZERO), PutField(FrameCond, hs), m);
    m' := m.(host := m.host[hi := m.frameCond][hs := ZERO], frameCond := ZERO);
  }

  lemma ConditionalDouble(env: Env, g: Gen, m0: Machine, m: Machine, regs: Regs, cond: Word, info: Info, last: Info,
                          hc: nat, hs: nat, hi: nat)
    returns (m': Machine)
    requires Exec(env, g.ops, m0) == m && m == m0.(host := m.host, sr := m.sr) && last.conditional
    requires Clear(env, g.cache, m, regs, cond) && Idle(env, g.cache, |m0.host|)
    requires hc < |m.host| && hs < |m.host| && hi < |m.host| && hc != hs && hc != hi && hs != hi && m.host[hc] == SignExt(cond)
    ensures var nodes := [Straight(g.ops), Straight([GetField(FrameCond, hi), MovI(hs, ZERO), PutField(FrameCond, hs)]),
                          If(IsZero(hi), [], HandOver(info, last, hc))];
            DoubleResolved(env, Run(env, nodes, m0), g.cache, m0, m', regs, cond, info, last)
  {
    var ops := [GetField(FrameCond, hi), MovI(hs, ZERO), PutField(FrameCond, hs)];
    var test := If(IsZero(hi), [], HandOver(info, last, hc));
    var m1 := RestoreFirst(env, m, hs, hi);
    assert [Straight(g.ops), Straight(ops), test] == [Straight(g.ops)] + [Straight(ops), test];
    RunStraight(env, g.ops, [Straight(ops), test], m0);
    RunThen(env, ops, test, m);
    if m.frameCond == ZERO {
      m' := m1;
      DeadRepresents(g.cache, m1);
    } else {
      m' := HandOverSim(env, m1, info, last, hc);
    }
  }

  lemma UnconditionalDouble(env: Env, g: Gen, m0: Machine, m: Machine, regs: Regs, cond: Word, info: Info, last: Info, hc: nat)
    returns (m': Machine)
    requires Exec(env, g.ops, m0) == m && m == m0.(host := m.host, sr := m.sr) && !last.conditional
    requires Clear(env, g.cache, m, regs, cond) && Idle(env, g.cache, |m0.host|) && hc < |m.host|
    ensures var nodes := [Straight(g.ops), Straight([MovI(hc, ZERO), PutField(FrameCond, hc)])] + HandOver(info, last, hc);
            DoubleResolved(env, Run(env, nodes, m0), g.cache, m0, m', regs, cond, info, last)
  {
    var ops := [MovI(hc, ZERO), PutField(FrameCond, hc)];
    var m1 := Poke(m, hc, ZERO).(frameCond := ZERO);
    ExecTwo(env, MovI(hc, ZERO), PutField(FrameCond, hc), m);
    assert [Straight(g.ops), Straight(ops)] + HandOver(info, last, hc)
        == [Straight(g.ops)] + ([Straight(ops)] + HandOver(info, last, hc));
    RunStraight(env, g.ops, [Straight(ops)] + HandOver(info, last, hc), m0);
    RunStraight(env, ops, HandOver(info, last, hc), m);
    m' := HandOverSim(env, m1, info, last, hc);
  }

  // ----- the end of a block -----

  lemma CarryOps(env: Env, m: Machine, last: Info, h: nat) returns (m': Machine)
    requires h < |m.host|
    ensures Run(env, Carry(last, h), m) == Next(m')
    ensures m' == m.(host := m'.host, slotFlag := 1, target := m'.target) && |m'.host| == |m.host|
    ensures WordIndex(m'.target) == TargetWord(last, m.indirect)
  {
    var v := TargetOpValue(env, m, last, h);
    var m1 := Poke(m, h, v);
    var m2 := m1.(target := v.lo);
    var m3 := Poke(m2, h, ZeroExt(1));
    m' := m3.(slotFlag := 1);
    ExecFour(env, TargetOp(last, h), PutField(Target, h), MovI(h, ZeroExt(1)), PutField(SlotFlag, h), m);
    RunLast(env, Straight([TargetOp(last, h), PutField(Target, h), MovI(h, ZeroExt(1)), PutField(SlotFlag, h)]), m);
  }

  /** A pending branch ends up in the CPU state. */
  lemma CarrySim(env: Env, m: Machine, last: Info, cond: Word, hc: nat, hs: nat, pending: Pending) returns (m': Machine)
    requires PendingIs(false, last, cond, m, pending) && hs < |m.host|
    requires last.branch && last.conditional ==> hc < |m.host| && m.host[hc] == SignExt(cond)
    ensures Run(env, CarryNodes(last, hc, hs), m) == Next(m')
    ensures m' == m.(host := m'.host, slotFlag := m'.slotFlag, target := m'.target) && |m'.host| == |m.host|
    ensures StateSlot(m') == pending
  {
    m' := m;
    if last.branch {
      if last.conditional {
        RunLast(env, If(IsZero(hc), [], Carry(last, hs)), m);
        if cond != 0 {
          m' := CarryOps(env, m, last, hs);
        }
      } else {
        m' := CarryOps(env, m, last, hs);
      }
    }
  }

  lemma EndPcWord(end: nat)
    requires end <= MEM_WORDS
    ensures WordIndex((4 * end) % W) == end % MEM_WORDS
  {
  }

  lemma EndPieceSim(env: Env, g: Gen, m0: Machine, m: Machine, regs: Regs, cond: Word, last: Info, end: nat, hc: nat,
                    pending: Pending)
    returns (m': Machine)
    requires Ok(env, g, m0, m, File(regs, cond)) && regs[0] == 0 && m == m0.(host := m.host, sr := m.sr)
    requires |m0.host| == env.hostRegisters && end <= MEM_WORDS
    requires PendingIs(false, last, cond, m, pending)
    requires last.branch && last.conditional ==> hc < |m.host| && m.host[hc] == SignExt(cond)
    ensures var p := EndPiece(g, last, end, hc);
            && Run(env, p.nodes, m0) == Enter(m') && Idle(env, p.cache, env.hostRegisters)
            && Enters(env, m', regs, m.world, end % MEM_WORDS, pending)
  {
    var m2 := ModifySim(env, g, m0, m, multiset{}, File(regs, cond), SCRATCH0);
    m' := EndPieceCore(env, ModifyReg(g, SCRATCH0), m0, m2, regs, cond, last, end, hc, pending);
  }

  lemma EndPieceCore(env: Env, g: Gen, m0: Machine, m: Machine, regs: Regs, cond: Word, last: Info, end: nat, hc: nat,
                     pending: Pending)
    returns (m': Machine)
    requires Exec(env, g.ops, m0) == m && Sound(g.cache) && env.callerSaved == g.cache.callerSaved && regs[0] == 0
    requires Reserved(g.cache.entries, m, File(regs, cond), SCRATCH0) && Held(g.cache.entries, multiset{SCRATCH0})
    requires |m0.host| == env.hostRegisters && end <= MEM_WORDS
    requires PendingIs(false, last, cond, m, pending)
    requires last.branch && last.conditional ==> hc < |m.host| && m.host[hc] == SignExt(cond)
    ensures var hs := Where(g.cache.entries, SCRATCH0);
            var g3 := FlushAll(UnlockReg(g, SCRATCH0));
            var nodes := [Straight(g3.ops)] + (CarryNodes(last, hc, hs) + [Straight([MovI(NEXT_PC, ZeroExt((4 * end) % W))]), JumpEnter]);
            && Run(env, nodes, m0) == Enter(m') && Idle(env, g3.cache, env.hostRegisters)
            && Enters(env, m', regs, m.world, end % MEM_WORDS, pending)
  {
    var hs := Where(g.cache.entries, SCRATCH0);
    assert m.host[hs := m.host[hs]] == m.host;
    UnlockMeaning(g, m, multiset{SCRATCH0}, File(regs, cond), SCRATCH0);
    var g3 := FlushAll(UnlockReg(g, SCRATCH0));
    var m3 := FlushClears(env, UnlockReg(g, SCRATCH0), m0, m, regs, cond);
    m' := LeaveBlock(env, g3, m0, m3, regs, cond, last, end, hc, hs, pending);
  }

  lemma LeaveBlock(env: Env, g: Gen, m0: Machine, m: Machine, regs: Regs, cond: Word, last: Info, end: nat, hc: nat, hs: nat,
                   pending: Pending)
    returns (m': Machine)
    requires Exec(env, g.ops, m0) == m && Clear(env, g.cache, m, regs, cond) && Sound(g.cache)
    requires |m0.host| == env.hostRegisters && end <= MEM_WORDS && hs < |m.host|
    requires PendingIs(false, last, cond, m, pending)
    requires last.branch && last.conditional ==> hc < |m.host| && m.host[hc] == SignExt(cond)
    ensures var nodes := [Straight(g.ops)] + (CarryNodes(last, hc, hs) + [Straight([MovI(NEXT_PC, ZeroExt((4 * end) % W))]), JumpEnter]);
            Run(env, nodes, m0) == Enter(m') && Enters(env, m', regs, m.world, end % MEM_WORDS, pending)
  {
    var pc := MovI(NEXT_PC, ZeroExt((4 * end) % W));
    RunStraight(env, g.ops, CarryNodes(last, hc, hs) + [Straight([pc]), JumpEnter], m0);
    RunConcat(env, CarryNodes(last, hc, hs), [Straight([pc]), JumpEnter], m);
    var m1 := CarrySim(env, m, last, cond, hc, hs, pending);
    m' := Poke(m1, NEXT_PC, ZeroExt((4 * end) % W));
    ExecOne(env, pc, m1);
    RunThen(env, [pc], JumpEnter, m1);
    EndPcWord(end);
    assert File(regs, cond)[..32] == regs;
  }

  /** Running off the end of a block enters the next one with the same pending branch. */
  lemma EndOfBlockSim(env: Env, c: Cache, m: Machine, regs: Regs, cond: Word, last: Info, end: nat, pending: Pending)
    returns (m': Machine)
    requires Start(env, c, m, regs, cond) && |m.host| == env.hostRegisters && end <= MEM_WORDS
    requires PendingIs(false, last, cond, m, pending)
    ensures var p := EndOfBlock(c, last, end);
            && Run(env, p.nodes, m) == Enter(m') && Idle(env, p.cache, env.hostRegisters)
            && Enters(env, m', regs, m.world, end % MEM_WORDS, pending)
  {
    StartOk(env, c, m, regs, cond);
    var m1 := FlushClears(env, Gen(c, []), m, m, regs, cond);
    var g0 := FlushAll(Gen(c, []));
    if last.branch && last.conditional {
      m' := EndConditional(env, g0, m, m1, regs, cond, last, end, pending);
    } else {
      m' := EndPieceSim(env, g0, m, m1, regs, cond, last, end, 0, pending);
    }
  }

  lemma EndConditional(env: Env, g: Gen, m0: Machine, m: Machine, regs: Regs, cond: Word, last: Info, end: nat, pending: Pending)
    returns (m': Machine)
    requires Ok(env, g, m0, m, File(regs, cond)) && regs[0] == 0 && m == m0.(host := m.host, sr := m.sr)
    requires |m0.host| == env.hostRegisters && end <= MEM_WORDS && last.branch && last.conditional
    requires PendingIs(false, last, cond, m, pending)
    ensures var g1 := LoadReg(g, COND, NoExt);
            var p := EndPiece(UnlockReg(g1, COND), last, end, Where(g1.cache.entries, COND));
            && Run(env, p.nodes, m0) == Enter(m') && Idle(env, p.cache, env.hostRegisters)
            && Enters(env, m', regs, m.world, end % MEM_WORDS, pending)
  {
    var m1, hc := LoadCond(env, g, m0, m, regs, cond);
    m' := EndPieceSim(env, UnlockReg(LoadReg(g, COND, NoExt), COND), m0, m1, regs, cond, last, end, hc, pending);
  }

  /** Load the condition and release it: its register stays readable until something else is loaded. */
  lemma LoadCond(env: Env, g: Gen, m0: Machine, m: Machine, regs: Regs, cond: Word) returns (m': Machine, hc: nat)
    requires Ok(env, g, m0, m, File(regs, cond))
    ensures var g1 := LoadReg(g, COND, NoExt);
            && hc == Where(g1.cache.entries, COND) < |m'.host| && m'.host[hc] == SignExt(cond)
            && Ok(env, UnlockReg(g1, COND), m0, m', File(regs, cond)) && m' == m.(host := m'.host, sr := m'.sr)
  {
    var rf := File(regs, cond);
    m' := LoadSim(env, g, m0, m, multiset{}, rf, COND, NoExt);
    var g1 := LoadReg(g, COND, NoExt);
    hc := Where(g1.cache.entries, COND);
    assert Owns(g1.cache.entries[hc], COND);
    UnlockMeaning(g1, m', multiset{COND}, rf, COND);
  }

  // ----- a slot inherited from the block before -----

  /** The inherited target is entered; a branch in the first instruction becomes the new pending slot. */
  lemma LatentSim(env: Env, c: Cache, m: Machine, regs: Regs, cond: Word, first: Info, jump: Pending) returns (m': Machine)
    requires Idle(env, c, |m.host|) && |m.host| == env.hostRegisters >= 3 && m.sr == File(regs, cond) && regs[0] == 0
    requires Encodes(first, jump, cond, m.indirect)
    ensures Run(env, LatentCode(c, first), m) == Enter(m')
    ensures Enters(env, m', regs, m.world, WordIndex(m.target), jump)
  {
    DeadRepresents(c, m);
    if first.branch && first.conditional {
      var m1, hc := LoadCond(env, Gen(c, []), m, m, regs, cond);
      var g := UnlockReg(LoadReg(Gen(c, []), COND, NoExt), COND);
      m' := LatentTail(env, g, m, m1, regs, cond, first, jump, hc);
    } else {
      m' := LatentTail(env, Gen(c, []), m, m, regs, cond, first, jump, NEXT_PC);
    }
  }

  lemma LatentTail(env: Env, g: Gen, m0: Machine, m: Machine, regs: Regs, cond: Word, first: Info, jump: Pending, hc: nat)
    returns (m': Machine)
    requires Ok(env, g, m0, m, File(regs, cond)) && regs[0] == 0 && m == m0.(host := m.host, sr := m.sr)
    requires |m0.host| == env.hostRegisters >= 3 && hc < |m.host| && Encodes(first, jump, cond, m.indirect)
    requires first.branch && first.conditional ==> m.host[hc] == SignExt(cond)
    requires !(first.branch && first.conditional) ==> hc == NEXT_PC
    ensures Run(env, [Straight(FlushAll(g).ops)] + LatentNodes(first, hc), m0) == Enter(m')
    ensures Enters(env, m', regs, m.world, WordIndex(m.target), jump)
  {
    var m1 := FlushClears(env, g, m0, m, regs, cond);
    RunStraight(env, FlushAll(g).ops, LatentNodes(first, hc), m0);
    assert File(regs, cond)[..32] == regs;
    if first.branch {
      m' := LatentBranch(env, m1, cond, first, jump, hc);
    } else {
      m' := TakeSlot(env, m1);
      RunThen(env, [MovI(NEXT_PC, ZERO), PutField(SlotFlag, NEXT_PC), GetField(Target, NEXT_PC)], JumpEnter, m1);
    }
  }

  lemma LatentBranch(env: Env, m: Machine, cond: Word, first: Info, jump: Pending, hc: nat) returns (m': Machine)
    requires |m.host| >= 3 && hc < |m.host| && first.branch && Encodes(first, jump, cond, m.indirect)
    requires first.conditional ==> m.host[hc] == SignExt(cond)
    ensures Run(env, LatentNodes(first, hc), m) == Enter(m')
    ensures m' == m.(host := m'.host, slotFlag := m'.slotFlag, target := m'.target) && |m'.host| == |m.host|
    ensures WordIndex(m'.host[NEXT_PC].lo) == WordIndex(m.target) && StateSlot(m') == jump
  {
    var force := if first.conditional then [] else [MovI(hc, ZeroExt(1))];
    var m1 := if first.conditional then m else Poke(m, hc, ZeroExt(1));
    if !first.conditional { ExecOne(env, MovI(hc, ZeroExt(1)), m); }
    var ops := [PutField(SlotFlag, hc), GetField(Target, NEXT_PC), TargetOp(first, MODE), PutField(Target, MODE)];
    assert LatentNodes(first, hc) == [Straight(force)] + [Straight(ops), JumpEnter];
    RunStraight(env, force, [Straight(ops), JumpEnter], m);
    RunThen(env, ops, JumpEnter, m1);
    m' := LatentBranchOps(env, m1, first, hc);
  }

  lemma LatentBranchOps(env: Env, m: Machine, first: Info, hc: nat) returns (m': Machine)
    requires |m.host| >= 3 && hc < |m.host|
    ensures Exec(env, [PutField(SlotFlag, hc), GetField(Target, NEXT_PC), TargetOp(first, MODE), PutField(Target, MODE)], m) == m'
    ensures m' == m.(host := m'.host, slotFlag := m.host[hc].lo, target := m'.target) && |m'.host| == |m.host|
    ensures m'.host[NEXT_PC] == SignExt(m.target) && WordIndex(m'.target) == TargetWord(first, m.indirect)
  {
    var m1 := m.(slotFlag := m.host[hc].lo);
    var m2 := Poke(m1, NEXT_PC, SignExt(m.target));
    var v := TargetOpValue(env, m2, first, MODE);
    var m3 := Poke(m2, MODE, v);
    m' := m3.(target := v.lo);
    ExecFour(env, PutField(SlotFlag, hc), GetField(Target, NEXT_PC), TargetOp(first, MODE), PutField(Target, MODE), m);
  }
}
