/**
 * Block-compiled execution follows the one-instruction stepper.
 */
module Simulation {
  import opened Words
  import opened Isa
  import opened HostCode
  import opened RegCache
  import opened RegCacheProofs
  import opened Emitter
  import opened Region
  import opened Recompiler
  import opened InstrProofs
  import opened BranchProofs
  import opened SlotProofs
  import opened StepProofs
  import opened HandlerProofs
  import opened SlotOutcome
  import opened CompiledRun

  /** The machine in front of instruction i stands for the reference state, with `cond` in the condition register. */
  predicate Stands(env: Env, imem: Imem, base: nat, i: nat, m: Machine, cpu: Cpu, cond: Word) {
    && InRegion(imem, base, i) && cpu.pc == base + i && cpu.world == m.world && |m.host| == env.hostRegisters
    && Start(env, FrontOf(env, imem, base, i).cache, m, cpu.regs, cond)
    && PendingIs(i == 0, LastIn(imem, base, i), cond, m, cpu.pending)
  }

  ghost predicate Related(env: Env, imem: Imem, x: Config, cpu: Cpu) {
    x.At? && exists cond: Word :: Stands(env, imem, x.base, x.i, x.m, cpu, cond)
  }

  /** `run` returned with the mode, program counter, registers and memory of the reference state. */
  predicate Delivered(x: Config, mode: Word, cpu: Cpu) {
    && x.Exited? && x.mode == mode && x.pc == cpu.pc && x.m.sr[..32] == cpu.regs && x.m.world == cpu.world
    && x.m.slotFlag == 0 && cpu.pending == NoSlot
  }

  ghost predicate Matches(env: Env, imem: Imem, x: Config, p: Progress) {
    match p
    case Running(cpu) => Related(env, imem, x, cpu)
    case Stopped(mode, cpu) => Delivered(x, mode, cpu)
  }

  // ----- entering a block -----

  lemma ThunkMeaning(env: Env, m: Machine)
    requires |m.host| == env.hostRegisters >= 2
    ensures var m' := Thunk(env, m);
            |m'.host| == |m.host| && m'.sr == m.sr[COND := 0] && m'.slotFlag == m.slotFlag && m'.target == m.target
            && m'.world == m.world
  {
  }

  lemma EnterSim(env: Env, imem: Imem, m: Machine, regs: Regs, world: World, pc: nat, pending: Pending)
    requires Enters(env, m, regs, world, pc, pending) && EnoughRegisters(env)
    ensures Related(env, imem, Entered(env, m), Cpu(regs, pc, pending, world))
  {
    var m', cpu := Thunk(env, m), Cpu(regs, pc, pending, world);
    ThunkMeaning(env, m);
    FrontWf(env, imem, pc, 0, world);
    assert m'.sr == File(regs, 0);
    FrontZero(env, imem, pc, m', regs);
    assert Stands(env, imem, pc, 0, m', cpu, 0);
  }

  /** In front of the first instruction nothing is cached. */
  lemma FrontZero(env: Env, imem: Imem, base: nat, m: Machine, regs: Regs)
    requires base < MEM_WORDS && EnoughRegisters(env)
    requires m.sr == File(regs, 0) && |m.host| == env.hostRegisters && regs[0] == 0
    ensures Start(env, FrontOf(env, imem, base, 0).cache, m, regs, 0)
  {
    FrontWf(env, imem, base, 0, m.world);
    DeadRepresents(FrontOf(env, imem, base, 0).cache, m);
  }

  // ----- gotos -----

  /** A branch's recorded target word is the target the marking pass computes for it. */
  lemma DirectTarget(w: Word, at: nat, slotIsEntry: bool)
    requires var info := InfoOf(w, at, slotIsEntry); info.branch && !info.indirect
    ensures var info := InfoOf(w, at, slotIsEntry);
            info.target == 4 * TargetWord(info, ZERO) && TargetsWord(FlowOf(at, w), TargetWord(info, ZERO))
  {
    TargetsAgree(at, w);
    JumpWord(w);
  }

  /** Every local goto names an instruction of the region that has a label. */
  lemma LocalHasLabel(imem: Imem, base: nat, i: nat)
    requires InRegion(imem, base, i)
    requires InfoIn(imem, base, i).branch && IsLocal(InfoIn(imem, base, i), base, RegionEnd(imem, base))
    ensures var k := (InfoIn(imem, base, i).target - 4 * base) / 4;
            && k >= 0 && InRegion(imem, base, k) && IsEntry(imem, base, RegionEnd(imem, base), k)
            && TargetWord(InfoIn(imem, base, i), ZERO) == base + k
  {
    var end := RegionEnd(imem, base);
    DirectTarget(imem[base + i], base + i, SlotIsEntry(imem, base, end, i));
    var t := TargetWord(InfoIn(imem, base, i), ZERO);
    assert TargetsWord(FlowOf(base + i, imem[base + i]), t);
  }

  lemma LabelCache(env: Env, c: Cache, world: World) returns (c': Cache)
    requires Wf(env, c)
    ensures c' == LabelCode(c).cache && Idle(env, c', env.hostRegisters)
  {
    LabelWf(env, c, world);
    c' := LabelCode(c).cache;
  }

  lemma LabelIdle(env: Env, imem: Imem, base: nat, k: nat, world: World) returns (c: Cache)
    requires InRegion(imem, base, k) && k > 0 && EnoughRegisters(env) && IsEntry(imem, base, RegionEnd(imem, base), k)
    ensures c == FrontOf(env, imem, base, k).cache && Idle(env, c, env.hostRegisters)
  {
    var c0 := BodyOfWf(env, imem, base, k - 1, world);
    c := LabelCache(env, c0, world);
    var f := FrontFold(env, imem, base, k, c0);
  }

  /** A label can be reached with everything in memory and the condition clear. */
  lemma LabelFront(env: Env, imem: Imem, base: nat, k: nat, m: Machine, regs: Regs)
    requires InRegion(imem, base, k) && EnoughRegisters(env) && IsEntry(imem, base, RegionEnd(imem, base), k)
    requires m.sr == File(regs, 0) && |m.host| == env.hostRegisters && regs[0] == 0
    ensures Start(env, FrontOf(env, imem, base, k).cache, m, regs, 0)
  {
    if k == 0 {
      FrontZero(env, imem, base, m, regs);
    } else {
      var c := LabelIdle(env, imem, base, k, m.world);
      DeadRepresents(c, m);
    }
  }

  /** An unconditional branch that can be entered behind its back: the compiled slot always jumps. */
  predicate SidewaysSlot(imem: Imem, base: nat, k: nat)
    requires InRegion(imem, base, k)
  {
    var last := LastIn(imem, base, k);
    last.branch && !last.conditional && IsEntry(imem, base, RegionEnd(imem, base), k)
  }

  /** What a goto to label k makes the compiled code believe to be pending. */
  function Believed(imem: Imem, base: nat, k: nat): Pending
    requires InRegion(imem, base, k)
  {
    if SidewaysSlot(imem, base, k) then Slot(TargetWord(LastIn(imem, base, k), ZERO)) else NoSlot
  }

  lemma GotoSim(env: Env, imem: Imem, base: nat, k: nat, m: Machine, cpu: Cpu)
    requires InRegion(imem, base, k) && EnoughRegisters(env) && IsEntry(imem, base, RegionEnd(imem, base), k)
    requires Goes(env, m, cpu.regs)
    requires cpu.pc == base + k && cpu.pending == Believed(imem, base, k) && cpu.world == m.world
    ensures Related(env, imem, At(base, k, m), cpu)
  {
    LabelFront(env, imem, base, k, m, cpu.regs);
    if k > 0 {
      EntrySlotConditional(imem, base, k);
    }
    assert Stands(env, imem, base, k, m, cpu, 0);
  }

  /** In front of a label every branch but BLEZ $0 was made conditional, so its target is direct. */
  lemma EntrySlotConditional(imem: Imem, base: nat, k: nat)
    requires InRegion(imem, base, k) && k > 0 && IsEntry(imem, base, RegionEnd(imem, base), k)
    ensures SidewaysSlot(imem, base, k) ==> !LastIn(imem, base, k).indirect
  {
  }

  // ----- falling through -----

  lemma FallThroughSim(env: Env, imem: Imem, base: nat, i: nat, c: Cache, m: Machine, cpu: Cpu, cond: Word)
    requires InRegion(imem, base, i) && EnoughRegisters(env) && c == BodyOf(env, imem, base, i).cache
    requires cpu.pc == (base + i + 1) % MEM_WORDS && cpu.world == m.world
    requires Passes(env, c, m, cpu.regs, cond, InfoIn(imem, base, i), cpu.pending)
    ensures Related(env, imem, FallThrough(env, imem, base, i, m), cpu)
  {
    WordAfter(imem, base, i);
    if InRegion(imem, base, i + 1) {
      NextSim(env, imem, base, i, c, m, cpu, cond);
    } else {
      EndSim(env, imem, base, i, c, m, cpu, cond);
    }
  }

  lemma WordAfter(imem: Imem, base: nat, i: nat)
    requires InRegion(imem, base, i)
    ensures InRegion(imem, base, i + 1) ==> (base + i + 1) % MEM_WORDS == base + i + 1
    ensures !InRegion(imem, base, i + 1) ==> base + i + 1 == RegionEnd(imem, base)
  {
  }

  lemma ToNextSim(env: Env, labelled: bool, c: Cache, base: nat, i: nat, m: Machine, regs: Regs, cond: Word)
    returns (m': Machine, c': Cache)
    requires Start(env, c, m, regs, cond)
    ensures ToNext(env, labelled, c, base, i, m) == At(base, i + 1, m') && m' == m.(sr := m'.sr)
    ensures c' == (if labelled then LabelCode(c).cache else c) && Start(env, c', m', regs, cond)
  {
    m', c' := m, c;
    if labelled {
      m' := LabelSim(env, c, m, regs, cond);
      c' := LabelCode(c).cache;
    }
  }

  lemma Standing(env: Env, imem: Imem, x: Config, c: Cache, cpu: Cpu, cond: Word)
    requires x.At? && InRegion(imem, x.base, x.i) && cpu.pc == x.base + x.i && cpu.world == x.m.world && |x.m.host| == env.hostRegisters
    requires Start(env, c, x.m, cpu.regs, cond) && PendingIs(x.i == 0, LastIn(imem, x.base, x.i), cond, x.m, cpu.pending)
    requires c == FrontOf(env, imem, x.base, x.i).cache
    ensures Related(env, imem, x, cpu)
  {
    assert Stands(env, imem, x.base, x.i, x.m, cpu, cond);
  }

  /** The code in front of the next instruction: where it leads, and the cache it leaves. */
  lemma NextConfig(env: Env, imem: Imem, base: nat, i: nat, c: Cache, m: Machine, regs: Regs, cond: Word)
    returns (m': Machine, c': Cache)
    requires InRegion(imem, base, i) && InRegion(imem, base, i + 1) && c == BodyOf(env, imem, base, i).cache
    requires Start(env, c, m, regs, cond)
    ensures FallThrough(env, imem, base, i, m) == At(base, i + 1, m') && m' == m.(sr := m'.sr)
    ensures c' == FrontOf(env, imem, base, i + 1).cache && Start(env, c', m', regs, cond)
  {
    m', c' := ToNextSim(env, IsEntry(imem, base, RegionEnd(imem, base), i + 1), c, base, i, m, regs, cond);
    var f := FrontUnfold(env, imem, base, i, c);
    FallsToNext(env, imem, base, i, c, m);
  }

  lemma NextSim(env: Env, imem: Imem, base: nat, i: nat, c: Cache, m: Machine, cpu: Cpu, cond: Word)
    requires cpu.pc == base + i + 1 && cpu.world == m.world && InRegion(imem, base, i) && InRegion(imem, base, i + 1)
    requires EnoughRegisters(env) && c == BodyOf(env, imem, base, i).cache
    requires Passes(env, c, m, cpu.regs, cond, InfoIn(imem, base, i), cpu.pending)
    ensures Related(env, imem, FallThrough(env, imem, base, i, m), cpu)
  {
    var m', c' := NextConfig(env, imem, base, i, c, m, cpu.regs, cond);
    Standing(env, imem, At(base, i + 1, m'), c', cpu, cond);
  }

  lemma EndSim(env: Env, imem: Imem, base: nat, i: nat, c: Cache, m: Machine, cpu: Cpu, cond: Word)
    requires InRegion(imem, base, i) && !InRegion(imem, base, i + 1) && EnoughRegisters(env) && c == BodyOf(env, imem, base, i).cache
    requires cpu.pc == RegionEnd(imem, base) % MEM_WORDS && cpu.world == m.world
    requires Passes(env, c, m, cpu.regs, cond, InfoIn(imem, base, i), cpu.pending)
    ensures Related(env, imem, FallThrough(env, imem, base, i, m), cpu)
  {
    var p, m' := EndPieceOf(env, c, m, cpu.regs, cond, InfoIn(imem, base, i), RegionEnd(imem, base), cpu.pending);
    FallsOffEnd(env, imem, base, i, c, p, m);
    EnterSim(env, imem, m', cpu.regs, m.world, cpu.pc, cpu.pending);
  }

  lemma EndPieceOf(env: Env, c: Cache, m: Machine, regs: Regs, cond: Word, info: Info, end: nat, pending: Pending)
    returns (p: Piece, m': Machine)
    requires Passes(env, c, m, regs, cond, info, pending) && end <= MEM_WORDS
    ensures p == EndOfBlock(c, info, end) && Run(env, p.nodes, m) == Enter(m') && Idle(env, p.cache, env.hostRegisters)
    ensures Enters(env, m', regs, m.world, end % MEM_WORDS, pending)
  {
    m' := EndOfBlockSim(env, c, m, regs, cond, info, end, pending);
    p := EndOfBlock(c, info, end);
  }

  // ----- a slot inherited from the block before -----

  lemma EndIdle(env: Env, c: Cache, info: Info, end: nat, world: World) returns (c': Cache)
    requires Wf(env, c) && end <= MEM_WORDS
    ensures c' == EndOfBlock(c, info, end).cache && Idle(env, c', env.hostRegisters)
  {
    var pending := if info.branch && !info.conditional then Slot(TargetWord(info, ZERO)) else NoSlot;
    StartOfWf(env, c, world);
    var p, m := EndPieceOf(env, c, ZeroMachine(env, world), ZeroRegs(), 0, info, end, pending);
    c' := p.cache;
  }

  lemma EndOfIdle(env: Env, imem: Imem, base: nat, world: World) returns (c: Cache)
    requires base < MEM_WORDS && EnoughRegisters(env)
    ensures c == EndOf(env, imem, base).cache && Idle(env, c, env.hostRegisters)
  {
    var n := LastIndex(imem, base);
    var c0 := BodyOfWf(env, imem, base, n, world);
    c := EndIdle(env, c0, InfoIn(imem, base, n), RegionEnd(imem, base), world);
  }

  lemma InheritSim(env: Env, imem: Imem, base: nat, m: Machine, cond: Word, cpu: Cpu)
    requires base < MEM_WORDS && EnoughRegisters(env) && cpu.world == m.world
    requires Inherits(env, m, cpu.regs, cond, InfoIn(imem, base, 0), cpu.pending, cpu.pc)
    ensures Related(env, imem, Continue(env, imem, base, 0, Latent(m)), cpu)
  {
    var c := EndOfIdle(env, imem, base, m.world);
    var info := InfoIn(imem, base, 0);
    var m', code := InheritCode(env, c, m, cpu.regs, cond, info, cpu.pending, cpu.pc);
    EnterSim(env, imem, m', cpu.regs, cpu.world, cpu.pc, cpu.pending);
    LatentGoesOn(env, imem, base, c, info, code, m);
  }

  lemma InheritCode(env: Env, c: Cache, m: Machine, regs: Regs, cond: Word, info: Info, jump: Pending, target: nat)
    returns (m': Machine, code: seq<Node>)
    requires Idle(env, c, env.hostRegisters) && env.hostRegisters >= 3 && Inherits(env, m, regs, cond, info, jump, target)
    ensures code == LatentCode(c, info) && Run(env, code, m) == Enter(m')
    ensures Enters(env, m', regs, m.world, target, jump)
  {
    m' := LatentSim(env, c, m, regs, cond, info, jump);
    code := LatentCode(c, info);
  }

  lemma LatentGoesOn(env: Env, imem: Imem, base: nat, c: Cache, info: Info, code: seq<Node>, m: Machine)
    requires base < MEM_WORDS && c == EndOf(env, imem, base).cache && info == InfoIn(imem, base, 0) && code == LatentCode(c, info)
    ensures Continue(env, imem, base, 0, Latent(m)) == AfterExit(env, Run(env, code, m))
  {
  }

  // ----- one step -----

  function LocalIndex(info: Info, base: nat): int { (info.target - 4 * base) / 4 }

  /** What the compiled code takes to be pending after a slot, when the reference says `after`. */
  function AfterSlot(imem: Imem, base: nat, info: Info, last: Info, after: Pending): Pending
    requires base < MEM_WORDS
  {
    var k := LocalIndex(last, base);
    if info.branch then Handed(info, last, after)
    else if IsLocal(last, base, RegionEnd(imem, base)) && k >= 0 && InRegion(imem, base, k) then Believed(imem, base, k)
    else after
  }

  function PendingAfter(imem: Imem, base: nat, i: nat, before: Pending, after: Pending): Pending
    requires InRegion(imem, base, i)
  {
    if i == 0 || before.NoSlot? then after
    else AfterSlot(imem, base, InfoIn(imem, base, i), LastIn(imem, base, i), after)
  }

  lemma LocalFacts(imem: Imem, base: nat, h: nat, info: Info, last: Info) returns (k: nat)
    requires InRegion(imem, base, h) && last == InfoIn(imem, base, h)
    requires last.branch && IsLocal(last, base, RegionEnd(imem, base)) && !info.branch
    ensures k == LocalIndex(last, base) && InRegion(imem, base, k) && IsEntry(imem, base, RegionEnd(imem, base), k)
    ensures TargetWord(last, ZERO) == base + k && AfterSlot(imem, base, info, last, NoSlot) == Believed(imem, base, k)
  {
    LocalHasLabel(imem, base, h);
    k := LocalIndex(last, base);
  }

  lemma GoesToLabel(env: Env, imem: Imem, base: nat, i: nat, k: nat, m: Machine)
    requires InRegion(imem, base, i) && InRegion(imem, base, k) && IsEntry(imem, base, RegionEnd(imem, base), k)
    ensures Continue(env, imem, base, i, Local(k, m)) == At(base, k, m)
  {
  }

  lemma LocalSim(env: Env, imem: Imem, base: nat, h: nat, i: nat, o: Outcome, info: Info, last: Info, cpu: Cpu)
    requires InRegion(imem, base, h) && InRegion(imem, base, i) && last == InfoIn(imem, base, h)
    requires o.Local? && o.index == LocalIndex(last, base) && Goes(env, o.m, cpu.regs) && cpu.world == o.m.world
    requires EnoughRegisters(env) && last.branch && IsLocal(last, base, RegionEnd(imem, base)) && !info.branch
    requires cpu.pc == TargetWord(last, ZERO) && cpu.pending == AfterSlot(imem, base, info, last, NoSlot)
    ensures Related(env, imem, Continue(env, imem, base, i, o), cpu)
  {
    var k := LocalFacts(imem, base, h, info, last);
    GotoSim(env, imem, base, k, o.m, cpu);
    GoesToLabel(env, imem, base, i, k, o.m);
  }

  lemma LastBefore(imem: Imem, base: nat, h: nat, i: nat)
    requires i == h + 1 && InRegion(imem, base, i)
    ensures InRegion(imem, base, h) && LastIn(imem, base, i) == InfoIn(imem, base, h)
  {
  }

  lemma SlotSim(env: Env, imem: Imem, base: nat, h: nat, i: nat, o: Outcome, c: Cache, m: Machine, cond: Word, e: Effect,
                info: Info, last: Info, cpu: Cpu)
    requires InRegion(imem, base, h) && InRegion(imem, base, i) && EnoughRegisters(env)
    requires last == InfoIn(imem, base, h) && last.branch && (!info.branch ==> e.jump == NoSlot)
    requires SlotDone(env, o, c, m, cond, e, info, last, false, Slot(cpu.pc), base, RegionEnd(imem, base))
    requires cpu.regs == e.regs && cpu.world == e.world && cpu.pending == AfterSlot(imem, base, info, last, e.jump)
    ensures Related(env, imem, Continue(env, imem, base, i, o), cpu)
  {
    if !info.branch && IsLocal(last, base, RegionEnd(imem, base)) {
      LocalSim(env, imem, base, h, i, o, info, last, cpu);
    } else {
      EnterBlockSim(env, imem, base, i, o, cpu);
    }
  }

  lemma EnterBlockSim(env: Env, imem: Imem, base: nat, i: nat, o: Outcome, cpu: Cpu)
    requires InRegion(imem, base, i) && EnoughRegisters(env) && o.Enter?
    requires Enters(env, o.m, cpu.regs, cpu.world, cpu.pc, cpu.pending)
    ensures Related(env, imem, Continue(env, imem, base, i, o), cpu)
  {
    EnterSim(env, imem, o.m, cpu.regs, cpu.world, cpu.pc, cpu.pending);
    EntersBlock(env, imem, base, i, o.m);
  }

  lemma EntersBlock(env: Env, imem: Imem, base: nat, i: nat, m: Machine)
    requires InRegion(imem, base, i)
    ensures Continue(env, imem, base, i, Enter(m)) == Entered(env, m)
    ensures Continue(env, imem, base, i, Return(m)) == Left(env, m)
  {
  }

  lemma ContinueSim(env: Env, imem: Imem, base: nat, i: nat, o: Outcome, c: Cache, m: Machine, cond: Word, e: Effect, info: Info,
                    last: Info, pending: Pending, cpu: Cpu)
    requires InRegion(imem, base, i) && EnoughRegisters(env) && c == BodyOf(env, imem, base, i).cache
    requires info == InfoIn(imem, base, i) && last == LastIn(imem, base, i)
    requires SlotDone(env, o, c, m, cond, e, info, last, i == 0, pending, base, RegionEnd(imem, base))
    requires (pending.Slot? && i > 0 ==> last.branch) && (!info.branch ==> e.jump == NoSlot)
    requires cpu.regs == e.regs && cpu.world == e.world && cpu.pc == NextWord(base + i, pending)
    requires cpu.pending == PendingAfter(imem, base, i, pending, e.jump)
    ensures Related(env, imem, Continue(env, imem, base, i, o), cpu)
  {
    if pending.NoSlot? {
      FallThroughSim(env, imem, base, i, c, m, cpu, cond);
    } else if i == 0 {
      InheritSim(env, imem, base, m, cond, cpu);
    } else {
      var h := i - 1;
      LastBefore(imem, base, h, i);
      SlotSim(env, imem, base, h, i, o, c, m, cond, e, info, last, cpu);
    }
  }

  function ModeOf(env: Env, imem: Imem, cpu: Cpu): Word
    requires cpu.pc < MEM_WORDS
  {
    Execute(env, imem[cpu.pc], cpu.pc, cpu.regs, cpu.world).mode
  }

  function WithPending(p: Progress, pending: Pending): Progress {
    match p
    case Running(cpu) => Running(cpu.(pending := pending))
    case Stopped(mode, cpu) => Stopped(mode, cpu.(pending := pending))
  }

  /** The reference step, with the pending branch replaced by the one the compiled code goes on with. */
  function Followed(env: Env, imem: Imem, base: nat, i: nat, cpu: Cpu): Progress
    requires InRegion(imem, base, i) && cpu.pc < MEM_WORDS
  {
    var p := Step(env, imem, cpu);
    if ModeOf(env, imem, cpu) == MODE_CONTINUE then WithPending(p, PendingAfter(imem, base, i, cpu.pending, p.cpu.pending)) else p
  }

  lemma EffectShape(env: Env, w: Word, at: nat, regs: Regs, world: World, slotIsEntry: bool)
    ensures var e := Execute(env, w, at, regs, world);
            && (e.mode == MODE_CONTINUE ==> !InfoOf(w, at, slotIsEntry).handlesSlot)
            && (e.mode != MODE_CONTINUE ==> e.jump == NoSlot)
  {
  }

  lemma ReturnSim(env: Env, imem: Imem, m0: Machine, m: Machine, e: Effect, cond: Word, pc: nat)
    requires EnoughRegisters(env) && |m.host| == env.hostRegisters && Returned(m0, m, e, cond, pc) && e.jump == NoSlot
    ensures Matches(env, imem, Left(env, m),
                    if Halts(e.mode) then Stopped(e.mode, Cpu(e.regs, pc, NoSlot, e.world)) else Running(Cpu(e.regs, pc, NoSlot, e.world)))
  {
    assert File(e.regs, cond)[..32] == e.regs;
    if !Halts(e.mode) {
      EnterSim(env, imem, m, e.regs, e.world, pc, NoSlot);
    }
  }

  /** The instruction's own code has run: p is its code, q its delay-slot code. */
  predicate Instructed(env: Env, p: Piece, m: Machine, m': Machine, e: Effect, info: Info, last: Info, cond: Word, cond': Word,
                       next: nat)
  {
    if e.mode == MODE_CONTINUE then
      Run(env, p.nodes, m) == Next(m') && Executed(env, p.cache, m, m', e, info, last, cond, cond')
    else Run(env, p.nodes, m) == Return(m') && Returned(m, m', e, cond, next)
  }

  lemma InstrRun(env: Env, imem: Imem, base: nat, i: nat, m: Machine, cpu: Cpu, cond: Word)
    returns (p: Piece, q: Piece, m': Machine, cond': Word, e: Effect)
    requires Stands(env, imem, base, i, m, cpu, cond) && EnoughRegisters(env)
    ensures BodyOf(env, imem, base, i) == Piece(p.nodes + q.nodes, q.cache)
    ensures q == CompileSlot(p.cache, InfoIn(imem, base, i), LastIn(imem, base, i), i == 0, base, RegionEnd(imem, base))
    ensures e == Execute(env, imem[base + i], base + i, cpu.regs, cpu.world)
    ensures Instructed(env, p, m, m', e, InfoIn(imem, base, i), LastIn(imem, base, i), cond, cond', NextWord(base + i, cpu.pending))
  {
    var f, slotIsEntry;
    f, slotIsEntry, p, q := Pieces(env, imem, base, i);
    FrontWf(env, imem, base, i, m.world);
    var info, last := InfoIn(imem, base, i), LastIn(imem, base, i);
    m', cond', e := InstrCore(env, f.cache, m, cpu, cond, imem[base + i], base + i, last, i == 0, slotIsEntry, p, info);
  }

  lemma InstrCore(env: Env, c: Cache, m: Machine, cpu: Cpu, cond: Word, w: Word, at: nat, last: Info, first: bool, slotIsEntry: bool,
                  p: Piece, info: Info)
    returns (m': Machine, cond': Word, e: Effect)
    requires Start(env, c, m, cpu.regs, cond) && PendingIs(first, last, cond, m, cpu.pending) && cpu.world == m.world
    requires p == CompileInstr(c, w, at, last, first, slotIsEntry) && info == InfoOf(w, at, slotIsEntry)
    ensures e == Execute(env, w, at, cpu.regs, cpu.world)
    ensures Instructed(env, p, m, m', e, info, last, cond, cond', NextWord(at, cpu.pending))
  {
    m', cond' := InstrSim(env, c, m, cpu.regs, cond, w, at, last, first, slotIsEntry, cpu.pending);
    e := Execute(env, w, at, cpu.regs, cpu.world);
  }

  lemma RunBoth(env: Env, imem: Imem, base: nat, i: nat, p: Piece, q: Piece, m: Machine)
    requires InRegion(imem, base, i) && BodyOf(env, imem, base, i) == Piece(p.nodes + q.nodes, q.cache)
    ensures JitStep(env, imem, base, i, m) == Continue(env, imem, base, i, Then(env, Run(env, p.nodes, m), q.nodes))
  {
    OpenStep(env, imem, base, i, m);
    RunConcat(env, p.nodes, q.nodes, m);
  }

  lemma GoOnSim(env: Env, imem: Imem, base: nat, i: nat, p: Piece, q: Piece, m: Machine, m': Machine, e: Effect, info: Info,
                last: Info, cond: Word, cond': Word, cpu: Cpu, cpu': Cpu)
    requires Stands(env, imem, base, i, m, cpu, cond) && EnoughRegisters(env)
    requires info == InfoIn(imem, base, i) && last == LastIn(imem, base, i) && q.cache == BodyOf(env, imem, base, i).cache
    requires q == CompileSlot(p.cache, info, last, i == 0, base, RegionEnd(imem, base))
    requires Executed(env, p.cache, m, m', e, info, last, cond, cond') && !info.handlesSlot
    requires cpu'.regs == e.regs && cpu'.world == e.world && cpu'.pc == NextWord(base + i, cpu.pending)
    requires cpu'.pending == PendingAfter(imem, base, i, cpu.pending, e.jump)
    ensures Related(env, imem, Continue(env, imem, base, i, Run(env, q.nodes, m')), cpu')
  {
    var m'', cond'' := SlotCodeSim(env, p.cache, m, m', e, info, last, i == 0, cond, cond', cpu.pending, base, RegionEnd(imem, base));
    ContinueSim(env, imem, base, i, Run(env, q.nodes, m'), q.cache, m'', cond'', e, info, last, cpu.pending, cpu');
  }

  lemma FollowedContinue(env: Env, imem: Imem, base: nat, i: nat, cpu: Cpu, e: Effect, cpu': Cpu)
    requires InRegion(imem, base, i) && cpu.pc == base + i && cpu.pc < MEM_WORDS
    requires e == Execute(env, imem[cpu.pc], cpu.pc, cpu.regs, cpu.world) && e.mode == MODE_CONTINUE
    requires cpu' == Cpu(e.regs, NextWord(base + i, cpu.pending), PendingAfter(imem, base, i, cpu.pending, e.jump), e.world)
    ensures Followed(env, imem, base, i, cpu) == Running(cpu')
  {
  }

  lemma FollowedReturn(env: Env, imem: Imem, base: nat, i: nat, cpu: Cpu, e: Effect, cpu': Cpu)
    requires InRegion(imem, base, i) && cpu.pc == base + i && cpu.pc < MEM_WORDS
    requires e == Execute(env, imem[cpu.pc], cpu.pc, cpu.regs, cpu.world) && e.mode != MODE_CONTINUE
    requires cpu' == Cpu(e.regs, NextWord(base + i, cpu.pending), e.jump, e.world)
    ensures Followed(env, imem, base, i, cpu) == if Halts(e.mode) then Stopped(e.mode, cpu') else Running(cpu')
  {
  }

  lemma InsideMemory(imem: Imem, base: nat, i: nat)
    requires InRegion(imem, base, i)
    ensures base + i < MEM_WORDS
  {
  }

  /** The code of one instruction, up to the next one, does what `Followed` says. */
  lemma StepSim(env: Env, imem: Imem, base: nat, i: nat, m: Machine, cpu: Cpu, cond: Word)
    requires Stands(env, imem, base, i, m, cpu, cond) && EnoughRegisters(env)
    ensures cpu.pc < MEM_WORDS && Matches(env, imem, JitStep(env, imem, base, i, m), Followed(env, imem, base, i, cpu))
  {
    InsideMemory(imem, base, i);
    var p, q, m', cond', e := InstrRun(env, imem, base, i, m, cpu, cond);
    RunBoth(env, imem, base, i, p, q, m);
    StepCase(env, imem, base, i, p, q, m, m', e, cond, cond', cpu);
  }

  lemma StepCase(env: Env, imem: Imem, base: nat, i: nat, p: Piece, q: Piece, m: Machine, m': Machine, e: Effect, cond: Word,
                 cond': Word, cpu: Cpu)
    requires Stands(env, imem, base, i, m, cpu, cond) && EnoughRegisters(env) && cpu.pc < MEM_WORDS
    requires e == Execute(env, imem[cpu.pc], cpu.pc, cpu.regs, cpu.world)
    requires Instructed(env, p, m, m', e, InfoIn(imem, base, i), LastIn(imem, base, i), cond, cond', NextWord(base + i, cpu.pending))
    requires q == CompileSlot(p.cache, InfoIn(imem, base, i), LastIn(imem, base, i), i == 0, base, RegionEnd(imem, base))
    requires q.cache == BodyOf(env, imem, base, i).cache
    ensures Matches(env, imem, Continue(env, imem, base, i, Then(env, Run(env, p.nodes, m), q.nodes)), Followed(env, imem, base, i, cpu))
  {
    EffectShapeAt(env, imem, base, i, cpu, e);
    var info, last, next := InfoIn(imem, base, i), LastIn(imem, base, i), NextWord(base + i, cpu.pending);
    if e.mode == MODE_CONTINUE {
      var cpu' := Cpu(e.regs, next, PendingAfter(imem, base, i, cpu.pending, e.jump), e.world);
      FollowedContinue(env, imem, base, i, cpu, e, cpu');
      GoOnSim(env, imem, base, i, p, q, m, m', e, info, last, cond, cond', cpu, cpu');
    } else {
      FollowedReturn(env, imem, base, i, cpu, e, Cpu(e.regs, next, e.jump, e.world));
      EntersBlock(env, imem, base, i, m');
      ReturnSim(env, imem, m, m', e, cond, next);
    }
  }

  lemma EffectShapeAt(env: Env, imem: Imem, base: nat, i: nat, cpu: Cpu, e: Effect)
    requires InRegion(imem, base, i) && cpu.pc == base + i && cpu.pc < MEM_WORDS
    requires e == Execute(env, imem[cpu.pc], cpu.pc, cpu.regs, cpu.world)
    ensures (e.mode == MODE_CONTINUE ==> !InfoIn(imem, base, i).handlesSlot) && (e.mode != MODE_CONTINUE ==> e.jump == NoSlot)
  {
    EffectShape(env, imem[cpu.pc], cpu.pc, cpu.regs, cpu.world, SlotIsEntry(imem, base, RegionEnd(imem, base), i));
  }
}
