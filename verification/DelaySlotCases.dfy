/**
 * Two short programs, entered at their first word, on which the compiled code and the one-instruction
 * stepper part, one for each of the two delay-slot cases.
 */
module DelaySlotCases {
  import opened Words
  import opened Isa
  import opened HostCode
  import opened RegCache
  import opened Region
  import opened Recompiler
  import opened InstrProofs
  import opened SlotProofs
  import opened HandlerProofs
  import opened SlotOutcome
  import opened CompiledRun
  import opened Simulation
  import opened Runs

  // ----- where a compiled run stands -----

  /** The instruction's code runs on to its delay-slot code, which does what SlotDone says. */
  lemma SlotReached(env: Env, imem: Imem, base: nat, i: nat, m: Machine, cpu: Cpu, cond: Word)
    returns (o: Outcome, c: Cache, m': Machine, cond': Word, e: Effect)
    requires Stands(env, imem, base, i, m, cpu, cond) && EnoughRegisters(env) && cpu.pc < MEM_WORDS
    requires ModeOf(env, imem, cpu) == MODE_CONTINUE
    ensures JitStep(env, imem, base, i, m) == Continue(env, imem, base, i, o) && c == BodyOf(env, imem, base, i).cache
    ensures SlotDone(env, o, c, m', cond', e, InfoIn(imem, base, i), LastIn(imem, base, i), i == 0, cpu.pending, base, RegionEnd(imem, base))
  {
    var p, q, m1, cond1;
    p, q, m1, cond1, e := InstrRun(env, imem, base, i, m, cpu, cond);
    EffectShapeAt(env, imem, base, i, cpu, e);
    RunBoth(env, imem, base, i, p, q, m);
    m', cond' := SlotCodeSim(env, p.cache, m, m1, e, InfoIn(imem, base, i), LastIn(imem, base, i), i == 0, cond, cond1, cpu.pending,
                             base, RegionEnd(imem, base));
    o, c := Run(env, q.nodes, m1), q.cache;
  }

  predicate IsAt(x: Config, base: nat, i: nat) { x.At? && x.base == base && x.i == i }

  /** With nothing pending the next instruction of the region follows. */
  lemma StepStays(env: Env, imem: Imem, base: nat, i: nat, m: Machine, cpu: Cpu)
    requires Related(env, imem, At(base, i, m), cpu) && EnoughRegisters(env) && cpu.pc < MEM_WORDS
    requires InRegion(imem, base, i) && InRegion(imem, base, i + 1)
    requires ModeOf(env, imem, cpu) == MODE_CONTINUE && cpu.pending.NoSlot?
    ensures IsAt(JitStep(env, imem, base, i, m), base, i + 1)
  {
    var cond: Word :| Stands(env, imem, base, i, m, cpu, cond);
    var o, c, m', cond', e := SlotReached(env, imem, base, i, m, cpu, cond);
    FallsToNext(env, imem, base, i, c, m');
    var m'', c' := ToNextSim(env, IsEntry(imem, base, RegionEnd(imem, base), i + 1), c, base, i, m', e.regs, cond');
  }

  /** A pending branch to a word of the region is followed by a goto. */
  lemma StepGoes(env: Env, imem: Imem, base: nat, h: nat, i: nat, k: nat, m: Machine, cpu: Cpu)
    requires Related(env, imem, At(base, i, m), cpu) && EnoughRegisters(env) && cpu.pc < MEM_WORDS
    requires i == h + 1 && InRegion(imem, base, i) && InRegion(imem, base, h)
    requires ModeOf(env, imem, cpu) == MODE_CONTINUE && cpu.pending.Slot? && !InfoIn(imem, base, i).branch
    requires var last := InfoIn(imem, base, h); last.branch && IsLocal(last, base, RegionEnd(imem, base)) && k == LocalIndex(last, base)
    ensures IsAt(JitStep(env, imem, base, i, m), base, k)
  {
    var cond: Word :| Stands(env, imem, base, i, m, cpu, cond);
    var o, c, m', cond', e := SlotReached(env, imem, base, i, m, cpu, cond);
    LastBefore(imem, base, h, i);
    var k' := LocalFacts(imem, base, h, InfoIn(imem, base, i), InfoIn(imem, base, h));
    GoesToLabel(env, imem, base, i, k', m');
  }

  ghost predicate Together(env: Env, imem: Imem, x: Config, cpu: Cpu, n: nat) {
    forall k: nat :: k <= n ==> InStep(env, imem, x, cpu, k)
  }

  /** The two runs agree for n steps, are in different states after one more, and then go to different words. */
  ghost predicate Part(env: Env, imem: Imem, x: Config, cpu: Cpu, n: nat, jit: nat, ref: nat) {
    && Together(env, imem, x, cpu, n) && !InStep(env, imem, x, cpu, n + 1)
    && JitPc(JitRun(env, imem, x, n + 2)) == [jit] && RefPc(RefRun(env, imem, cpu, n + 2)) == [ref] && jit != ref
  }

  lemma TogetherStart(env: Env, imem: Imem, x: Config, cpu: Cpu, n: nat)
    requires Related(env, imem, x, cpu) && n == 0
    ensures Together(env, imem, x, cpu, n)
  {
    assert InStep(env, imem, x, cpu, n);
  }

  lemma TogetherNext(env: Env, imem: Imem, x: Config, cpu: Cpu, n: nat)
    requires Together(env, imem, x, cpu, n) && InStep(env, imem, x, cpu, n + 1)
    ensures Together(env, imem, x, cpu, n + 1)
  {
  }

  /** Up to step k both are in the same state; then the compiled run is in front of instruction i of a region. */
  ghost predicate Reaches(env: Env, imem: Imem, x: Config, cpu: Cpu, k: nat, base: nat, i: nat, c: Cpu) {
    && Together(env, imem, x, cpu, k) && IsAt(JitRun(env, imem, x, k), base, i) && RefRun(env, imem, cpu, k) == Running(c)
    && InRegion(imem, base, i) && c.pc < MEM_WORDS
  }

  /** The compiled run goes on in the state it believes in. */
  lemma RunBelieves(env: Env, imem: Imem, x: Config, cpu: Cpu, k: nat, base: nat, i: nat, c: Cpu)
    requires Reaches(env, imem, x, cpu, k, base, i, c) && EnoughRegisters(env)
    ensures InStep(env, imem, x, cpu, k + 1) <==> !Diverts(env, imem, base, i, c)
    ensures Matches(env, imem, JitRun(env, imem, x, k + 1), Followed(env, imem, base, i, c))
  {
    var m := JitRun(env, imem, x, k).m;
    InStepNext(env, imem, x, cpu, k);
    var cond: Word :| Stands(env, imem, base, i, m, c, cond);
    StepSim(env, imem, base, i, m, c, cond);
  }

  lemma StaysTogether(env: Env, imem: Imem, x: Config, cpu: Cpu, k: nat, k': nat, base: nat, i: nat, c: Cpu)
    requires Reaches(env, imem, x, cpu, k, base, i, c) && EnoughRegisters(env) && k' == k + 1 && !Diverts(env, imem, base, i, c)
    ensures Together(env, imem, x, cpu, k')
  {
    RunBelieves(env, imem, x, cpu, k, base, i, c);
    TogetherNext(env, imem, x, cpu, k);
  }

  lemma RunGoesOn(env: Env, imem: Imem, y: Config, cpu: Cpu, k: nat, k': nat, base: nat, i: nat, c: Cpu, x: Config, c': Cpu)
    requires IsAt(y, base, i) && InRegion(imem, base, i) && k' == k + 1 && y == JitRun(env, imem, x, k)
    requires RefRun(env, imem, cpu, k) == Running(c) && c.pc < MEM_WORDS && Step(env, imem, c) == Running(c')
    ensures JitRun(env, imem, x, k') == JitStep(env, imem, base, i, y.m) && RefRun(env, imem, cpu, k') == Running(c')
  {
    JitGoesOn(env, imem, x, k, k', y, base, i);
    RefGoesOn(env, imem, cpu, k, k', c, c');
  }

  lemma JitGoesOn(env: Env, imem: Imem, x: Config, k: nat, k': nat, y: Config, base: nat, i: nat)
    requires IsAt(y, base, i) && InRegion(imem, base, i) && k' == k + 1 && y == JitRun(env, imem, x, k)
    ensures JitRun(env, imem, x, k') == JitStep(env, imem, base, i, y.m)
  {
  }

  lemma RefGoesOn(env: Env, imem: Imem, cpu: Cpu, k: nat, k': nat, c: Cpu, c': Cpu)
    requires RefRun(env, imem, cpu, k) == Running(c) && k' == k + 1 && c.pc < MEM_WORDS && Step(env, imem, c) == Running(c')
    ensures RefRun(env, imem, cpu, k') == Running(c')
  {
  }

  /** A step that is not diverted, by where the compiled code goes. */
  lemma RunOn(env: Env, imem: Imem, x: Config, cpu: Cpu, k: nat, k': nat, base: nat, i: nat, j: nat, c: Cpu, c': Cpu)
    requires Reaches(env, imem, x, cpu, k, base, i, c) && EnoughRegisters(env) && k' == k + 1 && InRegion(imem, base, j)
    requires !Diverts(env, imem, base, i, c) && IsAt(JitStep(env, imem, base, i, JitRun(env, imem, x, k).m), base, j)
    requires Step(env, imem, c) == Running(c') && c'.pc < MEM_WORDS
    ensures Reaches(env, imem, x, cpu, k', base, j, c')
  {
    StaysTogether(env, imem, x, cpu, k, k', base, i, c);
    RunGoesOn(env, imem, JitRun(env, imem, x, k), cpu, k, k', base, i, c, x, c');
  }

  lemma RunStays(env: Env, imem: Imem, x: Config, cpu: Cpu, k: nat, k': nat, base: nat, i: nat, i': nat, c: Cpu, c': Cpu)
    requires Reaches(env, imem, x, cpu, k, base, i, c) && EnoughRegisters(env) && InRegion(imem, base, i') && k' == k + 1 && i' == i + 1
    requires ModeOf(env, imem, c) == MODE_CONTINUE && c.pending.NoSlot? && Step(env, imem, c) == Running(c') && c'.pc < MEM_WORDS
    ensures Reaches(env, imem, x, cpu, k', base, i', c')
  {
    assert InStep(env, imem, x, cpu, k);
    StepStays(env, imem, base, i, JitRun(env, imem, x, k).m, c);
    RunOn(env, imem, x, cpu, k, k', base, i, i', c, c');
  }

  lemma NotSideways(env: Env, imem: Imem, base: nat, h: nat, i: nat, l: nat, c: Cpu)
    requires i == h + 1 && InRegion(imem, base, h) && InRegion(imem, base, i) && InRegion(imem, base, l) && c.pc < MEM_WORDS
    requires l == LocalIndex(InfoIn(imem, base, h), base) && !InfoIn(imem, base, i).branch && !SidewaysSlot(imem, base, l)
    ensures !Diverts(env, imem, base, i, c)
  {
    LastBefore(imem, base, h, i);
  }

  lemma RunGoes(env: Env, imem: Imem, x: Config, cpu: Cpu, k: nat, k': nat, base: nat, h: nat, i: nat, l: nat, c: Cpu, c': Cpu)
    requires Reaches(env, imem, x, cpu, k, base, i, c) && EnoughRegisters(env) && InRegion(imem, base, l) && i == h + 1 && k' == k + 1
    requires ModeOf(env, imem, c) == MODE_CONTINUE && c.pending.Slot? && Step(env, imem, c) == Running(c') && c'.pc < MEM_WORDS
    requires InRegion(imem, base, h) && !InfoIn(imem, base, i).branch && !SidewaysSlot(imem, base, l)
    requires var last := InfoIn(imem, base, h); last.branch && IsLocal(last, base, RegionEnd(imem, base)) && l == LocalIndex(last, base)
    ensures Reaches(env, imem, x, cpu, k', base, l, c')
  {
    assert InStep(env, imem, x, cpu, k);
    StepGoes(env, imem, base, h, i, l, JitRun(env, imem, x, k).m, c);
    NotSideways(env, imem, base, h, i, l, c);
    RunOn(env, imem, x, cpu, k, k', base, i, l, c, c');
  }

  /** A short program at word 0, zeros after it. */
  function Program(words: seq<Word>): Imem
    requires |words| <= MEM_WORDS
  {
    words + seq(MEM_WORDS - |words|, _ => 0)
  }

  lemma NopStep(env: Env, imem: Imem, cpu: Cpu)
    requires cpu.pc < MEM_WORDS && imem[cpu.pc] == 0
    ensures Step(env, imem, cpu) == Running(Cpu(cpu.regs, NextPc(cpu), NoSlot, cpu.world)) && ModeOf(env, imem, cpu) == MODE_CONTINUE
  {
    assert Decode(0) == Shift(Shl, 0, 0, 0);
  }

  /** One more step of a compiled run, by the word it goes to. */
  lemma GoesOn(env: Env, imem: Imem, x: Config, cpu: Cpu)
    requires Related(env, imem, x, cpu) && EnoughRegisters(env) && cpu.pc < MEM_WORDS && Step(env, imem, cpu).Running?
    ensures JitPc(Advance(env, imem, x)) == [NextPc(cpu)]
  {
    var cond: Word :| Stands(env, imem, x.base, x.i, x.m, cpu, cond);
    StepSim(env, imem, x.base, x.i, x.m, cpu, cond);
    MatchPc(env, imem, Advance(env, imem, x), Followed(env, imem, x.base, x.i, cpu));
  }

  /** A diverted step leads both runs to the same NOP, d with the believed pending branch and d' with the right one. */
  lemma PartHere(env: Env, imem: Imem, x: Config, cpu: Cpu, n: nat, base: nat, i: nat, c: Cpu, d: Cpu, d': Cpu)
    requires Reaches(env, imem, x, cpu, n, base, i, c) && EnoughRegisters(env) && Diverts(env, imem, base, i, c)
    requires Followed(env, imem, base, i, c) == Running(d) && Step(env, imem, c) == Running(d') && NextPc(d) != NextPc(d')
    requires d.pc == d'.pc < MEM_WORDS && imem[d.pc] == 0
    ensures Part(env, imem, x, cpu, n, NextPc(d), NextPc(d'))
  {
    RunBelieves(env, imem, x, cpu, n, base, i, c);
    NopStep(env, imem, d);
    NopStep(env, imem, d');
    GoesOn(env, imem, JitRun(env, imem, x, n + 1), d);
    assert RefRun(env, imem, cpu, n + 1) == Running(d');
  }

  lemma NopInfo(at: nat, slotIsEntry: bool)
    ensures InfoOf(0, at, slotIsEntry) == NO_INFO && FlowOf(at, 0) == Plain
  {
    assert Decode(0) == Shift(Shl, 0, 0, 0);
  }

  lemma ByteTargetIs(at: nat, w: Word, q: nat, r: nat)
    requires 4 * at + 4 + 4 * w == q * 4096 + 4 * r && r < 1024 && 4 * at + 4 + 4 * w < W
    ensures ByteTarget(at, w) == 4 * r
  {
    BelowWord(4 * w);
    BelowWord(4 * at + 4 + 4 * w);
    LowTwelve(q, r);
  }

  lemma BelowWord(x: nat)
    requires x < W
    ensures x % W == x
  {
  }

  lemma LowTwelve(q: nat, r: nat)
    requires r < 1024
    ensures (q * 4096 + 4 * r) % 4096 / 4 * 4 == 4 * r
  {
    LowBits(q, 4 * r);
    assert 4 * r / 4 == r;
  }

  lemma LowBits(q: nat, x: nat)
    requires x < 4096
    ensures (q * 4096 + x) % 4096 == x
  {
  }

  /** What is recorded for a branch at word i of the region at word 0. */
  lemma InfoWord(imem: Imem, i: nat, end: nat, w: Word, d: Instr)
    requires RegionEnd(imem, 0) == end && i < end && i < MEM_WORDS && imem[i] == w && Decode(w) == d
    ensures InfoIn(imem, 0, i) == InfoFor(d, w, i, SlotIsEntry(imem, 0, end, i))
  {
  }

  // ----- a conditional branch in the slot of a jump -----

  /** J 4; BEQ $0, $0, 7 */
  function JumpThenBranch(): Imem { Program([0x0800_0004, 0x1000_0005]) }

  lemma JumpThenBranchWords()
    ensures Decode(0x0800_0004) == Jump(false) && Decode(0x1000_0005) == BranchEqual(Eq, 0, 0)
    ensures FlowOf(0, 0x0800_0004) == JumpTo(4) && FlowOf(1, 0x1000_0005) == Branch(7)
    ensures JumpTarget(0x0800_0004) == 4 && BranchTarget(1, 0x1000_0005) == 7
  {
  }

  lemma JumpThenBranchRegion()
    ensures RegionEnd(JumpThenBranch(), 0) == 2
    ensures !IsEntry(JumpThenBranch(), 0, 2, 1) && !IsEntry(JumpThenBranch(), 0, 2, 2)
  {
    JumpThenBranchWords();
  }

  lemma JumpThenBranchInfo()
    ensures InRegion(JumpThenBranch(), 0, 1)
    ensures InfoIn(JumpThenBranch(), 0, 0) == DirectInfo(16, false) && InfoIn(JumpThenBranch(), 0, 1) == DirectInfo(28, true)
  {
    JumpThenBranchWords();
    JumpThenBranchRegion();
    ByteTargetIs(1, 0x1000_0005, 0x4_0000, 7);
    InfoWord(JumpThenBranch(), 0, 2, 0x0800_0004, Jump(false));
    InfoWord(JumpThenBranch(), 1, 2, 0x1000_0005, BranchEqual(Eq, 0, 0));
  }

  lemma JumpThenBranchSteps(env: Env, regs: Regs, world: World)
    ensures var cpu := Cpu(regs, 0, NoSlot, world);
            Step(env, JumpThenBranch(), cpu) == Running(Cpu(regs, 1, Slot(4), world)) && ModeOf(env, JumpThenBranch(), cpu) == MODE_CONTINUE
    ensures var cpu := Cpu(regs, 1, Slot(4), world);
            Step(env, JumpThenBranch(), cpu) == Running(Cpu(regs, 4, Slot(7), world)) && ModeOf(env, JumpThenBranch(), cpu) == MODE_CONTINUE
  {
    JumpThenBranchWords();
  }

  lemma JumpThenBranchDiverts(env: Env, regs: Regs, world: World)
    ensures InRegion(JumpThenBranch(), 0, 1) && Diverts(env, JumpThenBranch(), 0, 1, Cpu(regs, 1, Slot(4), world))
    ensures Followed(env, JumpThenBranch(), 0, 1, Cpu(regs, 1, Slot(4), world)) == Running(Cpu(regs, 4, NoSlot, world))
  {
    JumpThenBranchInfo();
    JumpThenBranchSteps(env, regs, world);
  }

  /** Entered with any registers, the two runs part after the second word; then the reference goes to word 7, the compiled code to 5. */
  lemma BranchIsForgotten(env: Env, m: Machine, regs: Regs, world: World)
    requires EnoughRegisters(env) && Enters(env, m, regs, world, 0, NoSlot)
    ensures Part(env, JumpThenBranch(), Entered(env, m), Cpu(regs, 0, NoSlot, world), 1, 5, 7)
  {
    JumpThenBranchInfo();
    JumpThenBranchSteps(env, regs, world);
    JumpThenBranchDiverts(env, regs, world);
    EnterSim(env, JumpThenBranch(), m, regs, world, 0, NoSlot);
    ForgottenRun(env, JumpThenBranch(), Entered(env, m), Cpu(regs, 0, NoSlot, world), 0, 0, 0, 1, 5, 7,
                 Cpu(regs, 1, Slot(4), world), Cpu(regs, 4, NoSlot, world), Cpu(regs, 4, Slot(7), world));
  }

  /** Instruction i is the jump, i + 1 the branch in its slot. */
  lemma ForgottenRun(env: Env, imem: Imem, x: Config, cpu: Cpu, base: nat, i: nat, h: nat, n: nat, jit: nat, ref: nat, c: Cpu, d: Cpu, d': Cpu)
    requires EnoughRegisters(env) && IsAt(x, base, i) && Related(env, imem, x, cpu) && InRegion(imem, base, i + 1)
    requires h == 0 && n == 1 && jit == NextPc(d) && ref == NextPc(d') && jit != ref && cpu.pending == NoSlot
    requires cpu.pc < MEM_WORDS && c.pc < MEM_WORDS && d.pc == d'.pc < MEM_WORDS && imem[d.pc] == 0
    requires Step(env, imem, cpu) == Running(c) && ModeOf(env, imem, cpu) == MODE_CONTINUE && Step(env, imem, c) == Running(d')
    requires Diverts(env, imem, base, i + 1, c) && Followed(env, imem, base, i + 1, c) == Running(d)
    ensures Part(env, imem, x, cpu, n, jit, ref)
  {
    assert InRegion(imem, base, i);
    TogetherStart(env, imem, x, cpu, h);
    RunStays(env, imem, x, cpu, h, n, base, i, i + 1, cpu, c);
    PartHere(env, imem, x, cpu, n, base, i + 1, c, d, d');
  }

  // ----- a goto into the slot of BLEZ $0 -----

  /** BEQ $0, $0, 4; NOP; BLEZ $0, 7; NOP; BEQ $0, $0, 3; NOP; NOP; BREAK */
  function LoopIntoSlot(): Imem { Program([0x1000_0003, 0, 0x1800_0004, 0, 0x1000_FFFE, 0, 0, 13]) }

  lemma LoopIntoSlotWords()
    ensures Decode(0x1000_0003) == BranchEqual(Eq, 0, 0) && Decode(0x1800_0004) == BranchZero(LeS, 0, false)
    ensures Decode(0x1000_FFFE) == BranchEqual(Eq, 0, 0)
    ensures FlowOf(0, 0x1000_0003) == Branch(4) && FlowOf(2, 0x1800_0004) == Branch(7) && FlowOf(4, 0x1000_FFFE) == Branch(3)
    ensures FlowOf(7, 13) == Breaks && BranchTarget(0, 0x1000_0003) == 4 && BranchTarget(4, 0x1000_FFFE) == 3
  {
  }

  lemma LoopIntoSlotRegion()
    ensures RegionEnd(LoopIntoSlot(), 0) == 8
    ensures IsEntry(LoopIntoSlot(), 0, 8, 3)
  {
    LoopIntoSlotWords();
    NopInfo(1, false);
    NopInfo(3, false);
    NopInfo(5, false);
    NopInfo(6, false);
    var imem := LoopIntoSlot();
    assert TargetsWord(FlowOf(4, imem[4]), 3);
    assert ScanFrom(imem, 0, 128, 7, 8) == 8;
    assert ScanFrom(imem, 0, 128, 5, 8) == 8;
    assert ScanFrom(imem, 0, 128, 3, 8) == 8;
    assert ScanFrom(imem, 0, 128, 1, 5) == 8;
  }

  lemma LoopIntoSlotInfo()
    ensures RegionEnd(LoopIntoSlot(), 0) == 8
    ensures InfoIn(LoopIntoSlot(), 0, 0) == DirectInfo(16, true) && InfoIn(LoopIntoSlot(), 0, 2) == DirectInfo(28, false)
    ensures InfoIn(LoopIntoSlot(), 0, 4) == DirectInfo(12, true)
    ensures forall i: nat :: i == 1 || i == 3 || i == 5 ==> InfoIn(LoopIntoSlot(), 0, i) == NO_INFO
  {
    LoopIntoSlotRegion();
    LoopIntoSlotWords();
    ByteTargetIs(0, 0x1000_0003, 0x4_0000, 4);
    ByteTargetIs(2, 0x1800_0004, 0x6_0000, 7);
    ByteTargetIs(4, 0x1000_FFFE, 0x4_0040, 3);
    InfoWord(LoopIntoSlot(), 0, 8, 0x1000_0003, BranchEqual(Eq, 0, 0));
    InfoWord(LoopIntoSlot(), 2, 8, 0x1800_0004, BranchZero(LeS, 0, false));
    InfoWord(LoopIntoSlot(), 4, 8, 0x1000_FFFE, BranchEqual(Eq, 0, 0));
    NopInfo(1, SlotIsEntry(LoopIntoSlot(), 0, 8, 1));
    NopInfo(3, SlotIsEntry(LoopIntoSlot(), 0, 8, 3));
    NopInfo(5, SlotIsEntry(LoopIntoSlot(), 0, 8, 5));
  }

  lemma LoopIntoSlotSteps(env: Env, regs: Regs, world: World)
    ensures var cpu := Cpu(regs, 0, NoSlot, world);
            Step(env, LoopIntoSlot(), cpu) == Running(Cpu(regs, 1, Slot(4), world)) && ModeOf(env, LoopIntoSlot(), cpu) == MODE_CONTINUE
    ensures var cpu := Cpu(regs, 4, NoSlot, world);
            Step(env, LoopIntoSlot(), cpu) == Running(Cpu(regs, 5, Slot(3), world)) && ModeOf(env, LoopIntoSlot(), cpu) == MODE_CONTINUE
    ensures var cpu := Cpu(regs, 1, Slot(4), world);
            Step(env, LoopIntoSlot(), cpu) == Running(Cpu(regs, 4, NoSlot, world)) && ModeOf(env, LoopIntoSlot(), cpu) == MODE_CONTINUE
    ensures var cpu := Cpu(regs, 5, Slot(3), world);
            Step(env, LoopIntoSlot(), cpu) == Running(Cpu(regs, 3, NoSlot, world)) && ModeOf(env, LoopIntoSlot(), cpu) == MODE_CONTINUE
  {
    LoopIntoSlotWords();
    NopStep(env, LoopIntoSlot(), Cpu(regs, 1, Slot(4), world));
    NopStep(env, LoopIntoSlot(), Cpu(regs, 5, Slot(3), world));
  }

  lemma LoopIntoSlotDiverts(env: Env, regs: Regs, world: World)
    ensures InRegion(LoopIntoSlot(), 0, 5) && Diverts(env, LoopIntoSlot(), 0, 5, Cpu(regs, 5, Slot(3), world))
    ensures Followed(env, LoopIntoSlot(), 0, 5, Cpu(regs, 5, Slot(3), world)) == Running(Cpu(regs, 3, Slot(7), world))
  {
    LoopIntoSlotRegion();
    LoopIntoSlotInfo();
    NopStep(env, LoopIntoSlot(), Cpu(regs, 5, Slot(3), world));
    EntersSideways(env, LoopIntoSlot(), Cpu(regs, 5, Slot(3), world), Cpu(regs, 3, NoSlot, world));
  }

  lemma EntersSideways(env: Env, imem: Imem, cpu: Cpu, cpu': Cpu)
    requires RegionEnd(imem, 0) == 8 && IsEntry(imem, 0, 8, 3) && cpu.pc == 5 && cpu.pending == Slot(3)
    requires Step(env, imem, cpu) == Running(cpu') && ModeOf(env, imem, cpu) == MODE_CONTINUE
    requires InfoIn(imem, 0, 2) == DirectInfo(28, false) && InfoIn(imem, 0, 4) == DirectInfo(12, true) && InfoIn(imem, 0, 5) == NO_INFO
    ensures Diverts(env, imem, 0, 5, cpu) && Followed(env, imem, 0, 5, cpu) == Running(cpu'.(pending := Slot(7)))
  {
  }

  /**
   * Entered with any registers: BEQ jumps over the BLEZ to word 4, whose goto leads into the slot of the
   * BLEZ. From there the compiled code jumps to word 7, where the reference goes on with word 4.
   */
  lemma SlotIsEnteredSideways(env: Env, m: Machine, regs: Regs, world: World)
    requires EnoughRegisters(env) && Enters(env, m, regs, world, 0, NoSlot)
    ensures Part(env, LoopIntoSlot(), Entered(env, m), Cpu(regs, 0, NoSlot, world), 3, 7, 4)
  {
    LoopIntoSlotInfo();
    LoopIntoSlotSteps(env, regs, world);
    LoopIntoSlotDiverts(env, regs, world);
    EnterSim(env, LoopIntoSlot(), m, regs, world, 0, NoSlot);
    ReachesBack(env, LoopIntoSlot(), Entered(env, m), Cpu(regs, 0, NoSlot, world), 0, 0, 5, 0, 3, Cpu(regs, 1, Slot(4), world),
                Cpu(regs, 4, NoSlot, world), Cpu(regs, 5, Slot(3), world));
    PartHere(env, LoopIntoSlot(), Entered(env, m), Cpu(regs, 0, NoSlot, world), 3, 0, 5, Cpu(regs, 5, Slot(3), world),
             Cpu(regs, 3, Slot(7), world), Cpu(regs, 3, NoSlot, world));
  }

  /** The reference goes from word 0 over 1 and 4 to 5, in a region where word 0 branches to word 4. */
  predicate BackEdge(env: Env, imem: Imem, base: nat, i: nat, cpu: Cpu, c: Cpu, d: Cpu, e: Cpu) {
    && base == 0 && i == 0 && RegionEnd(imem, base) == 8 && cpu.pc == 0 && c.pc == 1 && d.pc == 4 && e.pc == 5
    && cpu.pending == NoSlot && c.pending.Slot? && d.pending == NoSlot
    && Step(env, imem, cpu) == Running(c) && Step(env, imem, c) == Running(d) && Step(env, imem, d) == Running(e)
    && ModeOf(env, imem, cpu) == ModeOf(env, imem, c) == ModeOf(env, imem, d) == MODE_CONTINUE
    && InfoIn(imem, base, i) == DirectInfo(16, true) && InfoIn(imem, base, i + 1) == InfoIn(imem, base, i + 3) == NO_INFO
  }

  lemma ReachesBack(env: Env, imem: Imem, x: Config, cpu: Cpu, base: nat, i: nat, j: nat, h: nat, n: nat, c: Cpu, d: Cpu, e: Cpu)
    requires EnoughRegisters(env) && IsAt(x, base, i) && Related(env, imem, x, cpu) && BackEdge(env, imem, base, i, cpu, c, d, e)
    requires h == 0 && n == 3 && j == 5
    ensures Reaches(env, imem, x, cpu, n, base, j, e)
  {
    var g, k: nat := h + 2, i + 4;
    ReachesFour(env, imem, x, cpu, base, i, k, h, g, c, d, e);
    RunStays(env, imem, x, cpu, g, n, base, k, j, d, e);
  }

  lemma ReachesFour(env: Env, imem: Imem, x: Config, cpu: Cpu, base: nat, i: nat, k: nat, h: nat, n: nat, c: Cpu, d: Cpu, e: Cpu)
    requires EnoughRegisters(env) && IsAt(x, base, i) && Related(env, imem, x, cpu) && BackEdge(env, imem, base, i, cpu, c, d, e)
    requires h == 0 && n == 2 && k == 4
    ensures Reaches(env, imem, x, cpu, n, base, k, d)
  {
    var g, j: nat := h + 1, i + 1;
    TogetherStart(env, imem, x, cpu, h);
    RunStays(env, imem, x, cpu, h, g, base, i, j, cpu, c);
    RunGoes(env, imem, x, cpu, g, n, base, i, j, k, c, d);
  }
}
