/**
 * Whole runs: the compiled program and the one-instruction stepper visit the same words and stop in
 * the same state, exactly as long as neither of two delay-slot cases is met.
 */
module Runs {
  import opened Words
  import opened Isa
  import opened HostCode
  import opened RegCache
  import opened Region
  import opened Recompiler
  import opened InstrProofs
  import opened BranchProofs
  import opened SlotProofs
  import opened HandlerProofs
  import opened SlotOutcome
  import opened CompiledRun
  import opened Simulation
  import opened Lockstep

  // ----- a machine stands for at most one reference state -----

  lemma FileUnique(es: seq<Entry>, host: seq<Host>, sr: RegFile, a: RegFile, b: RegFile)
    requires Represents(es, host, sr, a) && Represents(es, host, sr, b)
    ensures a == b
  {
    forall k | 0 <= k < SR_WORDS
      ensures a[k] == b[k]
    {
      var h := Where(es, k);
      if k > 0 && h < |es| {
        assert EntryFaithful(es[h], host[h], sr, a) && EntryFaithful(es[h], host[h], sr, b);
      }
    }
  }

  lemma StartUnique(env: Env, c: Cache, m: Machine, a: Regs, b: Regs, x: Word, y: Word)
    requires Start(env, c, m, a, x) && Start(env, c, m, b, y)
    ensures a == b && x == y
  {
    FileUnique(c.entries, m.host, m.sr, File(a, x), File(b, y));
    assert a == File(a, x)[..32] && b == File(b, y)[..32];
    assert x == File(a, x)[32] && y == File(b, y)[32];
  }

  lemma PendingUnique(first: bool, last: Info, cond: Word, m: Machine, a: Pending, b: Pending)
    requires PendingIs(first, last, cond, m, a) && PendingIs(first, last, cond, m, b)
    ensures a == b
  {
  }

  lemma StandsUnique(env: Env, imem: Imem, base: nat, i: nat, m: Machine, a: Cpu, b: Cpu, x: Word, y: Word)
    requires Stands(env, imem, base, i, m, a, x) && Stands(env, imem, base, i, m, b, y)
    ensures a == b
  {
    StartUnique(env, FrontOf(env, imem, base, i).cache, m, a.regs, b.regs, x, y);
    PendingUnique(i == 0, LastIn(imem, base, i), x, m, a.pending, b.pending);
  }

  lemma MatchUnique(env: Env, imem: Imem, x: Config, p: Progress, q: Progress)
    requires Matches(env, imem, x, p) && Matches(env, imem, x, q)
    ensures p == q
  {
    if x.At? {
      var a: Word :| Stands(env, imem, x.base, x.i, x.m, p.cpu, a);
      var b: Word :| Stands(env, imem, x.base, x.i, x.m, q.cpu, b);
      StandsUnique(env, imem, x.base, x.i, x.m, p.cpu, q.cpu, a, b);
    }
  }

  // ----- exactly when a step is right -----

  /**
   * The two cases the generated code gets wrong, told from the reference state:
   * a taken conditional branch in the slot of an unconditional one, and a goto into the slot of a
   * BLEZ $0 that was never made conditional.
   */
  predicate Diverts(env: Env, imem: Imem, base: nat, i: nat, cpu: Cpu)
    requires InRegion(imem, base, i) && cpu.pc < MEM_WORDS
  {
    var info, last := InfoIn(imem, base, i), LastIn(imem, base, i);
    var k := LocalIndex(last, base);
    && i > 0 && cpu.pending.Slot? && ModeOf(env, imem, cpu) == MODE_CONTINUE
    && if info.branch then Forgets(info, last) && Step(env, imem, cpu).cpu.pending.Slot?
       else IsLocal(last, base, RegionEnd(imem, base)) && k >= 0 && InRegion(imem, base, k) && SidewaysSlot(imem, base, k)
  }

  lemma StepPending(env: Env, imem: Imem, base: nat, i: nat, m: Machine, cpu: Cpu, cond: Word)
    requires Stands(env, imem, base, i, m, cpu, cond) && EnoughRegisters(env) && cpu.pc < MEM_WORDS
    requires ModeOf(env, imem, cpu) == MODE_CONTINUE && !InfoIn(imem, base, i).branch
    ensures Step(env, imem, cpu).cpu.pending == NoSlot
  {
    var p, q, m', cond', e := InstrRun(env, imem, base, i, m, cpu, cond);
    NothingEncoded(InfoIn(imem, base, i), e.jump, cond', m'.indirect);
    StepJump(env, imem, cpu, e);
  }

  lemma NothingEncoded(info: Info, jump: Pending, cond: Word, indirect: Host)
    requires Encodes(info, jump, cond, indirect) && !info.branch
    ensures jump == NoSlot
  {
  }

  lemma StepJump(env: Env, imem: Imem, cpu: Cpu, e: Effect)
    requires cpu.pc < MEM_WORDS && e == Execute(env, imem[cpu.pc], cpu.pc, cpu.regs, cpu.world)
    ensures Step(env, imem, cpu).cpu.pending == e.jump
  {
  }

  lemma FollowedExact(env: Env, imem: Imem, base: nat, i: nat, cpu: Cpu)
    requires InRegion(imem, base, i) && cpu.pc < MEM_WORDS
    requires ModeOf(env, imem, cpu) == MODE_CONTINUE && !InfoIn(imem, base, i).branch ==> Step(env, imem, cpu).cpu.pending == NoSlot
    ensures Followed(env, imem, base, i, cpu) == Step(env, imem, cpu) <==> !Diverts(env, imem, base, i, cpu)
  {
  }

  /** A compiled step agrees with the reference step if and only if it is not one of the two cases. */
  lemma StepExact(env: Env, imem: Imem, base: nat, i: nat, m: Machine, cpu: Cpu)
    requires Related(env, imem, At(base, i, m), cpu) && EnoughRegisters(env)
    ensures InRegion(imem, base, i) && cpu.pc == base + i < MEM_WORDS
    ensures Matches(env, imem, JitStep(env, imem, base, i, m), Step(env, imem, cpu)) <==> !Diverts(env, imem, base, i, cpu)
  {
    var cond: Word :| Stands(env, imem, base, i, m, cpu, cond);
    StepSim(env, imem, base, i, m, cpu, cond);
    if ModeOf(env, imem, cpu) == MODE_CONTINUE && !InfoIn(imem, base, i).branch {
      StepPending(env, imem, base, i, m, cpu, cond);
    }
    FollowedExact(env, imem, base, i, cpu);
    ExactlyOne(env, imem, JitStep(env, imem, base, i, m), Followed(env, imem, base, i, cpu), Step(env, imem, cpu));
  }

  lemma ExactlyOne(env: Env, imem: Imem, x: Config, p: Progress, q: Progress)
    requires Matches(env, imem, x, p)
    ensures Matches(env, imem, x, q) <==> p == q
  {
    if Matches(env, imem, x, q) {
      MatchUnique(env, imem, x, p, q);
    }
  }

  // ----- runs -----

  function Advance(env: Env, imem: Imem, x: Config): Config {
    if x.At? && InRegion(imem, x.base, x.i) then JitStep(env, imem, x.base, x.i, x.m) else x
  }

  function JitRun(env: Env, imem: Imem, x: Config, n: nat): Config {
    if n == 0 then x else Advance(env, imem, JitRun(env, imem, x, n - 1))
  }

  function StepOn(env: Env, imem: Imem, p: Progress): Progress {
    if p.Running? && p.cpu.pc < MEM_WORDS then Step(env, imem, p.cpu) else p
  }

  function RefRun(env: Env, imem: Imem, cpu: Cpu, n: nat): Progress {
    if n == 0 then Running(cpu) else StepOn(env, imem, RefRun(env, imem, cpu, n - 1))
  }

  predicate Diverted(env: Env, imem: Imem, x: Config, p: Progress) {
    x.At? && InRegion(imem, x.base, x.i) && p.Running? && p.cpu.pc < MEM_WORDS && Diverts(env, imem, x.base, x.i, p.cpu)
  }

  lemma AdvanceExact(env: Env, imem: Imem, x: Config, p: Progress)
    requires Matches(env, imem, x, p) && EnoughRegisters(env)
    ensures Matches(env, imem, Advance(env, imem, x), StepOn(env, imem, p)) <==> !Diverted(env, imem, x, p)
  {
    if p.Running? {
      StepExact(env, imem, x.base, x.i, x.m, p.cpu);
    }
  }

  ghost predicate InStep(env: Env, imem: Imem, x: Config, cpu: Cpu, k: nat) {
    Matches(env, imem, JitRun(env, imem, x, k), RefRun(env, imem, cpu, k))
  }

  predicate DivertedAt(env: Env, imem: Imem, x: Config, cpu: Cpu, k: nat) {
    Diverted(env, imem, JitRun(env, imem, x, k), RefRun(env, imem, cpu, k))
  }

  lemma InStepNext(env: Env, imem: Imem, x: Config, cpu: Cpu, k: nat)
    requires InStep(env, imem, x, cpu, k) && EnoughRegisters(env)
    ensures InStep(env, imem, x, cpu, k + 1) <==> !DivertedAt(env, imem, x, cpu, k)
  {
    AdvanceExact(env, imem, JitRun(env, imem, x, k), RefRun(env, imem, cpu, k));
  }

  /** The first n steps agree if and only if none of them is diverted. */
  lemma RunExact(env: Env, imem: Imem, x: Config, cpu: Cpu, n: nat)
    requires Related(env, imem, x, cpu) && EnoughRegisters(env)
    ensures (forall k: nat :: k <= n ==> InStep(env, imem, x, cpu, k)) <==> (forall k: nat :: k < n ==> !DivertedAt(env, imem, x, cpu, k))
  {
    ghost var agrees: nat -> bool := (k: nat) => InStep(env, imem, x, cpu, k);
    ghost var diverts: nat -> bool := (k: nat) => DivertedAt(env, imem, x, cpu, k);
    assert agrees(0);
    forall k: nat | agrees(k)
      ensures agrees(k + 1) <==> !diverts(k)
    {
      InStepNext(env, imem, x, cpu, k);
    }
    UpToFirst(agrees, diverts, n);
    assert forall k: nat :: agrees(k) == InStep(env, imem, x, cpu, k);
    assert forall k: nat :: diverts(k) == DivertedAt(env, imem, x, cpu, k);
  }

  // ----- programs without the two cases -----

  /** No region of the program holds either case. */
  predicate Clean(imem: Imem) {
    forall base: nat, i: nat :: base < MEM_WORDS && i < MEM_WORDS && InRegion(imem, base, i) ==>
      !SidewaysSlot(imem, base, i) && !Forgets(InfoIn(imem, base, i), LastIn(imem, base, i))
  }

  lemma CleanNeverDiverts(env: Env, imem: Imem, x: Config, p: Progress)
    requires Clean(imem)
    ensures !Diverted(env, imem, x, p)
  {
    if x.At? && InRegion(imem, x.base, x.i) {
      InsideMemory(imem, x.base, x.i);
      var k := LocalIndex(LastIn(imem, x.base, x.i), x.base);
      if k >= 0 && InRegion(imem, x.base, k) {
        InsideMemory(imem, x.base, k);
      }
    }
  }

  /** The word about to be executed. */
  function JitPc(x: Config): seq<nat> { if x.At? then [x.base + x.i] else [] }

  function RefPc(p: Progress): seq<nat> { if p.Running? then [p.cpu.pc] else [] }

  /** The words visited in the first n steps. */
  function JitTrace(env: Env, imem: Imem, x: Config, n: nat): seq<nat> {
    Joined((k: nat) => JitPc(JitRun(env, imem, x, k)), n)
  }

  function RefTrace(env: Env, imem: Imem, cpu: Cpu, n: nat): seq<nat> {
    Joined((k: nat) => RefPc(RefRun(env, imem, cpu, k)), n)
  }

  lemma MatchPc(env: Env, imem: Imem, x: Config, p: Progress)
    requires Matches(env, imem, x, p)
    ensures x.At? <==> p.Running?
    ensures x.At? ==> x.base + x.i == p.cpu.pc && (x.i > 0 ==> x.m.slotFlag == 0)
    ensures JitPc(x) == RefPc(p)
  {
  }

  lemma {:induction false} RunInStep(env: Env, imem: Imem, x: Config, cpu: Cpu, n: nat)
    requires Clean(imem) && Related(env, imem, x, cpu) && EnoughRegisters(env)
    ensures InStep(env, imem, x, cpu, n)
  {
    if n > 0 {
      var k := n - 1;
      RunInStep(env, imem, x, cpu, k);
      CleanNeverDiverts(env, imem, JitRun(env, imem, x, k), RefRun(env, imem, cpu, k));
      InStepNext(env, imem, x, cpu, k);
    }
  }

  lemma SamePc(env: Env, imem: Imem, x: Config, cpu: Cpu, k: nat)
    requires Clean(imem) && Related(env, imem, x, cpu) && EnoughRegisters(env)
    ensures JitPc(JitRun(env, imem, x, k)) == RefPc(RefRun(env, imem, cpu, k))
  {
    RunInStep(env, imem, x, cpu, k);
    MatchPc(env, imem, JitRun(env, imem, x, k), RefRun(env, imem, cpu, k));
  }

  /** A clean program entered anywhere: same words visited, same state at every step, same exit. */
  lemma RunSim(env: Env, imem: Imem, x: Config, cpu: Cpu, n: nat)
    requires Clean(imem) && Related(env, imem, x, cpu) && EnoughRegisters(env)
    ensures InStep(env, imem, x, cpu, n)
    ensures JitTrace(env, imem, x, n) == RefTrace(env, imem, cpu, n)
  {
    RunInStep(env, imem, x, cpu, n);
    var f: nat -> seq<nat> := (k: nat) => JitPc(JitRun(env, imem, x, k));
    var g: nat -> seq<nat> := (k: nat) => RefPc(RefRun(env, imem, cpu, k));
    forall k: nat | k < n
      ensures f(k) == g(k)
    {
      SamePc(env, imem, x, cpu, k);
    }
    JoinedSame(f, g, n);
  }

  /** Whatever the program, every configuration of a run stands for some reference state. */
  lemma {:induction false} RunStands(env: Env, imem: Imem, x: Config, p: Progress, n: nat) returns (q: Progress)
    requires Matches(env, imem, x, p) && EnoughRegisters(env)
    ensures Matches(env, imem, JitRun(env, imem, x, n), q)
  {
    q := p;
    if n > 0 {
      q := RunStands(env, imem, x, p, n - 1);
      q := AdvanceStands(env, imem, JitRun(env, imem, x, n - 1), q);
    }
  }

  lemma AdvanceStands(env: Env, imem: Imem, x: Config, p: Progress) returns (q: Progress)
    requires Matches(env, imem, x, p) && EnoughRegisters(env)
    ensures Matches(env, imem, Advance(env, imem, x), q)
  {
    q := p;
    if p.Running? {
      var cond: Word :| Stands(env, imem, x.base, x.i, x.m, p.cpu, cond);
      StepSim(env, imem, x.base, x.i, x.m, p.cpu, cond);
      q := Followed(env, imem, x.base, x.i, p.cpu);
    }
  }

  /**
   * Any program, clean or not: no goto misses its label, control stays inside compiled regions, and
   * between instructions has_delay_slot is set only in front of the first instruction of a block.
   */
  lemma SlotFlagOnlyOnEntry(env: Env, imem: Imem, x: Config, cpu: Cpu, n: nat)
    requires Related(env, imem, x, cpu) && EnoughRegisters(env)
    ensures var y := JitRun(env, imem, x, n);
            !y.Fault? && (y.At? ==> InRegion(imem, y.base, y.i)) && ((y.At? ==> y.i > 0) ==> y.m.slotFlag == 0)
  {
    var p := RunStands(env, imem, x, Running(cpu), n);
    MatchPc(env, imem, JitRun(env, imem, x, n), p);
  }

  /** `run` entered with a machine state: registers and memory are taken as they are, a pending slot too. */
  lemma EnteredRun(env: Env, imem: Imem, m: Machine, cpu: Cpu, n: nat)
    requires Clean(imem) && EnoughRegisters(env) && Enters(env, m, cpu.regs, cpu.world, cpu.pc, cpu.pending)
    ensures InStep(env, imem, Entered(env, m), cpu, n)
    ensures JitTrace(env, imem, Entered(env, m), n) == RefTrace(env, imem, cpu, n)
  {
    EnterSim(env, imem, m, cpu.regs, cpu.world, cpu.pc, cpu.pending);
    RunSim(env, imem, Entered(env, m), cpu, n);
  }

  // ----- a simple sufficient condition on the words -----

  predicate BranchWord(w: Word) { IsBranchInstr(Decode(w)) }

  predicate AlwaysBranch(w: Word) { Decode(w).BranchZero? && Decode(w).op.LeS? && Decode(w).rs == 0 }

  /** No branch in a delay slot, and the slot of a BLEZ $0 is not a branch target. */
  predicate Ordinary(imem: Imem) {
    && (forall k :: 0 <= k && k + 1 < MEM_WORDS && BranchWord(imem[k]) ==> !BranchWord(imem[k + 1]))
    && (forall k, j :: 0 <= k < MEM_WORDS && 0 <= j < MEM_WORDS && AlwaysBranch(imem[k]) ==> !TargetsWord(FlowOf(j, imem[j]), k + 1))
  }

  lemma InfoBranch(w: Word, at: nat, slotIsEntry: bool)
    ensures InfoOf(w, at, slotIsEntry).branch ==> BranchWord(w)
    ensures var info := InfoOf(w, at, slotIsEntry); info.branch && !info.conditional ==> AlwaysBranch(w) || !slotIsEntry
  {
  }

  lemma OrdinaryIsClean(imem: Imem)
    requires Ordinary(imem)
    ensures Clean(imem)
  {
    forall base: nat, i: nat | base < MEM_WORDS && i < MEM_WORDS && InRegion(imem, base, i)
      ensures !SidewaysSlot(imem, base, i) && !Forgets(InfoIn(imem, base, i), LastIn(imem, base, i))
    {
      InsideMemory(imem, base, i);
      if i > 0 {
        OrdinaryAt(imem, base, i - 1, i);
      }
    }
  }

  lemma OrdinaryAt(imem: Imem, base: nat, h: nat, i: nat)
    requires Ordinary(imem) && i == h + 1 && InRegion(imem, base, h) && InRegion(imem, base, i) && base + i < MEM_WORDS
    ensures !SidewaysSlot(imem, base, i) && !Forgets(InfoIn(imem, base, i), LastIn(imem, base, i))
  {
    var end, k := RegionEnd(imem, base), base + h;
    InfoBranch(imem[k], k, SlotIsEntry(imem, base, end, h));
    InfoBranch(imem[k + 1], k + 1, SlotIsEntry(imem, base, end, i));
    assert BranchWord(imem[k]) ==> !BranchWord(imem[k + 1]);
  }
}
