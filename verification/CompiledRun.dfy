/**
 * Running compiled regions, and the proof that compiling them never fails.
 *
 * A configuration is a position inside a compiled region. `JitStep` runs the code of one instruction
 * together with whatever its delay-slot code, the next label, the end of the block, the latent-slot
 * code or the thunks add, up to the code of the next instruction.
 */
module CompiledRun {
  import opened Words
  import opened Isa
  import opened HostCode
  import opened RegCache
  import opened RegCacheProofs
  import opened Emitter
  import opened Region
  import opened Recompiler
  import opened InstrProofs
  import opened BranchProofs
  import opened SlotProofs
  import opened StepProofs
  import opened HandlerProofs

  // ----- running compiled regions -----

  datatype Config =
    | At(base: nat, i: nat, m: Machine)              // in front of instruction i of the region of word `base`
    | Exited(mode: Word, pc: nat, m: Machine)        // `run` returned
    | Fault                                          // a goto without a label

  predicate EnoughRegisters(env: Env) { 3 <= env.callerSaved <= env.hostRegisters }

  predicate InRegion(imem: Imem, base: nat, i: nat) { base < MEM_WORDS && base + i < RegionEnd(imem, base) }

  function StartCache(env: Env): Cache { Cache(seq(env.hostRegisters, _ => EMPTY), 0, env.callerSaved, true) }

  function FrontOf(env: Env, imem: Imem, base: nat, i: nat): Front
    requires InRegion(imem, base, i)
  {
    FrontAt(imem, base, RegionEnd(imem, base), StartCache(env), i)
  }

  function BodyOf(env: Env, imem: Imem, base: nat, i: nat): Piece
    requires InRegion(imem, base, i)
  {
    Body(imem, base, RegionEnd(imem, base), StartCache(env), i)
  }

  function InfoIn(imem: Imem, base: nat, i: nat): Info
    requires InRegion(imem, base, i)
  {
    InfoAt(imem, base, RegionEnd(imem, base), i)
  }

  function LastIn(imem: Imem, base: nat, i: nat): Info
    requires InRegion(imem, base, i)
  {
    if i == 0 then NO_INFO else InfoIn(imem, base, i - 1)
  }

  function LastIndex(imem: Imem, base: nat): nat
    requires base < MEM_WORDS
  {
    RegionEnd(imem, base) - base - 1
  }

  function EndOf(env: Env, imem: Imem, base: nat): Piece
    requires base < MEM_WORDS
  {
    var n := LastIndex(imem, base);
    EndOfBlock(BodyOf(env, imem, base, n).cache, InfoIn(imem, base, n), RegionEnd(imem, base))
  }

  /** enter_thunk: the lookup call destroys registers; the condition and its stack copy are cleared. */
  function Thunk(env: Env, m: Machine): Machine {
    Poke(AfterCall(env, m, m.world), MODE, ZERO).(frameCond := ZERO, sr := m.sr[COND := 0])
  }

  function Entered(env: Env, m: Machine): Config { At(WordIndex(Peek(m, NEXT_PC).lo), 0, Thunk(env, m)) }

  /** `run` leaves on the modes that need the caller and enters again otherwise. */
  function Left(env: Env, m: Machine): Config {
    var mode := Peek(m, MODE).lo;
    if Halts(mode) then Exited(mode, WordIndex(Peek(m, NEXT_PC).lo), m) else Entered(env, m)
  }

  function AfterExit(env: Env, o: Outcome): Config {
    match o
    case Enter(m) => Entered(env, m)
    case Return(m) => Left(env, m)
    case _ => Fault
  }

  /** Falling through to instruction i + 1, or off the end of the block. */
  function FallThrough(env: Env, imem: Imem, base: nat, i: nat, m: Machine): Config
    requires InRegion(imem, base, i)
  {
    if !InRegion(imem, base, i + 1) then AfterExit(env, Run(env, EndOf(env, imem, base).nodes, m))
    else ToNext(env, IsEntry(imem, base, RegionEnd(imem, base), i + 1), BodyOf(env, imem, base, i).cache, base, i, m)
  }

  function ToNext(env: Env, labelled: bool, c: Cache, base: nat, i: nat, m: Machine): Config {
    var o := if labelled then Run(env, LabelCode(c).nodes, m) else Next(m);
    if o.Next? then At(base, i + 1, o.m) else Fault
  }

  function Continue(env: Env, imem: Imem, base: nat, i: nat, o: Outcome): Config
    requires InRegion(imem, base, i)
  {
    match o
    case Next(m) => FallThrough(env, imem, base, i, m)
    case Latent(m) => AfterExit(env, Run(env, LatentCode(EndOf(env, imem, base).cache, InfoIn(imem, base, 0)), m))
    case Local(k, m) =>
      if InRegion(imem, base, k) && IsEntry(imem, base, RegionEnd(imem, base), k) then At(base, k, m) else Fault
    case _ => AfterExit(env, o)
  }

  function JitStep(env: Env, imem: Imem, base: nat, i: nat, m: Machine): Config
    requires InRegion(imem, base, i)
  {
    WrappedStep(env, imem, base, i, m, WRAPS)
  }

  function WrappedStep(env: Env, imem: Imem, base: nat, i: nat, m: Machine, wraps: nat): Config
    requires InRegion(imem, base, i)
  {
    if wraps > 0 then WrappedStep(env, imem, base, i, m, wraps - 1)
    else Continue(env, imem, base, i, Run(env, BodyOf(env, imem, base, i).nodes, m))
  }

  lemma OpenStep(env: Env, imem: Imem, base: nat, i: nat, m: Machine)
    requires InRegion(imem, base, i)
    ensures JitStep(env, imem, base, i, m) == Continue(env, imem, base, i, Run(env, BodyOf(env, imem, base, i).nodes, m))
  {
    assert WrappedStep(env, imem, base, i, m, 1) == WrappedStep(env, imem, base, i, m, 0);
  }

  // ----- compilation never fails -----

  lemma IdleWf(env: Env, c: Cache)
    requires Idle(env, c, env.hostRegisters)
    ensures Wf(env, c)
  {
  }

  lemma CompileInstrWf(env: Env, c: Cache, w: Word, at: nat, last: Info, first: bool, slotIsEntry: bool, world: World)
    requires Wf(env, c)
    ensures Wf(env, CompileInstr(c, w, at, last, first, slotIsEntry).cache)
  {
    var m, d := ZeroMachine(env, world), Decode(w);
    OpenInstr(c, w, at, last, first, slotIsEntry);
    StartOfWf(env, c, world);
    DecodeShape(w);
    if IsBranchInstr(d) {
      var m' := BranchStep(env, c, m, ZeroRegs(), 0, d, w, at, last, slotIsEntry);
      ExecutedWf(env, EmitBranch(EmitKeepSlot(Gen(c, []), last), d, at, slotIsEntry).cache, m, m',
                 Perform(env, d, w, at, ZeroRegs(), world), InfoFor(d, w, at, slotIsEntry), last, 0,
                 CondAfter(d, ZeroRegs(), 0, slotIsEntry));
    } else if d.Break? || d.MoveFromC0? || d.MoveToC0? {
      StartOk(env, c, m, ZeroRegs(), 0);
      var m' := FlushClears(env, Gen(c, []), m, m, ZeroRegs(), 0);
      IdleWf(env, FlushAll(Gen(c, [])).cache);
    } else {
      var m' := DataStep(env, c, m, ZeroRegs(), 0, d, w, at, last, slotIsEntry);
      ExecutedWf(env, EmitData(Gen(c, []), d, w).cache, m, m', Perform(env, d, w, at, ZeroRegs(), world),
                 InfoFor(d, w, at, slotIsEntry), last, 0, 0);
    }
  }

  lemma ExecutedWf(env: Env, c: Cache, m: Machine, m': Machine, e: Effect, info: Info, last: Info, cond: Word, cond': Word)
    requires Executed(env, c, m, m', e, info, last, cond, cond') && |m.host| == env.hostRegisters
    ensures Wf(env, c)
  {
    WfOfStart(env, c, m', e.regs, cond');
  }

  lemma CompileSlotWf(env: Env, c: Cache, info: Info, last: Info, first: bool, base: nat, end: nat, world: World)
    requires Wf(env, c)
    ensures Wf(env, CompileSlot(c, info, last, first, base, end).cache)
  {
    var m := ZeroMachine(env, world);
    OpenSlot(c, info, last, first, base, end);
    StartOfWf(env, c, world);
    if first && !info.handlesSlot {
      var m' := LatentCheckSim(env, c, m, ZeroRegs(), 0);
      ClearWf(env, LatentCheck(c).cache, m', ZeroRegs(), 0);
    } else if info.branch && last.branch {
      var m' := DoubleBranchSim(env, c, m, ZeroRegs(), 0, info, last);
      IdleWf(env, ResolveDoubleBranch(c, info, last).cache);
    } else if !info.handlesSlot && last.branch {
      var m';
      if last.conditional {
        m' := BranchSlotSim(env, c, m, ZeroRegs(), 0, last, base, end);
      } else {
        m' := JumpSlotSim(env, c, m, ZeroRegs(), 0, last, base, end);
      }
      IdleWf(env, ResolveSlot(c, last, base, end).cache);
    }
  }

  lemma ClearWf(env: Env, c: Cache, m: Machine, regs: Regs, cond: Word)
    requires Clear(env, c, m, regs, cond) && |m.host| == env.hostRegisters
    ensures Wf(env, c)
  {
    WfOfStart(env, c, m, regs, cond);
  }

  lemma LabelWf(env: Env, c: Cache, world: World)
    requires Wf(env, c)
    ensures Wf(env, LabelCode(c).cache)
  {
    var m := ZeroMachine(env, world);
    StartOfWf(env, c, world);
    var m' := LabelSim(env, c, m, ZeroRegs(), 0);
    WfOfStart(env, LabelCode(c).cache, m', ZeroRegs(), 0);
  }

  lemma FrontUnfold(env: Env, imem: Imem, base: nat, i: nat, c: Cache) returns (f: Front)
    requires InRegion(imem, base, i) && InRegion(imem, base, i + 1) && c == BodyOf(env, imem, base, i).cache
    ensures f == FrontOf(env, imem, base, i + 1)
    ensures f == Front(if IsEntry(imem, base, RegionEnd(imem, base), i + 1) then LabelCode(c).cache else c, InfoIn(imem, base, i))
  {
    f := FrontNext(imem, base, RegionEnd(imem, base), StartCache(env), i, c);
  }

  lemma FrontFold(env: Env, imem: Imem, base: nat, j: nat, c: Cache) returns (f: Front)
    requires j > 0 && InRegion(imem, base, j) && c == BodyOf(env, imem, base, j - 1).cache
    ensures f == FrontOf(env, imem, base, j)
    ensures f == Front(if IsEntry(imem, base, RegionEnd(imem, base), j) then LabelCode(c).cache else c, InfoIn(imem, base, j - 1))
  {
    f := FrontBehind(imem, base, RegionEnd(imem, base), StartCache(env), j, c);
  }

  /** No allocation fails, no lock is left over and register 0 is never dirty, anywhere in any region. */
  lemma {:induction false} FrontWf(env: Env, imem: Imem, base: nat, i: nat, world: World)
    requires InRegion(imem, base, i) && EnoughRegisters(env)
    ensures Wf(env, FrontOf(env, imem, base, i).cache)
    ensures FrontOf(env, imem, base, i).last == LastIn(imem, base, i)
    decreases i, 0
  {
    if i > 0 {
      var c := BodyOfWf(env, imem, base, i - 1, world);
      var f := FrontFold(env, imem, base, i, c);
      LabelWf(env, c, world);
    } else {
      LabelWf(env, Reset(StartCache(env)), world);
    }
  }

  lemma {:induction false} BodyOfWf(env: Env, imem: Imem, base: nat, i: nat, world: World) returns (c: Cache)
    requires InRegion(imem, base, i) && EnoughRegisters(env)
    ensures c == BodyOf(env, imem, base, i).cache && Wf(env, c)
    decreases i, 1
  {
    var f, slotIsEntry, p, q := Pieces(env, imem, base, i);
    FrontWf(env, imem, base, i, world);
    PiecesWf(env, f.cache, imem[base + i], base + i, f.last, i == 0, slotIsEntry, InfoIn(imem, base, i), base, RegionEnd(imem, base), p, q, world);
    c := q.cache;
  }

  lemma PiecesWf(env: Env, c: Cache, w: Word, at: nat, last: Info, first: bool, slotIsEntry: bool, info: Info, base: nat, end: nat,
                 p: Piece, q: Piece, world: World)
    requires Wf(env, c) && p == CompileInstr(c, w, at, last, first, slotIsEntry) && q == CompileSlot(p.cache, info, last, first, base, end)
    ensures Wf(env, q.cache)
  {
    CompileInstrWf(env, c, w, at, last, first, slotIsEntry, world);
    CompileSlotWf(env, p.cache, info, last, first, base, end, world);
  }

  /** The code of instruction i, as the code of the instruction and its delay-slot code. */
  lemma Pieces(env: Env, imem: Imem, base: nat, i: nat) returns (f: Front, slotIsEntry: bool, p: Piece, q: Piece)
    requires InRegion(imem, base, i)
    ensures f == FrontOf(env, imem, base, i) && slotIsEntry == SlotIsEntry(imem, base, RegionEnd(imem, base), i)
    ensures p == CompileInstr(f.cache, imem[base + i], base + i, f.last, i == 0, slotIsEntry)
    ensures q == CompileSlot(p.cache, InfoIn(imem, base, i), f.last, i == 0, base, RegionEnd(imem, base))
    ensures BodyOf(env, imem, base, i) == Piece(p.nodes + q.nodes, q.cache)
  {
    var end := RegionEnd(imem, base);
    f, slotIsEntry := FrontOf(env, imem, base, i), SlotIsEntry(imem, base, end, i);
    p := CompileInstr(f.cache, imem[base + i], base + i, f.last, i == 0, slotIsEntry);
    q := CompileSlot(p.cache, InfoIn(imem, base, i), f.last, i == 0, base, end);
    BodyFrom(imem, base, end, StartCache(env), i, f, InfoIn(imem, base, i), slotIsEntry, p, q);
  }

  lemma FallsToNext(env: Env, imem: Imem, base: nat, i: nat, c: Cache, m: Machine)
    requires InRegion(imem, base, i) && InRegion(imem, base, i + 1) && c == BodyOf(env, imem, base, i).cache
    ensures FallThrough(env, imem, base, i, m) == ToNext(env, IsEntry(imem, base, RegionEnd(imem, base), i + 1), c, base, i, m)
  {
  }

  lemma FallsOffEnd(env: Env, imem: Imem, base: nat, i: nat, c: Cache, p: Piece, m: Machine)
    requires InRegion(imem, base, i) && !InRegion(imem, base, i + 1) && c == BodyOf(env, imem, base, i).cache
    requires p == EndOfBlock(c, InfoIn(imem, base, i), RegionEnd(imem, base))
    ensures FallThrough(env, imem, base, i, m) == AfterExit(env, Run(env, p.nodes, m))
  {
    assert i == LastIndex(imem, base);
  }
}
