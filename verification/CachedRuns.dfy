/**
 * Running through the code cache: whenever a block is entered its function is fetched, and the code
 * that runs is the fetched function's, whatever is in instruction memory. Unless two different regions
 * that were met share a hash, that is the run of the words that are in memory now.
 */
module CachedRuns {
  import opened Words
  import Recompiler
  import opened Isa
  import opened HostCode
  import opened Region
  import opened HandlerProofs
  import opened CompiledRun
  import opened Simulation
  import opened Runs
  import opened CodeIdentity
  import opened CodeCache

  /** The cache, the function that is running, and where in it. */
  datatype Cached = Cached(t: Track, func: Func, x: Config)

  /** Entering a block fetches its function. */
  function Fetched(t: Track, func: Func, x: Config): Cached {
    if x.At? && x.i == 0 && Allowed(t, Fetch(x.base)) then Cached(After(t, Fetch(x.base)), Lookup(t.s, x.base).func, x)
    else Cached(t, func, x)
  }

  predicate Runnable(c: Cached) {
    && c.x.At? && c.func.base == c.x.base && c.func.base + |c.func.words| <= MEM_WORDS
    && InRegion(Image(c.func), c.x.base, c.x.i)
  }

  /** One instruction of the running function. */
  function CachedStep(env: Env, c: Cached): Cached {
    if Runnable(c) then Fetched(c.t, c.func, JitStep(env, Image(c.func), c.x.base, c.x.i, c.x.m)) else c
  }

  function CachedRun(env: Env, c: Cached, n: nat): Cached {
    if n == 0 then c else CachedStep(env, CachedRun(env, c, n - 1))
  }

  /** While code runs nothing is marked and memory stays as it is; the running function shows its region, collisions aside. */
  ghost predicate Current(c: Cached, imem: Imem) {
    && Coherent(c.t) && c.t.s.imem == imem && !c.t.outside && c.t.s.dirty == {}
    && (c.x.At? ==> c.x.base < MEM_WORDS)
    && (CollisionFree(c.t.met) && c.x.At? ==> c.func == RegionAt(imem, c.x.base))
  }

  lemma ImageRegion(imem: Imem, w: nat)
    requires w < MEM_WORDS
    ensures var f := RegionAt(imem, w); f.base + |f.words| <= MEM_WORDS && RegionAt(Image(f), w) == f
  {
    var f := RegionAt(imem, w);
    RegionIsWhole(imem, w);
    assert Shows(Image(f), f);
    SameRegion(Image(f), f);
  }

  /** A step stays in its region, enters another block or returns. */
  lemma StepBase(env: Env, imem: Imem, base: nat, i: nat, m: Machine)
    requires InRegion(imem, base, i)
    ensures var y := JitStep(env, imem, base, i, m); y.At? ==> y.base < MEM_WORDS && (y.i > 0 ==> y.base == base)
  {
    OpenStep(env, imem, base, i, m);
    ContinueBase(env, imem, base, i, Run(env, BodyOf(env, imem, base, i).nodes, m));
  }

  lemma ContinueBase(env: Env, imem: Imem, base: nat, i: nat, o: Outcome)
    requires InRegion(imem, base, i)
    ensures var y := Continue(env, imem, base, i, o); y.At? ==> y.base < MEM_WORDS && (y.i > 0 ==> y.base == base)
  {
    match o
    case Next(m) =>
      if !InRegion(imem, base, i + 1) { ExitBase(env, Run(env, EndOf(env, imem, base).nodes, m)); }
    case Latent(m) => ExitBase(env, Run(env, LatentOf(env, imem, base), m));
    case Local(k, m) =>
    case _ => ExitBase(env, o);
  }

  function LatentOf(env: Env, imem: Imem, base: nat): seq<Node>
    requires base < MEM_WORDS
  {
    Recompiler.LatentCode(EndOf(env, imem, base).cache, InfoIn(imem, base, 0))
  }

  lemma ExitBase(env: Env, o: Outcome)
    ensures var y := AfterExit(env, o); y.At? ==> y.base < MEM_WORDS && y.i == 0
  {
  }

  /** The fetched function's step is the step of the words in memory. */
  lemma FuncStep(env: Env, c: Cached, imem: Imem)
    requires c.x.At? && c.x.base < MEM_WORDS && c.func == RegionAt(imem, c.x.base)
    ensures Runnable(c) <==> InRegion(imem, c.x.base, c.x.i)
    ensures Runnable(c) ==> JitStep(env, Image(c.func), c.x.base, c.x.i, c.x.m) == JitStep(env, imem, c.x.base, c.x.i, c.x.m)
  {
    ImageRegion(imem, c.x.base);
    RegionsAgree(imem, Image(c.func), c.x.base);
    if InRegion(imem, c.x.base, c.x.i) {
      SameStep(env, imem, Image(c.func), c.x.base, c.x.i, c.x.m);
    }
  }

  lemma FetchedCurrent(t: Track, func: Func, x: Config, imem: Imem)
    requires Coherent(t) && t.s.imem == imem && !t.outside && t.s.dirty == {} && (x.At? ==> x.base < MEM_WORDS)
    requires CollisionFree(t.met) && x.At? && x.i > 0 ==> func == RegionAt(imem, x.base)
    ensures Current(Fetched(t, func, x), imem) && Fetched(t, func, x).x == x && t.met <= Fetched(t, func, x).t.met
  {
    if x.At? && x.i == 0 {
      CoherentStep(t, Fetch(x.base));
      if CollisionFree(After(t, Fetch(x.base)).met) {
        FetchIsCurrent(t, x.base);
      }
    }
  }

  lemma StepCurrent(env: Env, c: Cached, imem: Imem)
    requires Current(c, imem)
    ensures Current(CachedStep(env, c), imem) && c.t.met <= CachedStep(env, c).t.met
    ensures CollisionFree(c.t.met) ==> CachedStep(env, c).x == Advance(env, imem, c.x)
  {
    if c.x.At? && CollisionFree(c.t.met) {
      FuncStep(env, c, imem);
    }
    if Runnable(c) {
      StepBase(env, Image(c.func), c.x.base, c.x.i, c.x.m);
      FetchedCurrent(c.t, c.func, JitStep(env, Image(c.func), c.x.base, c.x.i, c.x.m), imem);
    }
  }

  lemma {:induction false} RunCurrent(env: Env, c: Cached, imem: Imem, n: nat)
    requires Current(c, imem)
    ensures Current(CachedRun(env, c, n), imem)
    ensures CollisionFree(CachedRun(env, c, n).t.met) ==> CachedRun(env, c, n).x == JitRun(env, imem, c.x, n)
  {
    if n > 0 {
      var d := CachedRun(env, c, n - 1);
      RunCurrent(env, c, imem, n - 1);
      StepCurrent(env, d, imem);
      if CollisionFree(CachedStep(env, d).t.met) {
        CollisionFreeSubset(d.t.met, CachedStep(env, d).t.met);
      }
    }
  }

  /** Nothing is marked and no outside write is waiting: what invalidate_code leaves at the start of `run`. */
  predicate Settled(t: Track) { !t.outside && t.s.dirty == {} }

  /** `run` with any registers, for n steps, through the cache; no function is running before the first entry. */
  function RunFrom(env: Env, t: Track, m: Machine, n: nat): Cached {
    CachedRun(env, Fetched(t, Func(0, []), Entered(env, m)), n)
  }

  /**
   * From any coherent cache with nothing marked, running any number of steps through it is running the words
   * in memory, and leaves it coherent with nothing marked; or two different regions met so far share a hash.
   */
  lemma CachedRunIsCurrent(env: Env, t: Track, m: Machine, n: nat)
    requires Coherent(t) && Settled(t)
    ensures var c := RunFrom(env, t, m, n);
            && Coherent(c.t) && Settled(c.t) && c.t.s.imem == t.s.imem
            && (c.x == JitRun(env, t.s.imem, Entered(env, m), n) || !CollisionFree(c.t.met))
  {
    FetchedCurrent(t, Func(0, []), Entered(env, m), t.s.imem);
    RunCurrent(env, Fetched(t, Func(0, []), Entered(env, m)), t.s.imem, n);
  }

  /** So on a clean program it follows the reference, from any registers and pending slot. */
  lemma CachedRunSim(env: Env, t: Track, m: Machine, cpu: Cpu, n: nat)
    requires Coherent(t) && Settled(t) && Clean(t.s.imem) && EnoughRegisters(env)
    requires Enters(env, m, cpu.regs, cpu.world, cpu.pc, cpu.pending)
    ensures var c := RunFrom(env, t, m, n);
            Matches(env, t.s.imem, c.x, RefRun(env, t.s.imem, cpu, n)) || !CollisionFree(c.t.met)
  {
    CachedRunIsCurrent(env, t, m, n);
    EnteredRun(env, t.s.imem, m, cpu, n);
  }

  // ----- sessions -----

  /** What happens to the cache between power-on and any moment: single events, and whole runs from any registers. */
  datatype Stage = Happens(e: Event) | CodeRuns(m: Machine, n: nat)

  predicate StageAllowed(t: Track, stage: Stage) {
    match stage
    case Happens(e) => Allowed(t, e)
    case CodeRuns(_, _) => Settled(t)
  }

  function AfterStage(env: Env, t: Track, stage: Stage): Track
    requires StageAllowed(t, stage)
  {
    match stage
    case Happens(e) => After(t, e)
    case CodeRuns(m, n) => RunFrom(env, t, m, n).t
  }

  predicate SessionAllowed(env: Env, t: Track, stages: seq<Stage>)
    decreases |stages|
  {
    stages == [] || (StageAllowed(t, stages[0]) && SessionAllowed(env, AfterStage(env, t, stages[0]), stages[1..]))
  }

  function AfterSession(env: Env, t: Track, stages: seq<Stage>): Track
    requires SessionAllowed(env, t, stages)
    decreases |stages|
  {
    if stages == [] then t else AfterSession(env, AfterStage(env, t, stages[0]), stages[1..])
  }

  lemma {:induction false} SessionCoherent(env: Env, t: Track, stages: seq<Stage>)
    requires Coherent(t) && SessionAllowed(env, t, stages)
    ensures Coherent(AfterSession(env, t, stages))
    decreases |stages|
  {
    if stages != [] {
      match stages[0] {
        case Happens(e) => CoherentStep(t, e);
        case CodeRuns(m, n) => CachedRunIsCurrent(env, t, m, n);
      }
      SessionCoherent(env, AfterStage(env, t, stages[0]), stages[1..]);
    }
  }

  /**
   * From power-on, after any mix of runs, DMA and outside writes, compare passes and run starts: the next run
   * through the cache is the run of the words then in memory, and on a clean program follows the reference;
   * or two different regions met since power-on share a hash.
   */
  lemma SessionIsCurrent(env: Env, start: Imem, stages: seq<Stage>, m: Machine, cpu: Cpu, n: nat)
    requires SessionAllowed(env, Initial(start), stages) && Settled(AfterSession(env, Initial(start), stages))
    requires EnoughRegisters(env) && Enters(env, m, cpu.regs, cpu.world, cpu.pc, cpu.pending)
    ensures var t := AfterSession(env, Initial(start), stages);
            var c := RunFrom(env, t, m, n);
            || !CollisionFree(c.t.met)
            || (c.x == JitRun(env, t.s.imem, Entered(env, m), n)
                && (Clean(t.s.imem) ==> Matches(env, t.s.imem, c.x, RefRun(env, t.s.imem, cpu, n))))
  {
    var t := AfterSession(env, Initial(start), stages);
    SessionCoherent(env, Initial(start), stages);
    CachedRunIsCurrent(env, t, m, n);
    if Clean(t.s.imem) {
      CachedRunSim(env, t, m, cpu, n);
    }
  }
}
