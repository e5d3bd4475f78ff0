/**
 * Any sequence of register-cache calls: the emitted code and the cache together stand for a plain
 * register file that loads read and writes update, and a full flush puts that file into memory.
 */
module CacheRuns {
  import opened Words
  import opened Isa
  import opened HostCode
  import opened RegCache
  import opened RegCacheProofs
  import opened Emitter

  datatype Call =
    | Fetch(k: nat, ext: Ext)            // load_mips_register_*
    | Assign(k: nat, v: Host)            // modify_mips_register, and code that computes v into it
    | Constant(k: nat, w: Word)          // immediate_mips_register
    | Release(k: nat)                    // unlock_mips_register
    | Spill                              // flush_register_window
    | SpillCallerSaved                   // flush_caller_save_registers
    | SpillOne(k: nat)                   // flush_mips_register

  /** The code generator, the register file it stands for, and the locks taken. */
  datatype State = State(g: Gen, rf: RegFile, held: multiset<nat>)

  /** What the callers keep to: at most three locks at a time, released before a flush; register 0 is never written. */
  predicate Legal(s: State, call: Call) {
    match call
    case Fetch(k, ext) => |s.held| <= 2 && k <= COND && (k == COND ==> ext.NoExt?)
    case Assign(k, v) => |s.held| <= 2 && 0 < k <= SCRATCH1 && (k == COND ==> HasExt(SExt, v))
    case Constant(k, _) => |s.held| <= 2 && 0 < k <= COND
    case Release(k) => k in s.held
    case Spill => s.held == multiset{}
    case SpillCallerSaved => s.held == multiset{}
    case SpillOne(_) => s.held == multiset{}
  }

  function AssignCode(g: Gen, k: nat, v: Host): Gen {
    var g1 := ModifyReg(g, k);
    Emit(g1, MovI(Where(g1.cache.entries, k), v))
  }

  function After(s: State, call: Call): State {
    match call
    case Fetch(k, ext) => State(LoadReg(s.g, k, ext), s.rf, s.held + multiset{k})
    case Assign(k, v) => State(AssignCode(s.g, k, v), Set(s.rf, k, v.lo), s.held + multiset{k})
    case Constant(k, v) => State(ImmediateReg(s.g, k, SignExt(v)), Set(s.rf, k, v), s.held + multiset{k})
    case Release(k) => State(UnlockReg(s.g, k), s.rf, s.held - multiset{k})
    case Spill => State(FlushAll(s.g), s.rf, s.held)
    case SpillCallerSaved => State(FlushCallerSaved(s.g), s.rf, s.held)
    case SpillOne(k) => State(FlushOne(s.g, k), s.rf, s.held)
  }

  /** The code emitted so far, run from m0, leaves the machine m that the cache describes. */
  ghost predicate Faithful(env: Env, s: State, m0: Machine, m: Machine) {
    Exec(env, s.g.ops, m0) == m && Good(s.g.cache, m, s.held, s.rf)
  }

  /** Locked registers stay where they are; the one a call is about may change its value, the others keep theirs. */
  predicate LocksKept(s: State, s': State, m: Machine, m': Machine, call: Call) {
    forall x :: x in s.held ==>
      var h := Where(s.g.cache.entries, x);
      && Where(s'.g.cache.entries, x) == h && h < |m.host| && h < |m'.host|
      && (!About(call, x) ==> m'.host[h] == m.host[h])
  }

  /** The call brings in, converts or writes register x. */
  predicate About(call: Call, x: nat) { (call.Fetch? || call.Assign? || call.Constant?) && call.k == x }

  lemma FetchStep(env: Env, s: State, m0: Machine, m: Machine, k: nat, ext: Ext) returns (m': Machine)
    requires Faithful(env, s, m0, m) && Legal(s, Fetch(k, ext))
    ensures Faithful(env, After(s, Fetch(k, ext)), m0, m') && LocksKept(s, After(s, Fetch(k, ext)), m, m', Fetch(k, ext))
    ensures var h := Where(After(s, Fetch(k, ext)).g.cache.entries, k);
            h < |m'.host| && m'.host[h].lo == s.rf[k] && HasExt(ext, m'.host[h])
  {
    m' := LoadSim(env, s.g, m0, m, s.held, s.rf, k, ext);
  }

  lemma AssignStep(env: Env, s: State, m0: Machine, m: Machine, k: nat, v: Host) returns (m': Machine)
    requires Faithful(env, s, m0, m) && Legal(s, Assign(k, v))
    ensures Faithful(env, After(s, Assign(k, v)), m0, m') && LocksKept(s, After(s, Assign(k, v)), m, m', Assign(k, v))
  {
    var m1 := ModifySim(env, s.g, m0, m, s.held, s.rf, k);
    var g1 := ModifyReg(s.g, k);
    var h := Where(g1.cache.entries, k);
    WriteSim(env, g1, MovI(h, v), m0, m1, s.held + multiset{k}, s.rf, k, v);
    m' := Poke(m1, h, v);
  }

  lemma ConstantStep(env: Env, s: State, m0: Machine, m: Machine, k: nat, v: Word) returns (m': Machine)
    requires Faithful(env, s, m0, m) && Legal(s, Constant(k, v))
    ensures Faithful(env, After(s, Constant(k, v)), m0, m') && LocksKept(s, After(s, Constant(k, v)), m, m', Constant(k, v))
  {
    m' := ImmediateSim(env, s.g, m0, m, s.held, s.rf, k, SignExt(v));
    ImmediatePlaces(env, s.g, m0, m, s.held, s.rf, k, SignExt(v), m');
  }

  /** Every legal call keeps the cache faithful, evicts no locked register and fails no assertion of the allocator. */
  lemma CallStep(env: Env, s: State, m0: Machine, m: Machine, call: Call) returns (m': Machine)
    requires Faithful(env, s, m0, m) && Legal(s, call)
    ensures Faithful(env, After(s, call), m0, m') && LocksKept(s, After(s, call), m, m', call)
  {
    match call
    case Fetch(k, ext) => m' := FetchStep(env, s, m0, m, k, ext);
    case Assign(k, v) => m' := AssignStep(env, s, m0, m, k, v);
    case Constant(k, v) => m' := ConstantStep(env, s, m0, m, k, v);
    case Release(k) =>
      m' := m;
      UnlockMeaning(s.g, m, s.held, s.rf, k);
    case Spill => m' := FlushAllSim(env, s.g, m0, m, s.rf);
    case SpillCallerSaved => m' := FlushCallerSavedSim(env, s.g, m0, m, s.rf);
    case SpillOne(k) => m' := FlushOneSim(env, s.g, m0, m, s.rf, k);
  }

  // ----- sequences of calls -----

  predicate AllLegal(s: State, calls: seq<Call>)
    decreases |calls|
  {
    calls == [] || (Legal(s, calls[0]) && AllLegal(After(s, calls[0]), calls[1..]))
  }

  function AfterAll(s: State, calls: seq<Call>): State
    decreases |calls|
  {
    if calls == [] then s else AfterAll(After(s, calls[0]), calls[1..])
  }

  lemma {:induction false} CallsStep(env: Env, s: State, m0: Machine, m: Machine, calls: seq<Call>) returns (m': Machine)
    requires Faithful(env, s, m0, m) && AllLegal(s, calls)
    ensures Faithful(env, AfterAll(s, calls), m0, m')
    decreases |calls|
  {
    m' := m;
    if calls != [] {
      var m1 := CallStep(env, s, m0, m, calls[0]);
      m' := CallsStep(env, After(s, calls[0]), m0, m1, calls[1..]);
    }
  }

  function Fresh(registers: nat, callerSaved: nat, rf: RegFile): State {
    State(Gen(Cache(seq(registers, _ => EMPTY), 0, callerSaved, true), []), rf, multiset{})
  }

  /**
   * From an empty cache, after any legal calls: no register has two entries, entries that are not
   * modified agree with memory, extensions are truthful, the allocator never failed, and once all
   * locks are released a full flush leaves exactly the plain register file in memory.
   */
  lemma CacheRefinesFile(env: Env, m: Machine, calls: seq<Call>, callerSaved: nat) returns (m': Machine)
    requires 3 <= callerSaved <= |m.host| && m.sr[0] == 0 && AllLegal(Fresh(|m.host|, callerSaved, m.sr), calls)
    ensures var s := AfterAll(Fresh(|m.host|, callerSaved, m.sr), calls);
            && Exec(env, s.g.ops, m) == m' && s.g.cache.ok
            && Represents(s.g.cache.entries, m'.host, m'.sr, s.rf) && Held(s.g.cache.entries, s.held)
            && (s.held == multiset{} ==> Exec(env, FlushAll(s.g).ops, m) == m'.(sr := s.rf))
  {
    var s0 := Fresh(|m.host|, callerSaved, m.sr);
    DeadRepresents(s0.g.cache, m);
    m' := CallsStep(env, s0, m, m, calls);
    var s := AfterAll(s0, calls);
    if s.held == multiset{} {
      var m1 := FlushAllSim(env, s.g, m, m', s.rf);
    }
  }
}
