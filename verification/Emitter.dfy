/**
 * Code generation for instructions without control flow, one template per instruction group, and
 * the proof that each template computes what the reference machine computes.
 */
module Emitter {
  import opened Words
  import opened Dmem
  import opened Isa
  import opened HostCode
  import opened RegCache
  import opened RegCacheProofs

  /** The code emitted so far takes m0 to m, no register is locked, and m stands for rf. */
  predicate Ok(env: Env, g: Gen, m0: Machine, m: Machine, rf: RegFile) {
    && Exec(env, g.ops, m0) == m
    && Good(g.cache, m, multiset{}, rf)
    && env.callerSaved == g.cache.callerSaved
  }

  /** Emitting the operation that fills a reserved register. */
  lemma WriteSim(env: Env, g: Gen, op: Op, m0: Machine, m: Machine, held: multiset<nat>, rf: RegFile, k: nat, v: Host)
    requires Exec(env, g.ops, m0) == m && Sound(g.cache)
    requires Reserved(g.cache.entries, m, rf, k) && Held(g.cache.entries, held)
    requires ExecOp(env, op, m) == Poke(m, Where(g.cache.entries, k), v)
    requires k == COND ==> HasExt(SExt, v)
    ensures var h := Where(g.cache.entries, k);
            && Exec(env, Emit(g, op).ops, m0) == Poke(m, h, v)
            && Good(g.cache, Poke(m, h, v), held, Set(rf, k, v.lo))
  {
    var h := Where(g.cache.entries, k);
    RunOne(env, g.ops, op, m0, m, Poke(m, h, v));
    assert Poke(m, h, v).host == m.host[h := v];
  }

  /** The same for the only register held, which is released. */
  lemma WriteOnly(env: Env, g: Gen, op: Op, m0: Machine, m: Machine, rf: RegFile, k: nat, v: Host) returns (m': Machine, g': Gen)
    requires Exec(env, g.ops, m0) == m && Sound(g.cache) && env.callerSaved == g.cache.callerSaved
    requires Reserved(g.cache.entries, m, rf, k) && Held(g.cache.entries, multiset{k})
    requires ExecOp(env, op, m) == Poke(m, Where(g.cache.entries, k), v)
    requires k == COND ==> HasExt(SExt, v)
    ensures g' == UnlockReg(Emit(g, op), k) && m' == Poke(m, Where(g.cache.entries, k), v)
    ensures Ok(env, g', m0, m', Set(rf, k, v.lo))
  {
    m' := Poke(m, Where(g.cache.entries, k), v);
    WriteSim(env, g, op, m0, m, multiset{k}, rf, k, v);
    UnlockMeaning(Emit(g, op), m', multiset{k}, Set(rf, k, v.lo), k);
    g' := UnlockReg(Emit(g, op), k);
  }

  // ----- register templates -----

  /** rd := op(rs, imm) */
  function EmitUnary(g: Gen, op: AluOp, ext: Ext, d: nat, s: nat, imm: Host): Gen {
    var g1 := LoadReg(g, s, ext);
    var g2 := ModifyReg(g1, d);
    var hs, hd := Where(g1.cache.entries, s), Where(g2.cache.entries, d);
    UnlockReg(UnlockReg(Emit(g2, ComputeI(op, hd, hs, imm)), s), d)
  }

  /** rd := op(rs, rt) */
  function EmitBinary(g: Gen, op: AluOp, ext: Ext, d: nat, a: nat, b: nat): Gen {
    var g1 := LoadReg(g, a, ext);
    var g2 := LoadReg(g1, b, ext);
    var g3 := ModifyReg(g2, d);
    var ha, hb, hd := Where(g1.cache.entries, a), Where(g2.cache.entries, b), Where(g3.cache.entries, d);
    UnlockReg(UnlockReg(UnlockReg(Emit(g3, Compute(op, hd, ha, hb)), a), b), d)
  }

  lemma UnaryValue(env: Env, m: Machine, op: AluOp, ext: Ext, d: nat, s: nat, imm: Host) returns (v: Host)
    requires s < |m.host| && Suits(op, ext) && HasExt(ext, m.host[s])
    requires if IsShift(op) then imm.lo < 32 else HasExt(ext, imm)
    ensures ExecOp(env, ComputeI(op, d, s, imm), m) == Poke(m, d, v)
    ensures v.lo == Alu32(op, m.host[s].lo, imm.lo)
    ensures IsCompare(op) ==> HasExt(SExt, v)
  {
    v := Alu64(op, m.host[s], imm);
    AluRefines(op, ext, m.host[s], imm);
  }

  lemma BinaryValue(env: Env, m: Machine, op: AluOp, ext: Ext, d: nat, a: nat, b: nat) returns (v: Host)
    requires a < |m.host| && b < |m.host| && Suits(op, ext) && HasExt(ext, m.host[a])
    requires if IsShift(op) then m.host[b].lo < 32 else HasExt(ext, m.host[b])
    ensures ExecOp(env, Compute(op, d, a, b), m) == Poke(m, d, v)
    ensures v.lo == Alu32(op, m.host[a].lo, m.host[b].lo)
    ensures IsCompare(op) ==> HasExt(SExt, v)
  {
    v := Alu64(op, m.host[a], m.host[b]);
    AluRefines(op, ext, m.host[a], m.host[b]);
  }

  // ----- sources loaded, destination reserved -----

  /** One source in hs, a register reserved for d. */
  ghost predicate ReadyOne(env: Env, g: Gen, m0: Machine, m: Machine, rf: RegFile, s: nat, ext: Ext, d: nat, hs: nat)
    requires s < SR_WORDS
  {
    && Exec(env, g.ops, m0) == m && Sound(g.cache) && env.callerSaved == g.cache.callerSaved
    && Reserved(g.cache.entries, m, rf, d)
    && Held(g.cache.entries, multiset{s} + multiset{d})
    && hs < |m.host| && m.host[hs].lo == rf[s] && HasExt(ext, m.host[hs])
  }

  lemma PrepareOne(env: Env, g: Gen, m0: Machine, m: Machine, rf: RegFile, s: nat, ext: Ext, d: nat) returns (m': Machine)
    requires Ok(env, g, m0, m, rf) && 0 < d <= SCRATCH1 && s < COND
    ensures var g1 := LoadReg(g, s, ext);
            ReadyOne(env, ModifyReg(g1, d), m0, m', rf, s, ext, d, Where(g1.cache.entries, s))
    ensures SameOutside(m, m')
  {
    var m1 := LoadSim(env, g, m0, m, multiset{}, rf, s, ext);
    m' := ModifySim(env, LoadReg(g, s, ext), m0, m1, multiset{s}, rf, d);
  }

  /** Two sources in ha and hb, a register reserved for d. */
  ghost predicate ReadyTwo(env: Env, g: Gen, m0: Machine, m: Machine, rf: RegFile, a: nat, b: nat, extA: Ext, extB: Ext,
                           d: nat, ha: nat, hb: nat)
    requires a < SR_WORDS && b < SR_WORDS
  {
    && Exec(env, g.ops, m0) == m && Sound(g.cache) && env.callerSaved == g.cache.callerSaved
    && Reserved(g.cache.entries, m, rf, d)
    && Held(g.cache.entries, multiset{a} + multiset{b} + multiset{d})
    && ha < |m.host| && m.host[ha].lo == rf[a] && HasExt(extA, m.host[ha])
    && hb < |m.host| && m.host[hb].lo == rf[b] && HasExt(extB, m.host[hb])
    && Where(g.cache.entries, a) == ha && Where(g.cache.entries, b) == hb
    && (a != d ==> ha != Where(g.cache.entries, d)) && (b != d ==> hb != Where(g.cache.entries, d))
  }

  lemma PrepareTwo(env: Env, g: Gen, m0: Machine, m: Machine, rf: RegFile, a: nat, b: nat, extA: Ext, extB: Ext, d: nat)
    returns (m': Machine)
    requires Ok(env, g, m0, m, rf) && a < COND && b < COND && (extB == extA || extB.NoExt?) && 0 < d <= SCRATCH1
    ensures var g1 := LoadReg(g, a, extA);
            var g2 := LoadReg(g1, b, extB);
            ReadyTwo(env, ModifyReg(g2, d), m0, m', rf, a, b, extA, extB, d,
                     Where(g1.cache.entries, a), Where(g2.cache.entries, b))
    ensures SameOutside(m, m')
  {
    var m2 := LoadTwo(env, g, m0, m, rf, a, b, extA, extB);
    var g2 := LoadReg(LoadReg(g, a, extA), b, extB);
    var held := multiset{a} + multiset{b};
    m' := ModifySim(env, g2, m0, m2, held, rf, d);
    assert a in held && b in held;
  }

  lemma UnarySim(env: Env, g: Gen, m0: Machine, m: Machine, rf: RegFile, op: AluOp, ext: Ext, d: nat, s: nat, imm: Host)
    returns (m': Machine)
    requires Ok(env, g, m0, m, rf) && 0 < d <= COND && s < COND && Suits(op, ext)
    requires if IsShift(op) then imm.lo < 32 else HasExt(ext, imm)
    requires d == COND ==> IsCompare(op)
    ensures Ok(env, EmitUnary(g, op, ext, d, s, imm), m0, m', Set(rf, d, Alu32(op, rf[s], imm.lo)))
    ensures SameOutside(m, m')
  {
    var g1 := LoadReg(g, s, ext);
    var m2 := PrepareOne(env, g, m0, m, rf, s, ext, d);
    m' := UnaryCore(env, ModifyReg(g1, d), m0, m2, rf, op, ext, d, s, imm, Where(g1.cache.entries, s));
  }

  lemma UnaryCore(env: Env, g: Gen, m0: Machine, m: Machine, rf: RegFile, op: AluOp, ext: Ext, d: nat, s: nat, imm: Host,
                  hs: nat)
    returns (m': Machine)
    requires 0 < d <= COND && s < COND && Suits(op, ext)
    requires ReadyOne(env, g, m0, m, rf, s, ext, d, hs)
    requires if IsShift(op) then imm.lo < 32 else HasExt(ext, imm)
    requires d == COND ==> IsCompare(op)
    ensures var g' := Emit(g, ComputeI(op, Where(g.cache.entries, d), hs, imm));
            Ok(env, UnlockReg(UnlockReg(g', s), d), m0, m', Set(rf, d, Alu32(op, rf[s], imm.lo)))
    ensures SameOutside(m, m')
  {
    var hd := Where(g.cache.entries, d);
    var v := UnaryValue(env, m, op, ext, hd, hs, imm);
    m' := Poke(m, hd, v);
    WriteSim(env, g, ComputeI(op, hd, hs, imm), m0, m, multiset{s} + multiset{d}, rf, d, v);
    ReleaseTwo(Emit(g, ComputeI(op, hd, hs, imm)), m', Set(rf, d, v.lo), s, d);
  }

  lemma BinarySim(env: Env, g: Gen, m0: Machine, m: Machine, rf: RegFile, op: AluOp, ext: Ext, d: nat, a: nat, b: nat)
    returns (m': Machine)
    requires Ok(env, g, m0, m, rf) && 0 < d <= COND && a < COND && b < COND && Suits(op, ext) && !IsShift(op)
    requires d == COND ==> IsCompare(op)
    ensures Ok(env, EmitBinary(g, op, ext, d, a, b), m0, m', Set(rf, d, Alu32(op, rf[a], rf[b])))
    ensures SameOutside(m, m')
  {
    var g1 := LoadReg(g, a, ext);
    var g2 := LoadReg(g1, b, ext);
    var m3 := PrepareTwo(env, g, m0, m, rf, a, b, ext, ext, d);
    m' := BinaryCore(env, ModifyReg(g2, d), m0, m3, rf, op, ext, d, a, b,
                     Where(g1.cache.entries, a), Where(g2.cache.entries, b));
  }

  lemma BinaryCore(env: Env, g: Gen, m0: Machine, m: Machine, rf: RegFile, op: AluOp, ext: Ext, d: nat, a: nat, b: nat,
                   ha: nat, hb: nat)
    returns (m': Machine)
    requires 0 < d <= COND && a < COND && b < COND && Suits(op, ext) && !IsShift(op)
    requires ReadyTwo(env, g, m0, m, rf, a, b, ext, ext, d, ha, hb)
    requires d == COND ==> IsCompare(op)
    ensures var g' := Emit(g, Compute(op, Where(g.cache.entries, d), ha, hb));
            Ok(env, UnlockReg(UnlockReg(UnlockReg(g', a), b), d), m0, m', Set(rf, d, Alu32(op, rf[a], rf[b])))
    ensures SameOutside(m, m')
  {
    var hd := Where(g.cache.entries, d);
    var v := BinaryValue(env, m, op, ext, hd, ha, hb);
    m' := Poke(m, hd, v);
    WriteSim(env, g, Compute(op, hd, ha, hb), m0, m, multiset{a} + multiset{b} + multiset{d}, rf, d, v);
    ReleaseThree(Emit(g, Compute(op, hd, ha, hb)), m', Set(rf, d, v.lo), a, b, d);
  }

  /** Two loads in a row leave both values in place, whichever registers they are. */
  lemma LoadTwo(env: Env, g: Gen, m0: Machine, m: Machine, rf: RegFile, a: nat, b: nat, extA: Ext, extB: Ext)
    returns (m2: Machine)
    requires Ok(env, g, m0, m, rf) && a < COND && b < COND && (extB == extA || extB.NoExt?)
    ensures var g1 := LoadReg(g, a, extA);
            var g2 := LoadReg(g1, b, extB);
            var ha, hb := Where(g1.cache.entries, a), Where(g2.cache.entries, b);
            && Exec(env, g2.ops, m0) == m2 && Good(g2.cache, m2, multiset{a} + multiset{b}, rf)
            && g2.cache.callerSaved == g.cache.callerSaved && SameOutside(m, m2)
            && Where(g2.cache.entries, a) == ha < |m2.host| && hb < |m2.host|
            && m2.host[ha].lo == rf[a] && HasExt(extA, m2.host[ha])
            && m2.host[hb].lo == rf[b] && HasExt(extB, m2.host[hb])
  {
    var m1 := LoadSim(env, g, m0, m, multiset{}, rf, a, extA);
    var g1 := LoadReg(g, a, extA);
    m2 := LoadSim(env, g1, m0, m1, multiset{a}, rf, b, extB);
    assert a in multiset{a};
  }

  lemma ReleaseTwo(g: Gen, m: Machine, rf: RegFile, a: nat, d: nat)
    requires Good(g.cache, m, multiset{a} + multiset{d}, rf)
    ensures var g' := UnlockReg(UnlockReg(g, a), d);
            Good(g'.cache, m, multiset{}, rf) && g'.ops == g.ops && g'.cache.callerSaved == g.cache.callerSaved
  {
    var held := multiset{a} + multiset{d};
    UnlockMeaning(g, m, held, rf, a);
    assert held - multiset{a} == multiset{d};
    UnlockMeaning(UnlockReg(g, a), m, multiset{d}, rf, d);
  }

  lemma ReleaseThree(g: Gen, m: Machine, rf: RegFile, a: nat, b: nat, d: nat)
    requires Good(g.cache, m, multiset{a} + multiset{b} + multiset{d}, rf)
    ensures var g' := UnlockReg(UnlockReg(UnlockReg(g, a), b), d);
            Good(g'.cache, m, multiset{}, rf) && g'.ops == g.ops && g'.cache.callerSaved == g.cache.callerSaved
  {
    var held := multiset{a} + multiset{b} + multiset{d};
    UnlockMeaning(g, m, held, rf, a);
    assert held - multiset{a} == multiset{b} + multiset{d};
    var g1 := UnlockReg(g, a);
    UnlockMeaning(g1, m, multiset{b} + multiset{d}, rf, b);
    assert multiset{b} + multiset{d} - multiset{b} == multiset{d};
    UnlockMeaning(UnlockReg(g1, b), m, multiset{d}, rf, d);
  }

  /** rd := op(rt, rs & 31) */
  function EmitShiftReg(g: Gen, op: AluOp, ext: Ext, rd: nat, rt: nat, rs: nat): Gen {
    var g1 := LoadReg(g, rt, ext);
    var g2 := LoadReg(g1, rs, NoExt);
    var g3 := ModifyReg(g2, SCRATCH0);
    var ht, hs, hx := Where(g1.cache.entries, rt), Where(g2.cache.entries, rs), Where(g3.cache.entries, SCRATCH0);
    var g4 := UnlockReg(Emit(g3, Mask(hx, hs, 32)), rs);
    var g5 := ModifyReg(g4, rd);
    var hd := Where(g5.cache.entries, rd);
    UnlockReg(UnlockReg(UnlockReg(Emit(g5, Compute(op, hd, ht, hx)), rt), rd), SCRATCH0)
  }

  lemma ShiftRegSim(env: Env, g: Gen, m0: Machine, m: Machine, rf: RegFile, op: AluOp, ext: Ext, rd: nat, rt: nat, rs: nat)
    returns (m': Machine)
    requires Ok(env, g, m0, m, rf) && 0 < rd < COND && rt < COND && rs < COND && IsShift(op) && Suits(op, ext)
    ensures Ok(env, EmitShiftReg(g, op, ext, rd, rt, rs), m0, m', Set(rf, rd, Alu32(op, rf[rt], rf[rs] % 32)))
    ensures SameOutside(m, m')
  {
    var g1 := LoadReg(g, rt, ext);
    var g2 := LoadReg(g1, rs, NoExt);
    var m3 := PrepareTwo(env, g, m0, m, rf, rt, rs, ext, NoExt, SCRATCH0);
    m' := ShiftRegCore(env, ModifyReg(g2, SCRATCH0), m0, m3, rf, op, ext, rd, rt, rs,
                       Where(g1.cache.entries, rt), Where(g2.cache.entries, rs));
  }

  lemma ShiftRegCore(env: Env, g: Gen, m0: Machine, m: Machine, rf: RegFile, op: AluOp, ext: Ext, rd: nat, rt: nat, rs: nat,
                     ht: nat, hs: nat)
    returns (m': Machine)
    requires 0 < rd < COND && rt < COND && rs < COND && IsShift(op) && Suits(op, ext)
    requires ReadyTwo(env, g, m0, m, rf, rt, rs, ext, NoExt, SCRATCH0, ht, hs)
    ensures var hx := Where(g.cache.entries, SCRATCH0);
            var g5 := ModifyReg(UnlockReg(Emit(g, Mask(hx, hs, 32)), rs), rd);
            var g6 := Emit(g5, Compute(op, Where(g5.cache.entries, rd), ht, hx));
            Ok(env, UnlockReg(UnlockReg(UnlockReg(g6, rt), rd), SCRATCH0), m0, m', Set(rf, rd, Alu32(op, rf[rt], rf[rs] % 32)))
    ensures SameOutside(m, m')
  {
    var hx := Where(g.cache.entries, SCRATCH0);
    var m4 := MaskAmount(env, g, m0, m, rf, ext, rt, rs, ht, hs, hx);
    m' := ShiftByCore(env, UnlockReg(Emit(g, Mask(hx, hs, 32)), rs), m0, m4, rf, op, ext, rd, rt, ht, hx, rf[rs] % 32);
  }

  /** The low five bits of rs are in the scratch register hx, and rs is released. */
  lemma MaskAmount(env: Env, g: Gen, m0: Machine, m: Machine, rf: RegFile, ext: Ext, rt: nat, rs: nat, ht: nat, hs: nat, hx: nat)
    returns (m': Machine)
    requires rt < COND && rs < COND && ReadyTwo(env, g, m0, m, rf, rt, rs, ext, NoExt, SCRATCH0, ht, hs)
    requires hx == Where(g.cache.entries, SCRATCH0)
    ensures var g' := UnlockReg(Emit(g, Mask(hx, hs, 32)), rs);
            && Exec(env, g'.ops, m0) == m' && env.callerSaved == g'.cache.callerSaved
            && Good(g'.cache, m', multiset{rt} + multiset{SCRATCH0}, rf)
    ensures SameOutside(m, m') && ht < |m'.host| && hx < |m'.host|
    ensures m'.host[ht].lo == rf[rt] && HasExt(ext, m'.host[ht]) && m'.host[hx].lo == rf[rs] % 32
  {
    m' := MaskWrite(env, g, m0, m, rf, ext, rt, rs, ht, hs, hx);
    ReleaseMiddle(Emit(g, Mask(hx, hs, 32)), m', rf, rt, rs, SCRATCH0);
  }

  lemma MaskWrite(env: Env, g: Gen, m0: Machine, m: Machine, rf: RegFile, ext: Ext, rt: nat, rs: nat, ht: nat, hs: nat, hx: nat)
    returns (m': Machine)
    requires rt < COND && rs < COND && ReadyTwo(env, g, m0, m, rf, rt, rs, ext, NoExt, SCRATCH0, ht, hs)
    requires hx == Where(g.cache.entries, SCRATCH0)
    ensures Exec(env, Emit(g, Mask(hx, hs, 32)).ops, m0) == m' && env.callerSaved == g.cache.callerSaved
    ensures Good(g.cache, m', multiset{rt} + multiset{rs} + multiset{SCRATCH0}, rf)
    ensures SameOutside(m, m') && ht < |m'.host| && hx < |m'.host|
    ensures m'.host[ht].lo == rf[rt] && HasExt(ext, m'.host[ht]) && m'.host[hx].lo == rf[rs] % 32
  {
    var v := ZeroExt(rf[rs] % 32);
    m' := Poke(m, hx, v);
    WriteSim(env, g, Mask(hx, hs, 32), m0, m, multiset{rt} + multiset{rs} + multiset{SCRATCH0}, rf, SCRATCH0, v);
  }

  lemma ReleaseMiddle(g: Gen, m: Machine, rf: RegFile, a: nat, b: nat, d: nat)
    requires Good(g.cache, m, multiset{a} + multiset{b} + multiset{d}, rf)
    ensures var g' := UnlockReg(g, b);
            Good(g'.cache, m, multiset{a} + multiset{d}, rf) && g'.ops == g.ops && g'.cache.callerSaved == g.cache.callerSaved
  {
    var held := multiset{a} + multiset{b} + multiset{d};
    UnlockMeaning(g, m, held, rf, b);
    assert held - multiset{b} == multiset{a} + multiset{d};
  }

  lemma ShiftByCore(env: Env, g: Gen, m0: Machine, m: Machine, rf: RegFile, op: AluOp, ext: Ext, rd: nat, rt: nat,
                    ht: nat, hx: nat, amount: Word)
    returns (m': Machine)
    requires 0 < rd < COND && rt < COND && IsShift(op) && Suits(op, ext) && amount < 32
    requires Exec(env, g.ops, m0) == m && env.callerSaved == g.cache.callerSaved
    requires Good(g.cache, m, multiset{rt} + multiset{SCRATCH0}, rf)
    requires ht < |m.host| && hx < |m.host|
    requires m.host[ht].lo == rf[rt] && HasExt(ext, m.host[ht]) && m.host[hx].lo == amount
    ensures var g5 := ModifyReg(g, rd);
            var g6 := Emit(g5, Compute(op, Where(g5.cache.entries, rd), ht, hx));
            Ok(env, UnlockReg(UnlockReg(UnlockReg(g6, rt), rd), SCRATCH0), m0, m', Set(rf, rd, Alu32(op, rf[rt], amount)))
    ensures SameOutside(m, m')
  {
    var held := multiset{rt} + multiset{SCRATCH0};
    var m5 := ModifySim(env, g, m0, m, held, rf, rd);
    var g5 := ModifyReg(g, rd);
    var hd := Where(g5.cache.entries, rd);
    var v := BinaryValue(env, m5, op, ext, hd, ht, hx);
    m' := Poke(m5, hd, v);
    WriteSim(env, g5, Compute(op, hd, ht, hx), m0, m5, held + multiset{rd}, rf, rd, v);
    assert held + multiset{rd} == multiset{rt} + multiset{rd} + multiset{SCRATCH0};
    ReleaseThree(Emit(g5, Compute(op, hd, ht, hx)), m', Set(rf, rd, v.lo), rt, rd, SCRATCH0);
  }

  /** rd := ~(rt | rs) */
  function EmitNor(g: Gen, rd: nat, rs: nat, rt: nat): Gen {
    var g1 := LoadReg(g, rt, NoExt);
    var g2 := LoadReg(g1, rs, NoExt);
    var g3 := ModifyReg(g2, rd);
    var ht, hs, hd := Where(g1.cache.entries, rt), Where(g2.cache.entries, rs), Where(g3.cache.entries, rd);
    UnlockReg(UnlockReg(UnlockReg(Emit(Emit(g3, Compute(Or, hd, ht, hs)), Complement(hd)), rt), rs), rd)
  }

  lemma NorSim(env: Env, g: Gen, m0: Machine, m: Machine, rf: RegFile, rd: nat, rs: nat, rt: nat)
    returns (m': Machine)
    requires Ok(env, g, m0, m, rf) && 0 < rd < COND && rt < COND && rs < COND
    ensures Ok(env, EmitNor(g, rd, rs, rt), m0, m', Set(rf, rd, W - 1 - Alu32(Or, rf[rt], rf[rs])))
    ensures SameOutside(m, m')
  {
    var g1 := LoadReg(g, rt, NoExt);
    var g2 := LoadReg(g1, rs, NoExt);
    var m3 := PrepareTwo(env, g, m0, m, rf, rt, rs, NoExt, NoExt, rd);
    m' := NorCore(env, ModifyReg(g2, rd), m0, m3, rf, rd, rs, rt, Where(g1.cache.entries, rt), Where(g2.cache.entries, rs));
  }

  lemma NorCore(env: Env, g: Gen, m0: Machine, m: Machine, rf: RegFile, rd: nat, rs: nat, rt: nat, ht: nat, hs: nat)
    returns (m': Machine)
    requires 0 < rd < COND && rt < COND && rs < COND
    requires ReadyTwo(env, g, m0, m, rf, rt, rs, NoExt, NoExt, rd, ht, hs)
    ensures var hd := Where(g.cache.entries, rd);
            var g' := Emit(Emit(g, Compute(Or, hd, ht, hs)), Complement(hd));
            Ok(env, UnlockReg(UnlockReg(UnlockReg(g', rt), rs), rd), m0, m', Set(rf, rd, W - 1 - Alu32(Or, rf[rt], rf[rs])))
    ensures SameOutside(m, m')
  {
    var hd := Where(g.cache.entries, rd);
    var v := NorValue(env, g.ops, m0, m, hd, ht, hs);
    m' := Poke(m, hd, v);
    assert m'.host == m.host[hd := v];
    ReleaseThree(Emit(Emit(g, Compute(Or, hd, ht, hs)), Complement(hd)), m', Set(rf, rd, v.lo), rt, rs, rd);
  }

  lemma NorValue(env: Env, ops: seq<Op>, m0: Machine, m: Machine, d: nat, a: nat, b: nat) returns (v: Host)
    requires Exec(env, ops, m0) == m && a < |m.host| && b < |m.host| && d < |m.host|
    ensures Exec(env, ops + [Compute(Or, d, a, b)] + [Complement(d)], m0) == Poke(m, d, v)
    ensures v.lo == W - 1 - Alu32(Or, m.host[a].lo, m.host[b].lo)
  {
    var x := BinaryValue(env, m, Or, NoExt, d, a, b);
    v := Complemented(env, m, d, x);
    RunTwo(env, ops, Compute(Or, d, a, b), Complement(d), m0, m, Poke(m, d, x), Poke(m, d, v));
  }

  lemma Complemented(env: Env, m: Machine, d: nat, x: Host) returns (v: Host)
    requires d < |m.host|
    ensures ExecOp(env, Complement(d), Poke(m, d, x)) == Poke(m, d, v) && v.lo == W - 1 - x.lo
  {
    v := Host(W - 1 - x.hi, W - 1 - x.lo);
    assert Poke(Poke(m, d, x), d, v) == Poke(m, d, v);
  }

  lemma RunTwo(env: Env, ops: seq<Op>, op1: Op, op2: Op, m0: Machine, m: Machine, m1: Machine, m2: Machine)
    requires Exec(env, ops, m0) == m && ExecOp(env, op1, m) == m1 && ExecOp(env, op2, m1) == m2
    ensures Exec(env, ops + [op1] + [op2], m0) == m2
  {
    RunOne(env, ops, op1, m0, m, m1);
    RunOne(env, ops + [op1], op2, m0, m1, m2);
  }

  /** rd := constant */
  function EmitConstant(g: Gen, rd: nat, v: Word): Gen { UnlockReg(ImmediateReg(g, rd, SignExt(v)), rd) }

  lemma ConstantSim(env: Env, g: Gen, m0: Machine, m: Machine, rf: RegFile, rd: nat, v: Word) returns (m': Machine)
    requires Ok(env, g, m0, m, rf) && 0 < rd <= COND
    ensures Ok(env, EmitConstant(g, rd, v), m0, m', Set(rf, rd, v)) && SameOutside(m, m')
  {
    m' := ImmediateSim(env, g, m0, m, multiset{}, rf, rd, SignExt(v));
    UnlockMeaning(ImmediateReg(g, rd, SignExt(v)), m', multiset{rd}, Set(rf, rd, v), rd);
  }
}
