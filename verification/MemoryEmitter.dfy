/**
 * Templates that leave the register file: loads and stores with their unaligned helper calls, and
 * calls into the coprocessor handlers.
 */
module MemoryEmitter {
  import opened Words
  import opened Dmem
  import opened Isa
  import opened HostCode
  import opened RegCache
  import opened RegCacheProofs
  import opened Emitter

  // ----- address computation -----

  function AddressOf(base: Word, offset: Word): nat { (base + offset) % W % 4096 }

  lemma AddressValue(env: Env, ops: seq<Op>, m0: Machine, m: Machine, d: nat, s: nat, offset: Word)
    requires Exec(env, ops, m0) == m && s < |m.host| && d < |m.host|
    ensures Exec(env, ops + [ComputeI(Add, d, s, SignExt(offset))] + [Mask(d, d, 4096)], m0)
            == Poke(m, d, ZeroExt(AddressOf(m.host[s].lo, offset)))
  {
    var x := UnaryValue(env, m, Add, NoExt, d, s, SignExt(offset));
    var v := ZeroExt(AddressOf(m.host[s].lo, offset));
    Masked(env, m, d, x, 4096);
    RunTwo(env, ops, ComputeI(Add, d, s, SignExt(offset)), Mask(d, d, 4096), m0, m, Poke(m, d, x), Poke(m, d, v));
  }

  lemma Masked(env: Env, m: Machine, d: nat, x: Host, modulus: nat)
    requires d < |m.host| && modulus > 0
    ensures ExecOp(env, Mask(d, d, modulus), Poke(m, d, x)) == Poke(m, d, ZeroExt(x.lo % modulus))
  {
    assert Poke(Poke(m, d, x), d, ZeroExt(x.lo % modulus)) == Poke(m, d, ZeroExt(x.lo % modulus));
  }

  /** Host registers that hold no MIPS register may change freely. */
  lemma ScratchChange(c: Cache, m: Machine, m': Machine, held: multiset<nat>, rf: RegFile)
    requires Good(c, m, held, rf) && m'.sr == m.sr && |m'.host| == |m.host|
    requires forall j :: 0 <= j < |m.host| ==> m'.host[j] == m.host[j] || !c.entries[j].live || c.entries[j].mips > COND
    ensures Good(c, m', held, rf)
  {
  }

  // ----- the two arms of an access -----

  function LoadArm(access: Access, d: nat, a: nat): seq<Op> { [FlipAddress(a, access), HostLoadOp(access, d, a)] }

  function LoadDiamond(access: Access, d: nat, a: nat): Op {
    IfMisaligned(a, AlignOf(access), [CallFetch(access, d, a)], LoadArm(access, d, a))
  }

  /** Outside the two scratch registers and the caller-saved ones, an access changes no register. */
  predicate OnlyScratch(env: Env, m: Machine, m': Machine, a: nat, d: nat) {
    && |m'.host| == |m.host|
    && forall j :: env.callerSaved <= j < |m.host| && j != a && j != d ==> m'.host[j] == m.host[j]
  }

  lemma LoadArmValue(env: Env, m: Machine, access: Access, d: nat, a: nat, addr: nat) returns (m': Machine)
    requires a < |m.host| && d < |m.host| && a != d && addr < 4096 && m.host[a] == ZeroExt(addr) && Aligned(access, addr)
    ensures Exec(env, LoadArm(access, d, a), m) == m'
    ensures m' == m.(host := m'.host) && |m'.host| == |m.host| && m'.host[d].lo == Fetch(m.world.dmem, access, addr)
    ensures forall j :: 0 <= j < |m.host| && j != a && j != d ==> m'.host[j] == m.host[j]
  {
    AlignedLoad(m.world.dmem, access, addr);
    m' := LoadArmRun(env, m, access, d, a, addr, Flip(access, addr));
  }

  lemma LoadArmRun(env: Env, m: Machine, access: Access, d: nat, a: nat, addr: nat, p: nat) returns (m': Machine)
    requires a < |m.host| && d < |m.host| && a != d && addr < 4096 && m.host[a] == ZeroExt(addr)
    requires p == Flip(access, addr) && p < 4096
    ensures Exec(env, LoadArm(access, d, a), m) == m'
    ensures m' == Poke(Poke(m, a, ZeroExt(p)), d, HostLoad(m.world.dmem, access, p))
  {
    var m1 := Poke(m, a, ZeroExt(p));
    m' := Poke(m1, d, HostLoad(m.world.dmem, access, p));
    RunTwo(env, [], FlipAddress(a, access), HostLoadOp(access, d, a), m, m, m1, m');
    assert [] + [FlipAddress(a, access)] + [HostLoadOp(access, d, a)] == LoadArm(access, d, a);
  }

  lemma CallFetchValue(env: Env, m: Machine, access: Access, d: nat, a: nat, addr: nat) returns (m': Machine)
    requires a < |m.host| && d < |m.host| && addr < 4096 && m.host[a] == ZeroExt(addr)
    ensures Exec(env, [CallFetch(access, d, a)], m) == m'
    ensures m' == m.(host := m'.host) && OnlyScratch(env, m, m', a, d)
    ensures m'.host[d].lo == Fetch(m.world.dmem, access, addr)
  {
    m' := ExecOp(env, CallFetch(access, d, a), m);
    RunOne(env, [], CallFetch(access, d, a), m, m, m');
    assert [] + [CallFetch(access, d, a)] == [CallFetch(access, d, a)];
  }

  /** Either way, the loaded value is the big-endian one. */
  lemma LoadDiamondValue(env: Env, m: Machine, access: Access, d: nat, a: nat, addr: nat) returns (m': Machine)
    requires a < |m.host| && d < |m.host| && a != d && addr < 4096 && m.host[a] == ZeroExt(addr)
    ensures ExecOp(env, LoadDiamond(access, d, a), m) == m'
    ensures m' == m.(host := m'.host) && OnlyScratch(env, m, m', a, d)
    ensures m'.host[d].lo == Fetch(m.world.dmem, access, addr)
  {
    if Aligned(access, addr) {
      m' := LoadArmValue(env, m, access, d, a, addr);
    } else {
      m' := CallFetchValue(env, m, access, d, a, addr);
    }
  }

  function StoreArm(access: Access, a: nat, s: nat): seq<Op> { [FlipAddress(a, access), HostStoreOp(access, a, s)] }

  function StoreDiamond(access: Access, a: nat, s: nat): Op {
    IfMisaligned(a, AlignOf(access), [CallDeposit(access, a, s)], StoreArm(access, a, s))
  }

  function Stored(world: World, access: Access, addr: nat, v: Word): World {
    world.(dmem := Deposit(world.dmem, access, addr, v))
  }

  lemma StoreArmValue(env: Env, m: Machine, access: Access, a: nat, s: nat, addr: nat) returns (m': Machine)
    requires a < |m.host| && s < |m.host| && a != s && addr < 4096 && m.host[a] == ZeroExt(addr) && Aligned(access, addr)
    ensures Exec(env, StoreArm(access, a, s), m) == m'
    ensures m' == m.(host := m'.host, world := Stored(m.world, access, addr, m.host[s].lo)) && |m'.host| == |m.host|
    ensures forall j :: 0 <= j < |m.host| && j != a ==> m'.host[j] == m.host[j]
  {
    AlignedStore(m.world.dmem, access, addr, m.host[s].lo);
    var m1 := Poke(m, a, ZeroExt(Flip(access, addr)));
    m' := m1.(world := Stored(m.world, access, addr, m.host[s].lo));
    RunTwo(env, [], FlipAddress(a, access), HostStoreOp(access, a, s), m, m, m1, m');
    assert [] + [FlipAddress(a, access)] + [HostStoreOp(access, a, s)] == StoreArm(access, a, s);
  }

  lemma CallDepositValue(env: Env, m: Machine, access: Access, a: nat, s: nat, addr: nat) returns (m': Machine)
    requires a < |m.host| && s < |m.host| && addr < 4096 && m.host[a] == ZeroExt(addr)
    ensures Exec(env, [CallDeposit(access, a, s)], m) == m'
    ensures m' == m.(host := m'.host, world := Stored(m.world, access, addr, m.host[s].lo)) && OnlyScratch(env, m, m', a, a)
  {
    m' := ExecOp(env, CallDeposit(access, a, s), m);
    RunOne(env, [], CallDeposit(access, a, s), m, m, m');
    assert [] + [CallDeposit(access, a, s)] == [CallDeposit(access, a, s)];
  }

  lemma StoreDiamondValue(env: Env, m: Machine, access: Access, a: nat, s: nat, addr: nat) returns (m': Machine)
    requires a < |m.host| && s < |m.host| && a != s && addr < 4096 && m.host[a] == ZeroExt(addr)
    ensures ExecOp(env, StoreDiamond(access, a, s), m) == m'
    ensures m' == m.(host := m'.host, world := Stored(m.world, access, addr, m.host[s].lo)) && OnlyScratch(env, m, m', a, a)
  {
    if Aligned(access, addr) {
      m' := StoreArmValue(env, m, access, a, s, addr);
    } else {
      m' := CallDepositValue(env, m, access, a, s, addr);
    }
  }

  // ----- loads -----

  function EmitAddress(g: Gen, d: nat, s: nat, offset: Word): Gen {
    Emit(Emit(g, ComputeI(Add, d, s, SignExt(offset))), Mask(d, d, 4096))
  }

  function EmitArm(g: Gen, arm: seq<Op>): Gen { g.(ops := g.ops + arm) }

  /** Locks are dropped before the diamond, because the call must find the caller-saved registers flushed. */
  function EmitFetch(g: Gen, access: Access, rs: nat, d: nat, a: nat): Gen {
    if AlignOf(access) == 1 then
      UnlockReg(UnlockReg(UnlockReg(EmitArm(g, LoadArm(access, d, a)), rs), SCRATCH0), SCRATCH1)
    else
      Emit(FlushCallerSaved(UnlockReg(UnlockReg(UnlockReg(g, rs), SCRATCH0), SCRATCH1)), LoadDiamond(access, d, a))
  }

  function EmitMove(g: Gen, d: nat, h: nat): Gen {
    var g1 := ModifyReg(g, d);
    UnlockReg(Emit(g1, MovR(Where(g1.cache.entries, d), h)), d)
  }

  /** rt := memory[rs + offset] */
  function EmitLoad(g: Gen, access: Access, rt: nat, rs: nat, offset: Word): Gen {
    if rt == 0 then g
    else
      var g1 := LoadReg(g, rs, NoExt);
      var g2 := ModifyReg(g1, SCRATCH0);
      var hs, ha := Where(g1.cache.entries, rs), Where(g2.cache.entries, SCRATCH0);
      var g3 := ModifyReg(EmitAddress(g2, ha, hs, offset), SCRATCH1);
      var hr := Where(g3.cache.entries, SCRATCH1);
      EmitMove(EmitFetch(g3, access, rs, hr, ha), rt, hr)
  }

  /** The address is in ha and a second scratch register hr is reserved. */
  predicate ReadyToFetch(env: Env, g: Gen, m0: Machine, m: Machine, rf: RegFile, rs: nat, ha: nat, hr: nat, addr: nat) {
    && Exec(env, g.ops, m0) == m && env.callerSaved == g.cache.callerSaved
    && Good(g.cache, m, multiset{rs} + multiset{SCRATCH0} + multiset{SCRATCH1}, rf)
    && ha < |m.host| && hr < |m.host| && ha != hr
    && Owns(g.cache.entries[ha], SCRATCH0) && Owns(g.cache.entries[hr], SCRATCH1)
    && addr < 4096 && m.host[ha] == ZeroExt(addr)
  }

  lemma LoadSetup(env: Env, g: Gen, m0: Machine, m: Machine, rf: RegFile, rs: nat, offset: Word) returns (m': Machine)
    requires Ok(env, g, m0, m, rf) && rs < COND
    ensures var g1 := LoadReg(g, rs, NoExt);
            var g2 := ModifyReg(g1, SCRATCH0);
            var hs, ha := Where(g1.cache.entries, rs), Where(g2.cache.entries, SCRATCH0);
            var g3 := ModifyReg(EmitAddress(g2, ha, hs, offset), SCRATCH1);
            ReadyToFetch(env, g3, m0, m', rf, rs, ha, Where(g3.cache.entries, SCRATCH1), AddressOf(rf[rs], offset))
    ensures SameOutside(m, m')
  {
    var g1 := LoadReg(g, rs, NoExt);
    var m2 := PrepareOne(env, g, m0, m, rf, rs, NoExt, SCRATCH0);
    m' := LoadSetupCore(env, ModifyReg(g1, SCRATCH0), m0, m2, rf, rs, Where(g1.cache.entries, rs), offset);
  }

  lemma LoadSetupCore(env: Env, g: Gen, m0: Machine, m: Machine, rf: RegFile, rs: nat, hs: nat, offset: Word)
    returns (m': Machine)
    requires rs < COND && ReadyOne(env, g, m0, m, rf, rs, NoExt, SCRATCH0, hs)
    ensures var ha := Where(g.cache.entries, SCRATCH0);
            var g3 := ModifyReg(EmitAddress(g, ha, hs, offset), SCRATCH1);
            ReadyToFetch(env, g3, m0, m', rf, rs, ha, Where(g3.cache.entries, SCRATCH1), AddressOf(rf[rs], offset))
    ensures SameOutside(m, m')
  {
    var ha := Where(g.cache.entries, SCRATCH0);
    var v := ZeroExt(AddressOf(rf[rs], offset));
    AddressValue(env, g.ops, m0, m, ha, hs, offset);
    var m3 := Poke(m, ha, v);
    assert m3.host == m.host[ha := v];
    m' := ReserveSecond(env, EmitAddress(g, ha, hs, offset), m0, m3, rf, rs, ha);
  }

  lemma ReserveSecond(env: Env, g: Gen, m0: Machine, m: Machine, rf: RegFile, rs: nat, ha: nat) returns (m': Machine)
    requires Exec(env, g.ops, m0) == m && env.callerSaved == g.cache.callerSaved && rs < COND
    requires Good(g.cache, m, multiset{rs} + multiset{SCRATCH0}, rf)
    requires Where(g.cache.entries, SCRATCH0) == ha && ha < |m.host| && m.host[ha].lo < 4096 && m.host[ha].hi == 0
    ensures var g3 := ModifyReg(g, SCRATCH1);
            ReadyToFetch(env, g3, m0, m', rf, rs, ha, Where(g3.cache.entries, SCRATCH1), m.host[ha].lo)
    ensures SameOutside(m, m')
  {
    var held := multiset{rs} + multiset{SCRATCH0};
    m' := ModifySim(env, g, m0, m, held, rf, SCRATCH1);
    var hr := Where(ModifyReg(g, SCRATCH1).cache.entries, SCRATCH1);
    assert SCRATCH0 in held && m'.host[hr := m'.host[hr]] == m'.host;
  }

  /** After the access: nothing locked, the value in hr. */
  predicate Fetched(env: Env, g: Gen, m0: Machine, m: Machine, m': Machine, rf: RegFile, hr: nat, v: Word) {
    && Ok(env, g, m0, m', rf) && SameOutside(m, m')
    && hr < |m'.host| && m'.host[hr].lo == v
  }

  lemma FetchSim(env: Env, g: Gen, m0: Machine, m: Machine, rf: RegFile, access: Access, rs: nat, ha: nat, hr: nat, addr: nat)
    returns (m': Machine)
    requires ReadyToFetch(env, g, m0, m, rf, rs, ha, hr, addr)
    ensures Fetched(env, EmitFetch(g, access, rs, hr, ha), m0, m, m', rf, hr, Fetch(m.world.dmem, access, addr))
  {
    if AlignOf(access) == 1 {
      m' := FetchByteSim(env, g, m0, m, rf, access, rs, ha, hr, addr);
    } else {
      m' := FetchWideSim(env, g, m0, m, rf, access, rs, ha, hr, addr);
    }
  }

  lemma FetchByteSim(env: Env, g: Gen, m0: Machine, m: Machine, rf: RegFile, access: Access, rs: nat, ha: nat, hr: nat,
                     addr: nat)
    returns (m': Machine)
    requires ReadyToFetch(env, g, m0, m, rf, rs, ha, hr, addr) && AlignOf(access) == 1
    ensures Fetched(env, EmitFetch(g, access, rs, hr, ha), m0, m, m', rf, hr, Fetch(m.world.dmem, access, addr))
  {
    m' := LoadArmValue(env, m, access, hr, ha, addr);
    ExecConcat(env, g.ops, LoadArm(access, hr, ha), m0);
    var held := multiset{rs} + multiset{SCRATCH0} + multiset{SCRATCH1};
    ScratchChange(g.cache, m, m', held, rf);
    ReleaseThree(EmitArm(g, LoadArm(access, hr, ha)), m', rf, rs, SCRATCH0, SCRATCH1);
  }

  lemma {:induction false} ExecConcat(env: Env, a: seq<Op>, b: seq<Op>, m: Machine)
    ensures Exec(env, a + b, m) == Exec(env, b, Exec(env, a, m))
    decreases |b|
  {
    if b == [] {
      assert a + b == a;
    } else {
      var b', op := b[..|b| - 1], b[|b| - 1];
      assert b == b' + [op] && a + b == (a + b') + [op];
      ExecConcat(env, a, b', m);
      ExecSnoc(env, a + b', op, m);
      ExecSnoc(env, b', op, Exec(env, a, m));
    }
  }

  /** Registers that survive a flush of the caller-saved ones still hold scratch values only where they did. */
  lemma FetchWideSim(env: Env, g: Gen, m0: Machine, m: Machine, rf: RegFile, access: Access, rs: nat, ha: nat, hr: nat,
                     addr: nat)
    returns (m': Machine)
    requires ReadyToFetch(env, g, m0, m, rf, rs, ha, hr, addr) && AlignOf(access) != 1
    ensures Fetched(env, EmitFetch(g, access, rs, hr, ha), m0, m, m', rf, hr, Fetch(m.world.dmem, access, addr))
  {
    var g1 := UnlockReg(UnlockReg(UnlockReg(g, rs), SCRATCH0), SCRATCH1);
    ReleaseThree(g, m, rf, rs, SCRATCH0, SCRATCH1);
    UnlockKeeps(g, rs, SCRATCH0, SCRATCH1);
    var m2 := FlushFirstSim(env, g1, m0, m, rf, g1.cache.callerSaved);
    var g2 := FlushCallerSaved(g1);
    m' := LoadDiamondValue(env, m2, access, hr, ha, addr);
    RunOne(env, g2.ops, LoadDiamond(access, hr, ha), m0, m2, m');
    ScratchChange(g2.cache, m2, m', multiset{}, rf);
  }

  /** Unlocking changes lock counts only. */
  lemma UnlockKeeps(g: Gen, a: nat, b: nat, d: nat)
    ensures var es, es' := g.cache.entries, UnlockReg(UnlockReg(UnlockReg(g, a), b), d).cache.entries;
            && |es'| == |es|
            && forall j :: 0 <= j < |es| ==> es'[j] == es[j].(locks := es'[j].locks)
  {
    UnlockKeepsOne(g, a);
    UnlockKeepsOne(UnlockReg(g, a), b);
    UnlockKeepsOne(UnlockReg(UnlockReg(g, a), b), d);
  }

  lemma UnlockKeepsOne(g: Gen, k: nat)
    ensures var es, es' := g.cache.entries, UnlockReg(g, k).cache.entries;
            && |es'| == |es|
            && forall j :: 0 <= j < |es| ==> es'[j] == es[j].(locks := es'[j].locks)
  {
    OpenUnlock(g, k);
  }

  lemma MoveSim(env: Env, g: Gen, m0: Machine, m: Machine, rf: RegFile, d: nat, h: nat) returns (m': Machine)
    requires Ok(env, g, m0, m, rf) && 0 < d < COND && h < |m.host|
    ensures Ok(env, EmitMove(g, d, h), m0, m', Set(rf, d, m.host[h].lo)) && SameOutside(m, m')
  {
    var m1 := ModifySim(env, g, m0, m, multiset{}, rf, d);
    m' := MoveCore(env, ModifyReg(g, d), m0, m1, rf, d, h);
  }

  lemma MoveCore(env: Env, g: Gen, m0: Machine, m: Machine, rf: RegFile, d: nat, h: nat) returns (m': Machine)
    requires Exec(env, g.ops, m0) == m && Sound(g.cache) && env.callerSaved == g.cache.callerSaved
    requires Reserved(g.cache.entries, m, rf, d) && Held(g.cache.entries, multiset{d}) && 0 < d < COND && h < |m.host|
    ensures Ok(env, UnlockReg(Emit(g, MovR(Where(g.cache.entries, d), h)), d), m0, m', Set(rf, d, m.host[h].lo))
    ensures SameOutside(m, m')
  {
    var hd := Where(g.cache.entries, d);
    m' := Poke(m, hd, m.host[h]);
    WriteSim(env, g, MovR(hd, h), m0, m, multiset{d}, rf, d, m.host[h]);
    UnlockMeaning(Emit(g, MovR(hd, h)), m', multiset{d}, Set(rf, d, m.host[h].lo), d);
  }

  lemma LoadTemplateSim(env: Env, g: Gen, m0: Machine, m: Machine, rf: RegFile, access: Access, rt: nat, rs: nat, offset: Word)
    returns (m': Machine)
    requires Ok(env, g, m0, m, rf) && 0 < rt < COND && rs < COND
    ensures Ok(env, EmitLoad(g, access, rt, rs, offset), m0, m',
               Set(rf, rt, Fetch(m.world.dmem, access, AddressOf(rf[rs], offset))))
    ensures SameOutside(m, m')
  {
    var g1 := LoadReg(g, rs, NoExt);
    var g2 := ModifyReg(g1, SCRATCH0);
    var hs, ha := Where(g1.cache.entries, rs), Where(g2.cache.entries, SCRATCH0);
    var g3 := ModifyReg(EmitAddress(g2, ha, hs, offset), SCRATCH1);
    var hr := Where(g3.cache.entries, SCRATCH1);
    var m3 := LoadSetup(env, g, m0, m, rf, rs, offset);
    var m4 := FetchSim(env, g3, m0, m3, rf, access, rs, ha, hr, AddressOf(rf[rs], offset));
    m' := MoveSim(env, EmitFetch(g3, access, rs, hr, ha), m0, m4, rf, rt, hr);
  }

  // ----- stores -----

  function EmitDeposit(g: Gen, access: Access, rt: nat, rs: nat, a: nat, s: nat): Gen {
    if AlignOf(access) == 1 then
      UnlockReg(UnlockReg(UnlockReg(EmitArm(g, StoreArm(access, a, s)), rt), rs), SCRATCH0)
    else
      Emit(FlushCallerSaved(UnlockReg(UnlockReg(UnlockReg(g, rt), rs), SCRATCH0)), StoreDiamond(access, a, s))
  }

  /** memory[rs + offset] := rt */
  function EmitStore(g: Gen, access: Access, rt: nat, rs: nat, offset: Word): Gen {
    var g1 := LoadReg(g, rt, NoExt);
    var g2 := LoadReg(g1, rs, NoExt);
    var g3 := ModifyReg(g2, SCRATCH0);
    var ht, hs, ha := Where(g1.cache.entries, rt), Where(g2.cache.entries, rs), Where(g3.cache.entries, SCRATCH0);
    EmitDeposit(EmitAddress(g3, ha, hs, offset), access, rt, rs, ha, ht)
  }

  /** The address is in ha and the value in ht. */
  predicate ReadyToDeposit(env: Env, g: Gen, m0: Machine, m: Machine, rf: RegFile, rt: nat, rs: nat, ha: nat, ht: nat,
                           addr: nat, v: Word)
  {
    && Exec(env, g.ops, m0) == m && env.callerSaved == g.cache.callerSaved
    && Good(g.cache, m, multiset{rt} + multiset{rs} + multiset{SCRATCH0}, rf)
    && ha < |m.host| && ht < |m.host| && ha != ht
    && Owns(g.cache.entries[ha], SCRATCH0)
    && addr < 4096 && m.host[ha] == ZeroExt(addr) && m.host[ht].lo == v
  }

  lemma StoreSetupCore(env: Env, g: Gen, m0: Machine, m: Machine, rf: RegFile, rt: nat, rs: nat, ht: nat, hs: nat,
                       offset: Word)
    returns (m': Machine)
    requires rt < COND && rs < COND && ReadyTwo(env, g, m0, m, rf, rt, rs, NoExt, NoExt, SCRATCH0, ht, hs)
    ensures var ha := Where(g.cache.entries, SCRATCH0);
            ReadyToDeposit(env, EmitAddress(g, ha, hs, offset), m0, m', rf, rt, rs, ha, ht, AddressOf(rf[rs], offset), rf[rt])
    ensures SameOutside(m, m')
  {
    var ha := Where(g.cache.entries, SCRATCH0);
    var v := ZeroExt(AddressOf(rf[rs], offset));
    AddressValue(env, g.ops, m0, m, ha, hs, offset);
    m' := Poke(m, ha, v);
    assert m'.host == m.host[ha := v];
  }

  /** After the access: nothing locked, memory updated. */
  predicate Deposited(env: Env, g: Gen, m0: Machine, m: Machine, m': Machine, rf: RegFile, world: World) {
    && Ok(env, g, m0, m', rf)
    && m' == m.(host := m'.host, sr := m'.sr, world := world)
  }

  lemma DepositSim(env: Env, g: Gen, m0: Machine, m: Machine, rf: RegFile, access: Access, rt: nat, rs: nat, ha: nat, ht: nat,
                   addr: nat, v: Word)
    returns (m': Machine)
    requires ReadyToDeposit(env, g, m0, m, rf, rt, rs, ha, ht, addr, v)
    ensures Deposited(env, EmitDeposit(g, access, rt, rs, ha, ht), m0, m, m', rf, Stored(m.world, access, addr, v))
  {
    var held := multiset{rt} + multiset{rs} + multiset{SCRATCH0};
    if AlignOf(access) == 1 {
      m' := StoreArmValue(env, m, access, ha, ht, addr);
      ExecConcat(env, g.ops, StoreArm(access, ha, ht), m0);
      ScratchChange(g.cache, m, m', held, rf);
      ReleaseThree(EmitArm(g, StoreArm(access, ha, ht)), m', rf, rt, rs, SCRATCH0);
    } else {
      m' := DepositWideSim(env, g, m0, m, rf, access, rt, rs, ha, ht, addr, v);
    }
  }

  lemma DepositWideSim(env: Env, g: Gen, m0: Machine, m: Machine, rf: RegFile, access: Access, rt: nat, rs: nat, ha: nat,
                       ht: nat, addr: nat, v: Word)
    returns (m': Machine)
    requires ReadyToDeposit(env, g, m0, m, rf, rt, rs, ha, ht, addr, v) && AlignOf(access) != 1
    ensures Deposited(env, EmitDeposit(g, access, rt, rs, ha, ht), m0, m, m', rf, Stored(m.world, access, addr, v))
  {
    var g1 := UnlockReg(UnlockReg(UnlockReg(g, rt), rs), SCRATCH0);
    ReleaseThree(g, m, rf, rt, rs, SCRATCH0);
    UnlockKeeps(g, rt, rs, SCRATCH0);
    var m2 := FlushFirstSim(env, g1, m0, m, rf, g1.cache.callerSaved);
    var g2 := FlushCallerSaved(g1);
    m' := StoreDiamondValue(env, m2, access, ha, ht, addr);
    RunOne(env, g2.ops, StoreDiamond(access, ha, ht), m0, m2, m');
    ScratchChange(g2.cache, m2, m', multiset{}, rf);
  }

  lemma StoreTemplateSim(env: Env, g: Gen, m0: Machine, m: Machine, rf: RegFile, access: Access, rt: nat, rs: nat, offset: Word)
    returns (m': Machine)
    requires Ok(env, g, m0, m, rf) && rt < COND && rs < COND
    ensures Deposited(env, EmitStore(g, access, rt, rs, offset), m0, m, m', rf,
                      Stored(m.world, access, AddressOf(rf[rs], offset), rf[rt]))
  {
    var g1 := LoadReg(g, rt, NoExt);
    var g2 := LoadReg(g1, rs, NoExt);
    var g3 := ModifyReg(g2, SCRATCH0);
    var ht, hs, ha := Where(g1.cache.entries, rt), Where(g2.cache.entries, rs), Where(g3.cache.entries, SCRATCH0);
    var m3 := PrepareTwo(env, g, m0, m, rf, rt, rs, NoExt, NoExt, SCRATCH0);
    var m4 := StoreSetupCore(env, g3, m0, m3, rf, rt, rs, ht, hs, offset);
    m' := DepositSim(env, EmitAddress(g3, ha, hs, offset), m0, m4, rf, access, rt, rs, ha, ht, AddressOf(rf[rs], offset), rf[rt]);
  }

  // ----- calls -----

  /** Calls that read or write one MIPS register in memory: flush what the call may destroy, and that register. */
  function EmitCall(g: Gen, kind: CallKind, r: nat, w: Word): Gen {
    var g1 := FlushCallerSaved(g);
    Emit(if kind.CallVector? then g1 else FlushOne(g1, r), Call(kind, r, w))
  }

  /** What such a call does to the plain register file and the world. */
  function CallRegs(env: Env, kind: CallKind, r: nat, w: Word, rf: RegFile, world: World): RegFile {
    if kind.CallFromC2? && r != 0 then Set(rf, r, env.fromC2(world, w)) else rf
  }

  function CallWorld(env: Env, kind: CallKind, r: nat, w: Word, rf: RegFile, world: World): World
    requires r < SR_WORDS
  {
    match kind
    case CallVector => env.vector(world, w)
    case CallToC2 => env.toC2(world, w, rf[r])
    case CallMemory => env.vectorMemory(world, w, rf[r])
    case _ => world
  }

  lemma CallSim(env: Env, g: Gen, m0: Machine, m: Machine, rf: RegFile, kind: CallKind, r: nat, w: Word) returns (m': Machine)
    requires Ok(env, g, m0, m, rf) && r < COND && !kind.CallFromC0? && !kind.CallToC0?
    ensures Ok(env, EmitCall(g, kind, r, w), m0, m', CallRegs(env, kind, r, w, rf, m.world))
    ensures m' == m.(host := m'.host, sr := m'.sr, world := CallWorld(env, kind, r, w, rf, m.world))
  {
    var m1 := FlushCallerSavedSim(env, g, m0, m, rf);
    var g1 := FlushCallerSaved(g);
    if kind.CallVector? {
      m' := CallCore(env, g1, m0, m1, rf, kind, r, w);
    } else {
      var m2 := FlushOneSim(env, g1, m0, m1, rf, r);
      m' := CallCore(env, FlushOne(g1, r), m0, m2, rf, kind, r, w);
    }
  }

  lemma CallCore(env: Env, g: Gen, m0: Machine, m: Machine, rf: RegFile, kind: CallKind, r: nat, w: Word) returns (m': Machine)
    requires Ok(env, g, m0, m, rf) && r < COND && !kind.CallFromC0? && !kind.CallToC0?
    requires forall j :: 0 <= j < g.cache.callerSaved ==> !g.cache.entries[j].live
    requires kind.CallVector? || Where(g.cache.entries, r) == |g.cache.entries|
    ensures Ok(env, Emit(g, Call(kind, r, w)), m0, m', CallRegs(env, kind, r, w, rf, m.world))
    ensures m' == m.(host := m'.host, sr := m'.sr, world := CallWorld(env, kind, r, w, rf, m.world))
  {
    var rf' := CallRegs(env, kind, r, w, rf, m.world);
    var world := CallWorld(env, kind, r, w, rf, m.world);
    var m1 := if kind.CallFromC2? && r != 0 then PokeSr(m, r, env.fromC2(m.world, w)) else m;
    if kind.CallFromC2? && r != 0 { PokeUncached(g.cache, m, rf, r, env.fromC2(m.world, w)); }
    m' := AfterCall(env, m1, world);
    CallMeaning(env, g.cache, m1, rf', world);
    assert !kind.CallVector? ==> PeekSr(m, r) == rf[r];
    RunOne(env, g.ops, Call(kind, r, w), m0, m, m');
  }
}
