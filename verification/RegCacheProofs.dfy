/**
 * The register cache refines a plain register file: each operation keeps `Represents`, counts locks
 * exactly, and never disturbs a locked register.
 *
 * Each operation is treated in two steps: what its emitted code does to the machine (`...Effect`),
 * and what the new entries together with the new registers mean.
 */
module RegCacheProofs {
  import opened Words
  import opened Isa
  import opened HostCode
  import opened RegCache

  /** The cache and machine stand for rf, with exactly the given locks. */
  predicate Good(c: Cache, m: Machine, held: multiset<nat>, rf: RegFile) {
    Sound(c) && Represents(c.entries, m.host, m.sr, rf) && Held(c.entries, held)
  }

  /** Everything but host registers and `sr` is as before. */
  predicate SameOutside(m: Machine, m': Machine) {
    m' == m.(host := m'.host, sr := m'.sr)
  }

  function Set(rf: RegFile, k: nat, v: Word): RegFile { if k < SR_WORDS then rf[k := v] else rf }

  lemma WhereIs(es: seq<Entry>, j: nat, k: nat)
    requires j < |es| && Distinct(es) && Owns(es[j], k)
    ensures Where(es, k) == j
  {
  }

  // ----- choosing a register -----

  /** With at most two locks out, three registers are enough to find one. */
  lemma RegisterAvailable(es: seq<Entry>, held: multiset<nat>, k: nat)
    requires Held(es, held) && Distinct(es) && |es| >= 3 && |held| <= 2
    ensures FindRegister(es, k) < |es|
  {
    if es[0].locks > 0 && es[1].locks > 0 && es[2].locks > 0 {
      ThreeLocks(es, held);
    }
  }

  lemma ThreeLocks(es: seq<Entry>, held: multiset<nat>)
    requires Held(es, held) && Distinct(es) && |es| >= 3
    requires es[0].locks > 0 && es[1].locks > 0 && es[2].locks > 0
    ensures |held| >= 3
  {
    var three := multiset{es[0].mips, es[1].mips, es[2].mips};
    assert three <= held;
    assert |held| == |three| + |held - three|;
  }

  /** Host register h may be given to k: it holds k already, or nothing locked. */
  predicate Claimable(es: seq<Entry>, held: multiset<nat>, h: nat, k: nat)
    requires h < |es|
  {
    Owns(es[h], k) || (es[h].locks == 0 && Where(es, k) == |es| && (es[h].live ==> held[es[h].mips] == 0))
  }

  lemma ChosenIsClaimable(es: seq<Entry>, held: multiset<nat>, k: nat)
    requires Held(es, held) && FindRegister(es, k) < |es|
    ensures Claimable(es, held, FindRegister(es, k), k)
  {
  }

  // ----- the meaning of taking over a register -----

  /** Nothing is lost by dropping what host register h holds, unless that is k itself. */
  predicate Droppable(es: seq<Entry>, sr: RegFile, rf: RegFile, h: nat, k: nat)
    requires h < |es|
  {
    es[h].live && es[h].mips < SR_WORDS && es[h].mips != k ==> sr[es[h].mips] == rf[es[h].mips]
  }

  /** Giving host register h to k, with value v. */
  lemma ClaimRegister(es: seq<Entry>, host: seq<Host>, sr: RegFile, rf: RegFile, h: nat, k: nat, e: Entry, v: Host)
    requires Represents(es, host, sr, rf) && h < |es|
    requires Owns(es[h], k) || Where(es, k) == |es|
    requires Droppable(es, sr, rf, h, k)
    requires Owns(e, k) && EntryFaithful(e, v, sr, Set(rf, k, v.lo)) && (k == 0 ==> v.lo == 0)
    ensures Represents(es[h := e], host[h := v], sr, Set(rf, k, v.lo))
  {
    var es' := es[h := e];
    WhereIs(es', h, k);
    forall x | 0 < x < SR_WORDS && Where(es', x) == |es'|
      ensures sr[x] == Set(rf, k, v.lo)[x]
    {
      assert x != k;
      assert forall j :: 0 <= j < |es| && j != h ==> es'[j] == es[j];
    }
  }

  /** Locks after taking one more on k at h: every other locked register stays where it was. */
  predicate LockAdded(es: seq<Entry>, es': seq<Entry>, held: multiset<nat>, h: nat, k: nat) {
    && Where(es', k) == h
    && Held(es', held + multiset{k})
    && forall x :: x in held ==> Where(es', x) == Where(es, x) && (x != k ==> Where(es, x) != h)
  }

  lemma ClaimLock(es: seq<Entry>, held: multiset<nat>, h: nat, k: nat, e: Entry)
    requires Held(es, held) && Distinct(es) && h < |es| && Claimable(es, held, h, k)
    requires Owns(e, k) && e.locks == es[h].locks + 1
    ensures LockAdded(es, es[h := e], held, h, k)
  {
    var es' := es[h := e];
    WhereIs(es', h, k);
    forall x | x in held
      ensures Where(es', x) == Where(es, x) && (x != k ==> Where(es, x) != h)
    {
      LockStays(es, held, h, k, e, x);
    }
    assert k in held ==> Where(es, k) < |es|;
    assert held[k] == es[h].locks;
  }

  lemma LockStays(es: seq<Entry>, held: multiset<nat>, h: nat, k: nat, e: Entry, x: nat)
    requires Held(es, held) && Distinct(es) && h < |es| && Claimable(es, held, h, k)
    requires Owns(e, k) && x in held
    ensures Where(es[h := e], x) == Where(es, x) && (x != k ==> Where(es, x) != h)
  {
    var es', j := es[h := e], Where(es, x);
    assert es[j].locks > 0;
    if x == k {
      WhereIs(es, h, k);
      WhereIs(es', h, k);
    } else {
      assert j != h;
      WhereIs(es', j, x);
    }
  }

  // ----- write-back -----

  /** `sr` after the write-back of entry e, whose host value is v. */
  function Written(e: Entry, v: Host, sr: RegFile): RegFile {
    if e.modified && e.mips < SR_WORDS then sr[e.mips := v.lo] else sr
  }

  /** A write-back makes memory current and changes no meaning. */
  lemma WriteBackMeaning(es: seq<Entry>, host: seq<Host>, sr: RegFile, rf: RegFile, h: nat)
    requires Represents(es, host, sr, rf) && h < |es| && es[h].live
    ensures var sr' := Written(es[h], host[h], sr);
            && Represents(es, host, sr', rf)
            && (es[h].mips < SR_WORDS ==> sr'[es[h].mips] == rf[es[h].mips])
  {
  }

  lemma RunEvict(env: Env, g: Gen, h: nat, m0: Machine, m: Machine)
    requires Exec(env, g.ops, m0) == m && h < |g.cache.entries| == |m.host|
    requires g.cache.entries[h].modified ==> g.cache.entries[h].mips != 0
    ensures Evict(g, h).cache == g.cache
    ensures Exec(env, Evict(g, h).ops, m0) == m.(sr := Written(g.cache.entries[h], m.host[h], m.sr))
  {
    ExecSnoc(env, g.ops, StoreSr(g.cache.entries[h].mips, h), m0);
  }

  // ----- load -----

  predicate Converts(e: Entry, ext: Ext) { !ext.NoExt? && e.sign != ext }

  /** `sr` after the eviction that bringing in k causes. */
  function SrAfter(es: seq<Entry>, h: nat, k: nat, m: Machine): RegFile
    requires h < |es| == |m.host|
  {
    if es[h].live && es[h].mips != k then Written(es[h], m.host[h], m.sr) else m.sr
  }

  /** The host value of k once loaded into h. */
  function LoadedValue(es: seq<Entry>, h: nat, k: nat, ext: Ext, m: Machine): Host
    requires h < |es| == |m.host|
  {
    if Owns(es[h], k) then
      if Converts(es[h], ext) && k != 0 then Extended(ext, m.host[h].lo) else m.host[h]
    else if k == 0 then ZERO else if k < SR_WORDS then Extended(ext, SrAfter(es, h, k, m)[k]) else ZERO
  }

  function LoadEffect(es: seq<Entry>, k: nat, ext: Ext, m: Machine): Machine
    requires FindRegister(es, k) < |es| == |m.host|
  {
    var h := FindRegister(es, k);
    m.(sr := SrAfter(es, h, k, m), host := m.host[h := LoadedValue(es, h, k, ext, m)])
  }

  /** The entry a load leaves. */
  function LoadedEntry(e: Entry, k: nat, ext: Ext, clock: nat): Entry {
    if Owns(e, k) then e.(sign := if Converts(e, ext) then ext else e.sign, stamp := clock, locks := e.locks + 1)
    else Entry(k, clock, e.locks + 1, if ext.ZExt? then ZExt else SExt, true, false)
  }

  lemma RunLoad(env: Env, g: Gen, k: nat, ext: Ext, m0: Machine, m: Machine)
    requires Exec(env, g.ops, m0) == m && k <= COND
    requires FindRegister(g.cache.entries, k) < |g.cache.entries| == |m.host|
    requires var e := g.cache.entries[FindRegister(g.cache.entries, k)]; e.live && e.modified ==> e.mips != 0
    ensures Exec(env, LoadReg(g, k, ext).ops, m0) == LoadEffect(g.cache.entries, k, ext, m)
  {
    OpenLoad(g, k, ext);
    var h := FindRegister(g.cache.entries, k);
    var e := g.cache.entries[h];
    if Owns(e, k) {
      if Converts(e, ext) && k != 0 {
        RunOne(env, g.ops, Extend(h, ext), m0, m, Poke(m, h, Extended(ext, m.host[h].lo)));
      } else {
        assert m.host[h := m.host[h]] == m.host;
      }
    } else {
      var g1 := if e.live then Evict(g, h) else g;
      var m1 := m.(sr := SrAfter(g.cache.entries, h, k, m));
      if e.live { RunEvict(env, g, h, m0, m); }
      RunOne(env, g1.ops, FillOp(h, k, ext), m0, m1, Poke(m1, h, LoadedValue(g.cache.entries, h, k, ext, m)));
    }
  }

  lemma RunOne(env: Env, ops: seq<Op>, op: Op, m0: Machine, m: Machine, m': Machine)
    requires Exec(env, ops, m0) == m && ExecOp(env, op, m) == m'
    ensures Exec(env, ops + [op], m0) == m'
  {
    ExecSnoc(env, ops, op, m0);
  }

  lemma LoadCache(g: Gen, k: nat, ext: Ext)
    requires k <= COND && FindRegister(g.cache.entries, k) < |g.cache.entries|
    requires var e := g.cache.entries[FindRegister(g.cache.entries, k)]; e.live && e.modified ==> e.mips != 0
    ensures var h, c' := FindRegister(g.cache.entries, k), LoadReg(g, k, ext).cache;
            && c'.clock == g.cache.clock + 1
            && c'.entries == g.cache.entries[h := LoadedEntry(g.cache.entries[h], k, ext, g.cache.clock + 1)]
            && c'.ok == g.cache.ok && c'.callerSaved == g.cache.callerSaved
  {
    OpenLoad(g, k, ext);
  }

  /** The first entry of least stamp among the unlocked ones of the first n. */
  lemma {:induction false} OldestIsFirst(es: seq<Entry>, n: nat, j: nat)
    requires n <= |es| && j < n && Oldest(es, n) < |es| && j < Oldest(es, n) && Evictable(es[j])
    ensures es[Oldest(es, n)].stamp < es[j].stamp
  {
    if j < n - 1 && Oldest(es, n) != n - 1 {
      OldestIsFirst(es, n - 1, j);
    }
  }

  /**
   * find_register, exactly: the entry of the register if it has one, else the first free entry, else the
   * first least recently used unlocked one, else none.
   */
  lemma FindRegisterExact(es: seq<Entry>, k: nat)
    ensures var h := FindRegister(es, k);
            if exists j :: 0 <= j < |es| && es[j].live && es[j].mips == k then h < |es| && es[h].live && es[h].mips == k
            else if exists j :: 0 <= j < |es| && !es[j].live then h < |es| && !es[h].live && forall j :: 0 <= j < h ==> es[j].live
            else if exists j :: 0 <= j < |es| && es[j].locks == 0 then
              h < |es| && es[h].locks == 0 && (forall j :: 0 <= j < |es| && es[j].locks == 0 ==> es[h].stamp <= es[j].stamp)
              && (forall j :: 0 <= j < h && es[j].locks == 0 ==> es[h].stamp < es[j].stamp)
            else h >= |es|
  {
    var h := FindRegister(es, k);
    if h < |es| && (forall j :: 0 <= j < |es| ==> es[j].live && !Owns(es[j], k)) {
      forall j | 0 <= j < h && es[j].locks == 0
        ensures es[h].stamp < es[j].stamp
      {
        OldestIsFirst(es, |es|, j);
      }
    }
  }

  /** After a load: k is locked once more, in a register with the right value and extension. */
  predicate Loaded(c: Cache, c': Cache, m: Machine, m': Machine, held: multiset<nat>, rf: RegFile, k: nat, ext: Ext)
    requires k < SR_WORDS
  {
    var h := Where(c'.entries, k);
    && Good(c', m', held + multiset{k}, rf)
    && c'.callerSaved == c.callerSaved
    && LockAdded(c.entries, c'.entries, held, h, k)
    && SameOutside(m, m')
    && h < |m'.host| == |m.host| && m'.host[h].lo == rf[k] && HasExt(ext, m'.host[h])
    && (forall j :: 0 <= j < |m'.host| && j != h ==> m'.host[j] == m.host[j])
    && (ext.NoExt? && Where(c.entries, k) == h ==> m'.host[h] == m.host[h])
  }

  lemma LoadMeaning(es: seq<Entry>, m: Machine, held: multiset<nat>, rf: RegFile, k: nat, ext: Ext, clock: nat)
    requires Represents(es, m.host, m.sr, rf) && Held(es, held)
    requires k <= COND && (k == COND ==> ext.NoExt?) && FindRegister(es, k) < |es|
    ensures var h := FindRegister(es, k);
            var es' := es[h := LoadedEntry(es[h], k, ext, clock)];
            var m' := LoadEffect(es, k, ext, m);
            && Represents(es', m'.host, m'.sr, rf)
            && LockAdded(es, es', held, h, k)
            && m'.host[h].lo == rf[k] && HasExt(ext, m'.host[h])
  {
    ChosenIsClaimable(es, held, k);
    var h := FindRegister(es, k);
    var e, v, sr := LoadedEntry(es[h], k, ext, clock), LoadedValue(es, h, k, ext, m), SrAfter(es, h, k, m);
    if es[h].live { WriteBackMeaning(es, m.host, m.sr, rf, h); }
    assert v.lo == rf[k] && Set(rf, k, v.lo) == rf;
    ClaimRegister(es, m.host, sr, rf, h, k, e, v);
    ClaimLock(es, held, h, k, e);
  }

  lemma LoadSim(env: Env, g: Gen, m0: Machine, m: Machine, held: multiset<nat>, rf: RegFile, k: nat, ext: Ext)
    returns (m': Machine)
    requires Exec(env, g.ops, m0) == m && Good(g.cache, m, held, rf) && |held| <= 2
    requires k <= COND && (k == COND ==> ext.NoExt?)
    ensures Exec(env, LoadReg(g, k, ext).ops, m0) == m'
    ensures Loaded(g.cache, LoadReg(g, k, ext).cache, m, m', held, rf, k, ext)
  {
    var es := g.cache.entries;
    RegisterAvailable(es, held, k);
    RunLoad(env, g, k, ext, m0, m);
    LoadMeaning(es, m, held, rf, k, ext, g.cache.clock + 1);
    LoadCache(g, k, ext);
    m' := LoadEffect(es, k, ext, m);
  }

  // ----- modify -----

  function ModifiedEntry(e: Entry, k: nat, clock: nat): Entry { Entry(k, clock, e.locks + 1, NoExt, true, true) }

  lemma RunModify(env: Env, g: Gen, k: nat, m0: Machine, m: Machine)
    requires Exec(env, g.ops, m0) == m
    requires FindRegister(g.cache.entries, k) < |g.cache.entries| == |m.host|
    requires var e := g.cache.entries[FindRegister(g.cache.entries, k)]; e.live && e.modified ==> e.mips != 0
    ensures Exec(env, ModifyReg(g, k).ops, m0) == m.(sr := SrAfter(g.cache.entries, FindRegister(g.cache.entries, k), k, m))
  {
    OpenModify(g, k);
    var h := FindRegister(g.cache.entries, k);
    if g.cache.entries[h].live && g.cache.entries[h].mips != k {
      RunEvict(env, g, h, m0, m);
    }
  }

  lemma ModifyCache(g: Gen, k: nat)
    requires FindRegister(g.cache.entries, k) < |g.cache.entries|
    requires var e := g.cache.entries[FindRegister(g.cache.entries, k)]; e.live && e.modified ==> e.mips != 0
    ensures var h, c' := FindRegister(g.cache.entries, k), ModifyReg(g, k).cache;
            && c'.clock == g.cache.clock + 1
            && c'.entries == g.cache.entries[h := ModifiedEntry(g.cache.entries[h], k, g.cache.clock + 1)]
            && c'.ok == g.cache.ok && c'.callerSaved == g.cache.callerSaved
  {
    OpenModify(g, k);
  }

  /** Register k has a host register to itself, waiting for any value. */
  ghost predicate Reserved(es: seq<Entry>, m: Machine, rf: RegFile, k: nat) {
    && Where(es, k) < |es| == |m.host|
    && forall v {:trigger m.host[Where(es, k) := v]} ::
         (k == COND ==> HasExt(SExt, v)) ==> Represents(es, m.host[Where(es, k) := v], m.sr, Set(rf, k, v.lo))
  }

  lemma ModifyMeaning(es: seq<Entry>, m: Machine, held: multiset<nat>, rf: RegFile, k: nat, clock: nat)
    requires Represents(es, m.host, m.sr, rf) && Held(es, held)
    requires 0 < k <= SCRATCH1 && FindRegister(es, k) < |es|
    ensures var h := FindRegister(es, k);
            var es' := es[h := ModifiedEntry(es[h], k, clock)];
            && LockAdded(es, es', held, h, k)
            && Reserved(es', m.(sr := SrAfter(es, h, k, m)), rf, k)
  {
    ChosenIsClaimable(es, held, k);
    var h := FindRegister(es, k);
    var e, sr := ModifiedEntry(es[h], k, clock), SrAfter(es, h, k, m);
    if es[h].live { WriteBackMeaning(es, m.host, m.sr, rf, h); }
    ClaimLock(es, held, h, k, e);
    forall v | k == COND ==> HasExt(SExt, v)
      ensures Represents(es[h := e], m.host[h := v], sr, Set(rf, k, v.lo))
    {
      ClaimRegister(es, m.host, sr, rf, h, k, e, v);
    }
  }

  /** Only the entry of k changed, and it now waits for a value of unknown extension. */
  predicate Claimed(es: seq<Entry>, es': seq<Entry>, k: nat) {
    var h := Where(es', k);
    && h < |es'| == |es| && es'[h].modified && es'[h].sign == NoExt
    && forall j :: 0 <= j < |es| && j != h ==> es'[j] == es[j]
  }

  /** A register that is being modified may be written again. */
  lemma OverwriteMeaning(es: seq<Entry>, host: seq<Host>, sr: RegFile, rf: RegFile, h: nat, k: nat, v: Host)
    requires Represents(es, host, sr, rf) && h < |es| && Owns(es[h], k) && es[h].modified && es[h].sign == NoExt
    requires 0 < k <= COND && (k == COND ==> HasExt(SExt, v))
    ensures Represents(es, host[h := v], sr, Set(rf, k, v.lo))
  {
    assert es[h := es[h]] == es;
    ClaimRegister(es, host, sr, rf, h, k, es[h], v);
  }

  lemma ModifySim(env: Env, g: Gen, m0: Machine, m: Machine, held: multiset<nat>, rf: RegFile, k: nat)
    returns (m': Machine)
    requires Exec(env, g.ops, m0) == m && Good(g.cache, m, held, rf) && |held| <= 2 && 0 < k <= SCRATCH1
    ensures var c' := ModifyReg(g, k).cache;
            && Exec(env, ModifyReg(g, k).ops, m0) == m' && m' == m.(sr := m'.sr)
            && Sound(c') && c'.callerSaved == g.cache.callerSaved
            && Reserved(c'.entries, m', rf, k)
            && LockAdded(g.cache.entries, c'.entries, held, Where(c'.entries, k), k)
            && Claimed(g.cache.entries, c'.entries, k)
  {
    var es := g.cache.entries;
    RegisterAvailable(es, held, k);
    RunModify(env, g, k, m0, m);
    ModifyCache(g, k);
    ModifyMeaning(es, m, held, rf, k, g.cache.clock + 1);
    m' := m.(sr := SrAfter(es, FindRegister(es, k), k, m));
  }

  // ----- unlock -----

  lemma UnlockMeaning(g: Gen, m: Machine, held: multiset<nat>, rf: RegFile, k: nat)
    requires Good(g.cache, m, held, rf) && k in held
    ensures var g' := UnlockReg(g, k);
            && Good(g'.cache, m, held - multiset{k}, rf)
            && g'.ops == g.ops && g'.cache.callerSaved == g.cache.callerSaved
            && forall x {:trigger Where(g'.cache.entries, x)} :: Where(g'.cache.entries, x) == Where(g.cache.entries, x)
  {
    OpenUnlock(g, k);
    var es, h := g.cache.entries, Where(g.cache.entries, k);
    var e := es[h].(locks := es[h].locks - 1);
    forall x: nat
      ensures Where(es[h := e], x) == Where(es, x)
    {
      SameOwners(es, es[h := e], x);
    }
    LockGiven(es, held, h, k, e);
    Relocked(es, m.host, m.sr, rf, h, e);
  }

  /** Locks do not matter to what a cache stands for. */
  lemma Relocked(es: seq<Entry>, host: seq<Host>, sr: RegFile, rf: RegFile, h: nat, e: Entry)
    requires Represents(es, host, sr, rf) && h < |es| && e == es[h].(locks := e.locks)
    requires forall x: nat {:trigger Where(es[h := e], x)} :: Where(es[h := e], x) == Where(es, x)
    ensures Represents(es[h := e], host, sr, rf)
  {
  }

  lemma SameOwners(es: seq<Entry>, es': seq<Entry>, x: nat)
    requires |es| == |es'| && forall j :: 0 <= j < |es| ==> Owns(es'[j], x) == Owns(es[j], x)
    ensures Where(es', x) == Where(es, x)
  {
  }

  lemma LockGiven(es: seq<Entry>, held: multiset<nat>, h: nat, k: nat, e: Entry)
    requires Held(es, held) && Distinct(es) && k in held && h == Where(es, k) < |es| && es[h].locks > 0
    requires e == es[h].(locks := es[h].locks - 1) && forall x: nat {:trigger Where(es[h := e], x)} :: Where(es[h := e], x) == Where(es, x)
    ensures Held(es[h := e], held - multiset{k})
  {
  }

  // ----- immediate -----

  lemma ImmediateSim(env: Env, g: Gen, m0: Machine, m: Machine, held: multiset<nat>, rf: RegFile, k: nat, v: Host)
    returns (m': Machine)
    requires Exec(env, g.ops, m0) == m && Good(g.cache, m, held, rf) && |held| <= 2
    requires 0 < k <= COND && HasExt(SExt, v)
    ensures var g' := ImmediateReg(g, k, v);
            && Exec(env, g'.ops, m0) == m' && SameOutside(m, m')
            && Good(g'.cache, m', held + multiset{k}, Set(rf, k, v.lo))
            && g'.cache.callerSaved == g.cache.callerSaved
  {
    var m1 := ModifySim(env, g, m0, m, held, rf, k);
    var g1 := ModifyReg(g, k);
    var es, h := g1.cache.entries, Where(g1.cache.entries, k);
    m' := Poke(m1, h, v);
    RunOne(env, g1.ops, MovI(h, v), m0, m1, m');
    assert m'.host == m1.host[h := v];
    SignKnown(es, m'.host, m'.sr, held + multiset{k}, Set(rf, k, v.lo), h, k);
  }

  /** Locked registers stay where they are, and only the register of k is written. */
  lemma ImmediatePlaces(env: Env, g: Gen, m0: Machine, m: Machine, held: multiset<nat>, rf: RegFile, k: nat, v: Host, m': Machine)
    requires Exec(env, g.ops, m0) == m && Good(g.cache, m, held, rf) && |held| <= 2
    requires 0 < k <= COND && HasExt(SExt, v) && Exec(env, ImmediateReg(g, k, v).ops, m0) == m'
    ensures var es, es', h := g.cache.entries, ImmediateReg(g, k, v).cache.entries, Where(ModifyReg(g, k).cache.entries, k);
            && (forall x :: x in held ==> Where(es', x) == Where(es, x) && (x != k ==> Where(es', x) != h))
            && |m'.host| == |m.host| && forall j :: 0 <= j < |m'.host| && j != h ==> m'.host[j] == m.host[j]
  {
    var m1 := ModifySim(env, g, m0, m, held, rf, k);
    var g1 := ModifyReg(g, k);
    SignMovesNothing(g1.cache.entries, Where(g1.cache.entries, k), held);
    ImmediateHost(env, g, g1, m0, m1, k, v, Where(g1.cache.entries, k));
  }

  lemma ImmediateHost(env: Env, g: Gen, g1: Gen, m0: Machine, m1: Machine, k: nat, v: Host, h: nat)
    requires g1 == ModifyReg(g, k) && Exec(env, g1.ops, m0) == m1 && h == Where(g1.cache.entries, k) < |g1.cache.entries| == |m1.host|
    ensures Exec(env, ImmediateReg(g, k, v).ops, m0) == Poke(m1, h, v)
    ensures ImmediateReg(g, k, v).cache.entries == g1.cache.entries[h := g1.cache.entries[h].(sign := SExt)]
  {
    RunOne(env, g1.ops, MovI(h, v), m0, m1, Poke(m1, h, v));
  }

  lemma SignMovesNothing(es: seq<Entry>, h: nat, held: multiset<nat>)
    requires h < |es|
    ensures forall x :: x in held ==> Where(es[h := es[h].(sign := SExt)], x) == Where(es, x)
  {
    forall x | x in held
      ensures Where(es[h := es[h].(sign := SExt)], x) == Where(es, x)
    {
      SameOwners(es, es[h := es[h].(sign := SExt)], x);
    }
  }

  /** Recording that a register's value is sign-extended, when it is. */
  lemma SignKnown(es: seq<Entry>, host: seq<Host>, sr: RegFile, held: multiset<nat>, rf: RegFile, h: nat, k: nat)
    requires Represents(es, host, sr, rf) && Held(es, held) && k <= COND
    requires h == Where(es, k) < |es| && HasExt(SExt, host[h])
    ensures Represents(es[h := es[h].(sign := SExt)], host, sr, rf)
    ensures Held(es[h := es[h].(sign := SExt)], held)
  {
    var e := es[h].(sign := SExt);
    assert Set(rf, k, host[h].lo) == rf && host[h := host[h]] == host;
    ClaimRegister(es, host, sr, rf, h, k, e, host[h]);
    forall x | x in held
      ensures Where(es[h := e], x) < |es|
    {
      assert Owns(es[h := e][Where(es, x)], x);
    }
  }

  // ----- flush -----

  /** An unlocked register may be written back and forgotten. */
  lemma ForgetMeaning(es: seq<Entry>, host: seq<Host>, sr: RegFile, rf: RegFile, h: nat)
    requires Represents(es, host, sr, rf) && h < |es| && es[h].live
    requires es[h].mips < SR_WORDS ==> sr[es[h].mips] == rf[es[h].mips]
    ensures Represents(es[h := EMPTY], host, sr, rf)
  {
    var es' := es[h := EMPTY];
    forall x | 0 < x < SR_WORDS && Where(es', x) == |es'|
      ensures sr[x] == rf[x]
    {
      assert forall j :: 0 <= j < |es| && j != h ==> es'[j] == es[j];
    }
  }

  lemma FlushEntrySim(env: Env, g: Gen, m0: Machine, m: Machine, rf: RegFile, h: nat)
    returns (m': Machine)
    requires Exec(env, g.ops, m0) == m && Good(g.cache, m, multiset{}, rf) && h < |g.cache.entries|
    ensures var g' := FlushEntry(g, h);
            && Exec(env, g'.ops, m0) == m' && m' == m.(sr := m'.sr)
            && Good(g'.cache, m', multiset{}, rf)
            && g'.cache.callerSaved == g.cache.callerSaved
            && |g'.cache.entries| == |g.cache.entries| && !g'.cache.entries[h].live
            && forall j :: 0 <= j < |g.cache.entries| && j != h ==> g'.cache.entries[j] == g.cache.entries[j]
  {
    var es := g.cache.entries;
    m' := m;
    if es[h].live {
      RunEvict(env, g, h, m0, m);
      WriteBackMeaning(es, m.host, m.sr, rf, h);
      m' := m.(sr := Written(es[h], m.host[h], m.sr));
      ForgetMeaning(es, m'.host, m'.sr, rf, h);
    }
  }

  predicate FirstDead(es: seq<Entry>, es': seq<Entry>, n: nat) {
    && |es'| == |es|
    && (forall j :: 0 <= j < n && j < |es| ==> !es'[j].live)
    && forall j :: n <= j < |es| ==> es'[j] == es[j]
  }

  lemma FirstDeadStep(es: seq<Entry>, es1: seq<Entry>, es2: seq<Entry>, n: nat)
    requires 0 < n <= |es| && FirstDead(es, es1, n - 1) && |es2| == |es1| && !es2[n - 1].live
    requires forall j :: 0 <= j < |es1| && j != n - 1 ==> es2[j] == es1[j]
    ensures FirstDead(es, es2, n)
  {
  }

  /** Flushing the first n registers empties exactly those and changes no meaning. */
  lemma {:induction false} FlushFirstSim(env: Env, g: Gen, m0: Machine, m: Machine, rf: RegFile, n: nat)
    returns (m': Machine)
    requires Exec(env, g.ops, m0) == m && Good(g.cache, m, multiset{}, rf) && n <= |g.cache.entries|
    ensures var g' := FlushFirst(g, n);
            && Exec(env, g'.ops, m0) == m' && m' == m.(sr := m'.sr)
            && Good(g'.cache, m', multiset{}, rf)
            && g'.cache.callerSaved == g.cache.callerSaved
            && FirstDead(g.cache.entries, g'.cache.entries, n)
    decreases n
  {
    if n == 0 {
      m' := m;
      NoneFlushed(g);
    } else {
      var i: nat := n - 1;
      var g1 := FlushFirst(g, i);
      var m1 := FlushFirstSim(env, g, m0, m, rf, i);
      m' := FlushNextSim(env, g, g1, m0, m1, rf, i, n);
      assert FlushFirst(g, n) == FlushEntry(g1, i);
    }
  }

  lemma NoneFlushed(g: Gen)
    ensures FlushFirst(g, 0) == g && FirstDead(g.cache.entries, g.cache.entries, 0)
  {
  }

  lemma FlushNextSim(env: Env, g: Gen, g1: Gen, m0: Machine, m: Machine, rf: RegFile, i: nat, n: nat) returns (m': Machine)
    requires Exec(env, g1.ops, m0) == m && Good(g1.cache, m, multiset{}, rf) && n == i + 1 && n <= |g1.cache.entries|
    requires g1.cache.callerSaved == g.cache.callerSaved && FirstDead(g.cache.entries, g1.cache.entries, i)
    ensures var g' := FlushEntry(g1, i);
            && Exec(env, g'.ops, m0) == m' && m' == m.(sr := m'.sr) && Good(g'.cache, m', multiset{}, rf)
            && g'.cache.callerSaved == g.cache.callerSaved && FirstDead(g.cache.entries, g'.cache.entries, n)
  {
    m' := FlushEntrySim(env, g1, m0, m, rf, i);
    FirstDeadStep(g.cache.entries, g1.cache.entries, FlushEntry(g1, i).cache.entries, n);
  }

  predicate AllDead(es: seq<Entry>) { forall j :: 0 <= j < |es| ==> !es[j].live }

  /** A full flush leaves the plain register file in memory and no register in use. */
  lemma FlushAllSim(env: Env, g: Gen, m0: Machine, m: Machine, rf: RegFile)
    returns (m': Machine)
    requires Exec(env, g.ops, m0) == m && Good(g.cache, m, multiset{}, rf)
    ensures var g' := FlushAll(g);
            && Exec(env, g'.ops, m0) == m' && m' == m.(sr := rf)
            && Good(g'.cache, m', multiset{}, rf) && AllDead(g'.cache.entries)
            && g'.cache.callerSaved == g.cache.callerSaved && |g'.cache.entries| == |g.cache.entries|
  {
    m' := FlushFirstSim(env, g, m0, m, rf, |g.cache.entries|);
    DeadMeansMemory(FlushAll(g).cache.entries, m', rf);
  }

  lemma DeadMeansMemory(es: seq<Entry>, m: Machine, rf: RegFile)
    requires Represents(es, m.host, m.sr, rf) && AllDead(es)
    ensures m.sr == rf
  {
    forall k | 0 < k < SR_WORDS ensures m.sr[k] == rf[k] {
      assert Where(es, k) == |es|;
    }
  }

  /** With nothing cached, memory is the register file. */
  lemma DeadRepresents(c: Cache, m: Machine)
    requires Sound(c) && AllDead(c.entries) && |c.entries| == |m.host| && m.sr[0] == 0
    requires forall j :: 0 <= j < |c.entries| ==> c.entries[j].locks == 0
    ensures Good(c, m, multiset{}, m.sr)
  {
  }

  lemma FlushCallerSavedSim(env: Env, g: Gen, m0: Machine, m: Machine, rf: RegFile)
    returns (m': Machine)
    requires Exec(env, g.ops, m0) == m && Good(g.cache, m, multiset{}, rf)
    ensures var g' := FlushCallerSaved(g);
            && Exec(env, g'.ops, m0) == m' && m' == m.(sr := m'.sr)
            && Good(g'.cache, m', multiset{}, rf)
            && g'.cache.callerSaved == g.cache.callerSaved && |g'.cache.entries| == |g.cache.entries|
            && forall j :: 0 <= j < g.cache.callerSaved ==> !g'.cache.entries[j].live
  {
    m' := FlushFirstSim(env, g, m0, m, rf, g.cache.callerSaved);
  }

  lemma FlushOneSim(env: Env, g: Gen, m0: Machine, m: Machine, rf: RegFile, k: nat)
    returns (m': Machine)
    requires Exec(env, g.ops, m0) == m && Good(g.cache, m, multiset{}, rf)
    ensures var g' := FlushOne(g, k);
            && Exec(env, g'.ops, m0) == m' && m' == m.(sr := m'.sr)
            && Good(g'.cache, m', multiset{}, rf)
            && g'.cache.callerSaved == g.cache.callerSaved && |g'.cache.entries| == |g.cache.entries|
            && Where(g'.cache.entries, k) == |g'.cache.entries|
            && forall j :: 0 <= j < |g.cache.entries| && !g.cache.entries[j].live ==> !g'.cache.entries[j].live
  {
    var h := Where(g.cache.entries, k);
    m' := m;
    if h < |g.cache.entries| {
      m' := FlushEntrySim(env, g, m0, m, rf, h);
      assert forall j :: 0 <= j < |g.cache.entries| ==> !Owns(FlushEntry(g, h).cache.entries[j], k);
    }
  }

  // ----- calls -----

  /** A call destroys caller-saved registers; nothing is lost if they are empty. */
  lemma CallMeaning(env: Env, c: Cache, m: Machine, rf: RegFile, world: World)
    requires Good(c, m, multiset{}, rf) && env.callerSaved == c.callerSaved
    requires forall j :: 0 <= j < c.callerSaved ==> !c.entries[j].live
    ensures Good(c, AfterCall(env, m, world), multiset{}, rf)
    ensures |AfterCall(env, m, world).host| == |m.host|
    ensures forall j :: c.callerSaved <= j < |m.host| ==> AfterCall(env, m, world).host[j] == m.host[j]
  {
  }

  /** Writing a register's memory word while it is not cached. */
  lemma PokeUncached(c: Cache, m: Machine, rf: RegFile, k: nat, v: Word)
    requires Good(c, m, multiset{}, rf) && 0 < k < SR_WORDS && Where(c.entries, k) == |c.entries|
    ensures Good(c, PokeSr(m, k, v), multiset{}, Set(rf, k, v))
  {
  }
}
