/**
 * The register cache of the recompiler as values: which host register holds which MIPS register,
 * in which extension, whether memory is stale, and how often it is locked. Every operation returns
 * the new cache together with the host operations it emits.
 *
 * `Represents` ties a cache and a host machine to the plain register file they stand for.
 */
module RegCache {
  import opened Words
  import opened Isa
  import opened HostCode

  const COND: nat := 32       // COND_BRANCH_TAKEN
  const SCRATCH0: nat := 33
  const SCRATCH1: nat := 34

  datatype Entry = Entry(mips: nat, stamp: nat, locks: nat, sign: Ext, live: bool, modified: bool)

  const EMPTY: Entry := Entry(0, 0, 0, SExt, false, false)

  /** `ok` is cleared when an assertion of the allocator fails. */
  datatype Cache = Cache(entries: seq<Entry>, clock: nat, callerSaved: nat, ok: bool)

  /** A cache under construction together with the code emitted so far. */
  datatype Gen = Gen(cache: Cache, ops: seq<Op>)

  predicate Owns(e: Entry, k: nat) { e.live && e.mips == k }

  /** The first live entry from i on that holds k, or |es|. */
  function FindLive(es: seq<Entry>, k: nat, i: nat): (r: nat)
    requires i <= |es|
    ensures i <= r <= |es|
    ensures r < |es| ==> Owns(es[r], k)
    ensures forall j :: i <= j < r ==> !Owns(es[j], k)
    decreases |es| - i
  {
    if i == |es| || Owns(es[i], k) then i else FindLive(es, k, i + 1)
  }

  /** The first entry from i on that holds nothing, or |es|. */
  function FindFree(es: seq<Entry>, i: nat): (r: nat)
    requires i <= |es|
    ensures i <= r <= |es|
    ensures r < |es| ==> !es[r].live
    ensures forall j :: i <= j < r ==> es[j].live
    decreases |es| - i
  {
    if i == |es| || !es[i].live then i else FindFree(es, i + 1)
  }

  predicate Evictable(e: Entry) { e.live && e.locks == 0 }

  /** The least recently used unlocked entry of the first n, or |es| when all are locked. */
  function Oldest(es: seq<Entry>, n: nat): (r: nat)
    requires n <= |es|
    ensures r < n || r == |es|
    ensures r < |es| ==> Evictable(es[r]) && forall j :: 0 <= j < n && Evictable(es[j]) ==> es[r].stamp <= es[j].stamp
    ensures r == |es| ==> forall j :: 0 <= j < n ==> !Evictable(es[j])
  {
    if n == 0 then |es|
    else
      var best := Oldest(es, n - 1);
      if Evictable(es[n - 1]) && (best == |es| || es[n - 1].stamp < es[best].stamp) then n - 1 else best
  }

  function FindRegister(es: seq<Entry>, k: nat): nat {
    var live := FindLive(es, k, 0);
    var free := FindFree(es, 0);
    if live < |es| then live else if free < |es| then free else Oldest(es, |es|)
  }

  /** Where register k lives; |es| when it is not cached. */
  function Where(es: seq<Entry>, k: nat): nat { FindLive(es, k, 0) }

  function Emit(g: Gen, op: Op): Gen { g.(ops := g.ops + [op]) }

  function SetEntry(c: Cache, h: nat, e: Entry): Cache
    requires h < |c.entries|
  {
    c.(entries := c.entries[h := e])
  }

  function Fail(g: Gen): Gen { g.(cache := g.cache.(ok := false)) }

  /** Scratch registers are never written to memory; register 0 must never be dirty. */
  function WriteBack(g: Gen, h: nat, e: Entry): Gen {
    var g1 := if e.mips == 0 then Fail(g) else g;
    if e.mips <= COND then Emit(g1, StoreSr(e.mips, h)) else g1
  }

  function Evict(g: Gen, h: nat): Gen
    requires h < |g.cache.entries|
  {
    if g.cache.entries[h].modified then WriteBack(g, h, g.cache.entries[h]) else g
  }

  function FillOp(h: nat, k: nat, ext: Ext): Op {
    if k == 0 then MovI(h, ZERO) else LoadSr(h, k, ext)
  }

  /**
   * How often generated code is wrapped in a recursive function that does nothing, so that proofs that
   * only pass code around do not look into it; the Open lemmas unwrap it.
   */
  const WRAPS: nat := 2

  /** load_mips_register_{noext,sext,zext}: bring k into a host register and lock it. */
  function LoadReg(g: Gen, k: nat, ext: Ext): Gen { WrappedLoad(g, k, ext, WRAPS) }

  function WrappedLoad(g: Gen, k: nat, ext: Ext, wraps: nat): Gen {
    if wraps > 0 then WrappedLoad(g, k, ext, wraps - 1) else LoadGen(g, k, ext)
  }

  lemma OpenLoad(g: Gen, k: nat, ext: Ext)
    ensures LoadReg(g, k, ext) == LoadGen(g, k, ext)
  {
    assert WrappedLoad(g, k, ext, 0) == LoadGen(g, k, ext);
    assert WrappedLoad(g, k, ext, 1) == WrappedLoad(g, k, ext, 0);
  }

  function LoadGen(g: Gen, k: nat, ext: Ext): Gen {
    var h := FindRegister(g.cache.entries, k);
    if h >= |g.cache.entries| || k > COND then Fail(g)
    else
      var e := g.cache.entries[h];
      var clock := g.cache.clock + 1;
      if Owns(e, k) then
        var convert := !ext.NoExt? && e.sign != ext;
        var g1 := if convert && k != 0 then Emit(g, Extend(h, ext)) else g;
        var e' := e.(sign := if convert then ext else e.sign, stamp := clock, locks := e.locks + 1);
        g1.(cache := SetEntry(g1.cache, h, e').(clock := clock))
      else
        var g1 := if e.live then Evict(g, h) else g;
        var g2 := Emit(g1, FillOp(h, k, ext));
        var e' := Entry(k, clock, e.locks + 1, if ext.ZExt? then ZExt else SExt, true, false);
        g2.(cache := SetEntry(g2.cache, h, e').(clock := clock))
  }

  /** modify_mips_register: reserve a host register for a new value of k and lock it. */
  function ModifyReg(g: Gen, k: nat): Gen { WrappedModify(g, k, WRAPS) }

  function WrappedModify(g: Gen, k: nat, wraps: nat): Gen {
    if wraps > 0 then WrappedModify(g, k, wraps - 1) else ModifyGen(g, k)
  }

  lemma OpenModify(g: Gen, k: nat)
    ensures ModifyReg(g, k) == ModifyGen(g, k)
  {
    assert WrappedModify(g, k, 0) == ModifyGen(g, k);
    assert WrappedModify(g, k, 1) == WrappedModify(g, k, 0);
  }

  function ModifyGen(g: Gen, k: nat): Gen {
    var h := FindRegister(g.cache.entries, k);
    if h >= |g.cache.entries| then Fail(g)
    else
      var e := g.cache.entries[h];
      var clock := g.cache.clock + 1;
      var g1 := if e.live && e.mips != k then Evict(g, h) else g;
      var e' := Entry(k, clock, e.locks + 1, NoExt, true, true);
      g1.(cache := SetEntry(g1.cache, h, e').(clock := clock))
  }

  /** immediate_mips_register */
  function ImmediateReg(g: Gen, k: nat, v: Host): Gen {
    var g1 := ModifyReg(g, k);
    var h := Where(g1.cache.entries, k);
    if h >= |g1.cache.entries| then Fail(g1)
    else
      var g2 := Emit(g1, MovI(h, v));
      g2.(cache := SetEntry(g2.cache, h, g2.cache.entries[h].(sign := SExt)))
  }

  /** unlock_mips_register */
  function UnlockReg(g: Gen, k: nat): Gen { WrappedUnlock(g, k, WRAPS) }

  function WrappedUnlock(g: Gen, k: nat, wraps: nat): Gen {
    if wraps > 0 then WrappedUnlock(g, k, wraps - 1) else UnlockGen(g, k)
  }

  lemma OpenUnlock(g: Gen, k: nat)
    ensures UnlockReg(g, k) == UnlockGen(g, k)
  {
    assert WrappedUnlock(g, k, 0) == UnlockGen(g, k);
    assert WrappedUnlock(g, k, 1) == WrappedUnlock(g, k, 0);
  }

  function UnlockGen(g: Gen, k: nat): Gen {
    var h := Where(g.cache.entries, k);
    if h >= |g.cache.entries| || g.cache.entries[h].locks == 0 then Fail(g)
    else g.(cache := SetEntry(g.cache, h, g.cache.entries[h].(locks := g.cache.entries[h].locks - 1)))
  }

  function FlushEntry(g: Gen, h: nat): Gen
    requires h < |g.cache.entries|
  {
    var e := g.cache.entries[h];
    if !e.live then g
    else
      var g1 := Evict(g, h);
      var g2 := if e.locks > 0 then Fail(g1) else g1;
      g2.(cache := SetEntry(g2.cache, h, EMPTY))
  }

  /** Flush the first n entries in order. */
  function FlushFirst(g: Gen, n: nat): (r: Gen)
    requires n <= |g.cache.entries|
    ensures |r.cache.entries| == |g.cache.entries|
  {
    if n == 0 then g else FlushEntry(FlushFirst(g, n - 1), n - 1)
  }

  /** flush_register_window */
  function FlushAll(g: Gen): Gen {
    var g1 := FlushFirst(g, |g.cache.entries|);
    g1.(cache := g1.cache.(clock := 0))
  }

  /** flush_caller_save_registers */
  function FlushCallerSaved(g: Gen): Gen {
    if g.cache.callerSaved <= |g.cache.entries| then FlushFirst(g, g.cache.callerSaved) else Fail(g)
  }

  /** flush_mips_register */
  function FlushOne(g: Gen, k: nat): Gen {
    var h := Where(g.cache.entries, k);
    if h >= |g.cache.entries| then g else FlushEntry(g, h)
  }

  /** reset */
  function Reset(c: Cache): Cache { c.(entries := seq(|c.entries|, _ => EMPTY)) }

  // ----- what a cache means -----

  /** A live entry's host value v is its register's value, in the recorded extension; clean means in memory too. */
  predicate EntryFaithful(e: Entry, v: Host, sr: RegFile, rf: RegFile) {
    && e.mips <= SCRATCH1
    && (e.mips == 0 ==> v == ZERO && !e.modified)
    && (e.mips <= COND ==>
          && HasExt(e.sign, v)
          && v.lo == rf[e.mips]
          && (!e.modified ==> sr[e.mips] == rf[e.mips]))
    && (e.mips == COND ==> HasExt(SExt, v))
  }

  predicate Distinct(es: seq<Entry>) {
    forall i, j :: 0 <= i < j < |es| && es[i].live && es[j].live ==> es[i].mips != es[j].mips
  }

  /** Cached registers and memory together hold the register file rf. */
  predicate Represents(es: seq<Entry>, host: seq<Host>, sr: RegFile, rf: RegFile) {
    && |es| == |host|
    && rf[0] == 0 && sr[0] == 0
    && Distinct(es)
    && (forall j :: 0 <= j < |es| && es[j].live ==> EntryFaithful(es[j], host[j], sr, rf))
    && (forall k :: 0 < k < SR_WORDS && Where(es, k) == |es| ==> sr[k] == rf[k])
  }

  /** The locks currently taken, one occurrence per lock. */
  predicate Held(es: seq<Entry>, held: multiset<nat>) {
    && (forall j :: 0 <= j < |es| ==> es[j].locks == if es[j].live then held[es[j].mips] else 0)
    && forall k :: k in held ==> Where(es, k) < |es|
  }

  /** The allocator has not failed and has at least three registers that calls may destroy. */
  predicate Sound(c: Cache) { c.ok && 3 <= c.callerSaved <= |c.entries| }
}
