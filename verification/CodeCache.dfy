/**
 * Compiled code is kept behind dirty bits and a hash. As long as every instruction-memory write is
 * either marked as it happens or found by the compare pass before the next run, the code returned for
 * a program counter was generated from the words that are in its region now, unless two different
 * regions that were met share a hash.
 */
module CodeCache {
  import opened Words
  import opened Bits
  import opened Isa
  import opened Region

  const CODE_BLOCKS: nat := 16

  /** Generated code, identified by what it was generated from. */
  datatype Func = Func(base: nat, words: seq<Word>)

  datatype Slot = Empty | Code(func: Func)

  type Slots = s: seq<Slot> | |s| == MEM_WORDS witness seq(MEM_WORDS, _ => Empty)

  /** `compiled` is the table cached_blocks, keyed by word and hash; `dirty` holds the bits of dirty_blocks. */
  datatype State = State(imem: Imem, cached: Imem, blocks: Slots, dirty: set<nat>, compiled: map<(nat, nat), Func>)

  // ----- regions and hashes -----

  /** The region jit_region would compile at word w. */
  function RegionAt(imem: Imem, w: nat): Func
    requires w < MEM_WORDS
  {
    Func(w, imem[w..RegionEnd(imem, w)])
  }

  /** f holds the words of a whole region. */
  predicate Whole(f: Func) {
    f.base + |f.words| <= MEM_WORDS && f.base < MEM_WORDS && RegionEnd(Image(f), f.base) == f.base + |f.words|
  }

  /** The words f was generated from, in place. */
  function Image(f: Func): Imem
    requires f.base + |f.words| <= MEM_WORDS
  {
    seq(MEM_WORDS, k requires 0 <= k < MEM_WORDS => if f.base <= k < f.base + |f.words| then f.words[k - f.base] else 0)
  }

  predicate Shows(imem: Imem, f: Func) {
    f.base + |f.words| <= MEM_WORDS && forall k :: 0 <= k < |f.words| ==> imem[f.base + k] == f.words[k]
  }

  /** Two memories that show the same whole region have the same region there. */
  lemma SameRegion(imem: Imem, f: Func)
    requires Whole(f) && Shows(imem, f)
    ensures RegionAt(imem, f.base) == f
  {
    EndDeterminedByRegion(Image(f), imem, f.base, RegionLimit(f.base));
  }

  lemma RegionIsWhole(imem: Imem, w: nat)
    requires w < MEM_WORDS
    ensures Whole(RegionAt(imem, w)) && Shows(imem, RegionAt(imem, w))
  {
    var f := RegionAt(imem, w);
    EndDeterminedByRegion(imem, Image(f), w, RegionLimit(w));
  }

  const FNV_PRIME: nat := 0x100_0000_01b3
  const FNV_BASIS: nat := 0xcbf2_9ce4_8422_2325

  function Mix(h: nat, x: nat): nat { Bitwise(BitXor, (h * FNV_PRIME) % 0x1_0000_0000_0000_0000, x, 64) }

  function MixAll(h: nat, words: seq<Word>, n: nat): nat
    requires n <= |words|
  {
    if n == 0 then h else Mix(MixAll(h, words, n - 1), words[n - 1])
  }

  /** FNV-1 over the position, the length and the words. */
  function Hash(f: Func): nat { MixAll(Mix(Mix(FNV_BASIS, f.base), |f.words|), f.words, |f.words|) }

  method HashImem(imem: Imem, pc: nat, count: nat) returns (h: nat)
    requires pc + count <= MEM_WORDS
    ensures h == Hash(Func(pc, imem[pc..pc + count]))
  {
    ghost var words := imem[pc..pc + count];
    h := Mix(Mix(FNV_BASIS, pc), count);
    for i := 0 to count
      invariant h == MixAll(Mix(Mix(FNV_BASIS, pc), count), words, i)
    {
      h := Mix(h, imem[pc + i]);
    }
  }

  lemma {:induction false} XorZero(x: nat, n: nat)
    requires x < Pow2(n)
    ensures Bitwise(BitXor, x, 0, n) == x
  {
    if n > 0 {
      XorZero(x / 2, n - 1);
    }
  }

  lemma XorOne(x: nat, n: nat)
    requires n > 0 && x < Pow2(n)
    ensures Bitwise(BitXor, x, 1, n) == if x % 2 == 0 then x + 1 else x - 1
  {
    XorZero(x / 2, n - 1);
  }

  lemma TwoToSixtyFour()
    ensures Pow2(64) == 0x1_0000_0000_0000_0000
  {
    WordWidth();
    PowSplit(32, 32);
  }

  /** The hash of the single word 1 at position 1, as a number: multiply by the 64-bit prime, then add the value, three times. */
  lemma HashOfOne()
    ensures Hash(Func(1, [1])) == 0xD949AD186C0C4E40
  {
    TwoToSixtyFour();
    MixOne(0xCBF29CE484222325, 0xAF63BD4C8601B7DF);
    MixOne(0xAF63BD4C8601B7DE, 0x08328707B4EB6E3A);
    MixOne(0x08328707B4EB6E3B, 0xD949AD186C0C4E41);
    assert MixAll(0x08328707B4EB6E3B, [1], 1) == Mix(MixAll(0x08328707B4EB6E3B, [1], 0), 1);
  }

  lemma MixOne(h: nat, p: nat)
    requires p == h * 0x100_0000_01B3 % 0x1_0000_0000_0000_0000 && Pow2(64) == 0x1_0000_0000_0000_0000
    ensures Mix(h, 1) == if p % 2 == 0 then p + 1 else p - 1
  {
    XorOne(p, 64);
  }

  // ----- marking -----

  /** The bits of (0x3 << block) >> 1. */
  function Mark(block: nat): set<nat> { if block == 0 then {0} else {block - 1, block} }

  /** Bit b of (3 * 2^block) / 2 is set exactly for the block and the one before it. */
  lemma MarkIsShift(block: nat, b: nat)
    ensures BitSet(3 * Pow2(block) / 2, b) <==> b in Mark(block)
  {
    if block > 0 {
      MarkShifted(block - 1, b);
    } else if b > 0 {
      assert Pow2(b) == 2 * Pow2(b - 1);
      assert 1 / Pow2(b) == 0;
    }
  }

  lemma MarkShifted(c: nat, b: nat)
    ensures Pow2(c + 1) == 2 * Pow2(c)
    ensures BitSet(3 * Pow2(c + 1) / 2, b) <==> b == c || b == c + 1
  {
    var p := Pow2(c);
    assert 3 * Pow2(c + 1) / 2 == 3 * p;
    if b <= c {
      PowSplit(c - b, b);
      var q := Pow2(c - b);
      assert 3 * p == 3 * q * Pow2(b);
      DivExact(3 * q, Pow2(b));
      if b < c { assert q == 2 * Pow2(c - b - 1); }
    } else if b == c + 1 {
      DivBetween(3 * p, 2 * p, 1);
    } else {
      PowSplit(b - c - 2, c + 2);
      assert Pow2(c + 2) == 4 * p;
      assert Pow2(b - c - 2) >= 1;
      AtLeast(Pow2(b - c - 2), 4 * p);
      DivBetween(3 * p, Pow2(b), 0);
    }
  }

  // ----- operations -----

  function BlockOf(k: nat): nat { k / CODE_BLOCK_WORDS }

  predicate SameBlock(a: Imem, b: Imem, c: nat) { forall k :: 0 <= k < MEM_WORDS && BlockOf(k) == c ==> a[k] == b[k] }

  /** A word written by the processor's own DMA, which marks as it writes. */
  function DmaWrite(s: State, k: nat, v: Word): State
    requires k < MEM_WORDS
  {
    s.(imem := s.imem[k := v], dirty := s.dirty + Mark(BlockOf(k)))
  }

  /** A word written from outside. */
  function OuterWrite(s: State, k: nat, v: Word): State
    requires k < MEM_WORDS
  {
    s.(imem := s.imem[k := v])
  }

  /** What the compare pass marks after n blocks. */
  function Stale(s: State, n: nat): set<nat> {
    if n == 0 then {} else Stale(s, n - 1) + if SameBlock(s.cached, s.imem, n - 1) then {} else Mark(n - 1)
  }

  /** invalidate_imem */
  function Compare(s: State): State { s.(dirty := s.dirty + Stale(s, CODE_BLOCKS)) }

  /** invalidate_code */
  function DropDirty(s: State): State {
    s.(blocks := seq(MEM_WORDS, k requires 0 <= k < MEM_WORDS => if BlockOf(k) in s.dirty then Empty else s.blocks[k]),
       cached := seq(MEM_WORDS, k requires 0 <= k < MEM_WORDS => if BlockOf(k) in s.dirty then s.imem[k] else s.cached[k]),
       dirty := {})
  }

  datatype Found = Found(s: State, func: Func)

  /** get_jit_block */
  function Lookup(s: State, w: nat): Found
    requires w < MEM_WORDS
  {
    if s.blocks[w].Code? then Found(s, s.blocks[w].func)
    else
      var region := RegionAt(s.imem, w);
      var key := (w, Hash(region));
      var f := if key in s.compiled then s.compiled[key] else region;
      Found(s.(blocks := s.blocks[w := Code(f)], compiled := s.compiled[key := f]), f)
  }

  // ----- what every event keeps -----

  /** The state, whether an outside write has not been compared yet, and every region met so far. */
  datatype Track = Track(s: State, outside: bool, met: set<Func>)

  datatype Event = Dma(k: nat, v: Word) | Outer(k: nat, v: Word) | ComparePass | BeginRun | Fetch(w: nat)

  /** Outside writes are compared before the next run; code is fetched only while nothing is marked. */
  predicate Allowed(t: Track, e: Event) {
    match e
    case Dma(k, _) => k < MEM_WORDS
    case Outer(k, _) => k < MEM_WORDS
    case ComparePass => true
    case BeginRun => !t.outside
    case Fetch(w) => w < MEM_WORDS && !t.outside && t.s.dirty == {}
  }

  function After(t: Track, e: Event): Track
    requires Allowed(t, e)
  {
    match e
    case Dma(k, v) => t.(s := DmaWrite(t.s, k, v))
    case Outer(k, v) => t.(s := OuterWrite(t.s, k, v), outside := true)
    case ComparePass => t.(s := Compare(t.s), outside := false)
    case BeginRun => t.(s := DropDirty(t.s))
    case Fetch(w) => t.(s := Lookup(t.s, w).s, met := t.met + {RegionAt(t.s.imem, w)})
  }

  predicate CollisionFree(met: set<Func>) {
    forall f, g :: f in met && g in met && f.base == g.base && Hash(f) == Hash(g) ==> f == g
  }

  predicate Known(t: Track) {
    && (forall w :: 0 <= w < MEM_WORDS && t.s.blocks[w].Code? ==>
          var f := t.s.blocks[w].func; f in t.met && f.base == w && Whole(f))
    && (forall key :: key in t.s.compiled ==>
          var f := t.s.compiled[key]; f in t.met && f.base == key.0 && Hash(f) == key.1 && Whole(f))
  }

  /** Code in unmarked blocks shows what the compare pass would compare with. */
  predicate Faithful(t: Track) {
    forall w :: 0 <= w < MEM_WORDS && t.s.blocks[w].Code? && BlockOf(w) !in t.s.dirty ==> Shows(t.s.cached, t.s.blocks[w].func)
  }

  /** A block that changed is marked, and so is the one before it. */
  predicate Marked(s: State) {
    forall c: nat :: c < CODE_BLOCKS && !SameBlock(s.cached, s.imem, c) ==> Mark(c) <= s.dirty
  }

  predicate Coherent(t: Track) {
    && Known(t)
    && (CollisionFree(t.met) ==> Faithful(t))
    && (!t.outside ==> Marked(t.s))
  }

  /** A region starts in its block and reaches at most into the next. */
  lemma RegionSpan(f: Func, k: nat)
    requires Whole(f) && k < |f.words|
    ensures BlockOf(f.base) <= BlockOf(f.base + k) <= BlockOf(f.base) + 1
  {
  }

  /** If a region's block is not marked, the region is the same in both memories. */
  lemma UnmarkedShows(s: State, f: Func)
    requires Whole(f) && Marked(s) && BlockOf(f.base) !in s.dirty
    ensures Shows(s.cached, f) <==> Shows(s.imem, f)
  {
    forall k | 0 <= k < |f.words|
      ensures s.cached[f.base + k] == f.words[k] <==> s.imem[f.base + k] == f.words[k]
    {
      UnmarkedWord(s, f, k);
    }
  }

  lemma UnmarkedWord(s: State, f: Func, k: nat)
    requires Whole(f) && Marked(s) && BlockOf(f.base) !in s.dirty && k < |f.words|
    ensures s.cached[f.base + k] == s.imem[f.base + k]
  {
    RegionSpan(f, k);
    var c := BlockOf(f.base + k);
    assert BlockOf(f.base) in Mark(c);
    assert SameBlock(s.cached, s.imem, c);
  }

  lemma MarkedAfterDma(s: State, k: nat, v: Word)
    requires k < MEM_WORDS && Marked(s)
    ensures Marked(DmaWrite(s, k, v))
  {
    var s' := DmaWrite(s, k, v);
    forall c: nat | c < CODE_BLOCKS && !SameBlock(s'.cached, s'.imem, c)
      ensures Mark(c) <= s'.dirty
    {
      if c != BlockOf(k) {
        var j :| 0 <= j < MEM_WORDS && BlockOf(j) == c && s'.cached[j] != s'.imem[j];
        assert !SameBlock(s.cached, s.imem, c);
      }
    }
  }

  lemma {:induction false} StaleHas(s: State, n: nat, c: nat)
    requires c < n && !SameBlock(s.cached, s.imem, c)
    ensures Mark(c) <= Stale(s, n)
  {
    if c < n - 1 {
      StaleHas(s, n - 1, c);
    }
  }

  lemma MarkedAfterCompare(s: State)
    ensures Marked(Compare(s))
  {
    forall c: nat | c < CODE_BLOCKS && !SameBlock(s.cached, s.imem, c)
      ensures Mark(c) <= Compare(s).dirty
    {
      StaleHas(s, CODE_BLOCKS, c);
    }
  }

  /** Dropping dirty blocks brings the copy up to date everywhere. */
  lemma CachedAfterDrop(s: State)
    requires Marked(s)
    ensures DropDirty(s).cached == s.imem
  {
    var s' := DropDirty(s);
    forall k | 0 <= k < MEM_WORDS
      ensures s'.cached[k] == s.imem[k]
    {
      var c := BlockOf(k);
      if c !in s.dirty {
        assert c in Mark(c);
        assert SameBlock(s.cached, s.imem, c);
      }
    }
  }

  lemma CoherentAfterDrop(t: Track)
    requires Coherent(t) && !t.outside
    ensures Coherent(After(t, BeginRun))
  {
    var t' := After(t, BeginRun);
    CachedAfterDrop(t.s);
    if CollisionFree(t.met) {
      forall w | 0 <= w < MEM_WORDS && t'.s.blocks[w].Code?
        ensures Shows(t'.s.cached, t'.s.blocks[w].func)
      {
        UnmarkedShows(t.s, t.s.blocks[w].func);
      }
    }
  }

  lemma CollisionFreeSubset(a: set<Func>, b: set<Func>)
    requires a <= b && CollisionFree(b)
    ensures CollisionFree(a)
  {
  }

  /** With nothing marked, the two memories agree. */
  lemma CleanCopies(s: State)
    requires Marked(s) && s.dirty == {}
    ensures s.cached == s.imem
  {
    forall k | 0 <= k < MEM_WORDS
      ensures s.cached[k] == s.imem[k]
    {
      assert BlockOf(k) in Mark(BlockOf(k));
      assert SameBlock(s.cached, s.imem, BlockOf(k));
    }
  }

  /** The code fetched was generated from the region's present words. */
  lemma FetchIsCurrent(t: Track, w: nat)
    requires Coherent(t) && Allowed(t, Fetch(w)) && CollisionFree(After(t, Fetch(w)).met)
    ensures Lookup(t.s, w).func == RegionAt(t.s.imem, w)
  {
    CleanCopies(t.s);
    CollisionFreeSubset(t.met, After(t, Fetch(w)).met);
    if t.s.blocks[w].Code? {
      SameRegion(t.s.imem, t.s.blocks[w].func);
    }
  }

  lemma KnownAfterFetch(t: Track, w: nat)
    requires Known(t) && Allowed(t, Fetch(w))
    ensures Known(After(t, Fetch(w)))
  {
    RegionIsWhole(t.s.imem, w);
    FoundIsKnown(t, w, Lookup(t.s, w).func);
  }

  /** The function found was met, belongs to the word and is a whole region. */
  lemma FoundIsKnown(t: Track, w: nat, f: Func)
    requires Known(t) && Allowed(t, Fetch(w)) && f == Lookup(t.s, w).func && Whole(RegionAt(t.s.imem, w))
    ensures f in After(t, Fetch(w)).met && f.base == w && Whole(f)
    ensures !t.s.blocks[w].Code? ==> Hash(f) == Hash(RegionAt(t.s.imem, w))
  {
  }

  lemma CoherentAfterFetch(t: Track, w: nat)
    requires Coherent(t) && Allowed(t, Fetch(w))
    ensures Coherent(After(t, Fetch(w)))
  {
    KnownAfterFetch(t, w);
    var t' := After(t, Fetch(w));
    if CollisionFree(t'.met) {
      FetchIsCurrent(t, w);
      CleanCopies(t.s);
      RegionIsWhole(t.s.imem, w);
      CollisionFreeSubset(t.met, t'.met);
    }
  }

  /** Every allowed event keeps the code cache coherent. */
  lemma CoherentStep(t: Track, e: Event)
    requires Coherent(t) && Allowed(t, e)
    ensures Coherent(After(t, e))
  {
    match e
    case Dma(k, v) => if !t.outside { MarkedAfterDma(t.s, k, v); }
    case Outer(k, v) =>
    case ComparePass => MarkedAfterCompare(t.s);
    case BeginRun => CoherentAfterDrop(t);
    case Fetch(w) => CoherentAfterFetch(t, w);
  }

  // ----- whole runs -----

  /** At power-on nothing is compiled and the memory has not been looked at. */
  function Initial(imem: Imem): Track {
    Track(State(imem, seq(MEM_WORDS, _ => 0), seq(MEM_WORDS, _ => Empty), {}, map[]), true, {})
  }

  predicate AllAllowed(t: Track, events: seq<Event>)
    decreases |events|
  {
    events == [] || (Allowed(t, events[0]) && AllAllowed(After(t, events[0]), events[1..]))
  }

  function Replay(t: Track, events: seq<Event>): Track
    requires AllAllowed(t, events)
    decreases |events|
  {
    if events == [] then t else Replay(After(t, events[0]), events[1..])
  }

  lemma {:induction false} CoherentReplay(t: Track, events: seq<Event>)
    requires Coherent(t) && AllAllowed(t, events)
    ensures Coherent(Replay(t, events))
    decreases |events|
  {
    if events != [] {
      CoherentStep(t, events[0]);
      CoherentReplay(After(t, events[0]), events[1..]);
    }
  }

  /** After any run of allowed events, a fetch returns current code or two regions met share a hash. */
  lemma FetchAfterRun(imem: Imem, events: seq<Event>, w: nat)
    requires AllAllowed(Initial(imem), events) && Allowed(Replay(Initial(imem), events), Fetch(w))
    ensures var t := Replay(Initial(imem), events);
            || Lookup(t.s, w).func == RegionAt(t.s.imem, w)
            || !CollisionFree(After(t, Fetch(w)).met)
  {
    CoherentReplay(Initial(imem), events);
    var t := Replay(Initial(imem), events);
    if CollisionFree(After(t, Fetch(w)).met) {
      FetchIsCurrent(t, w);
    }
  }

  // ----- the same operations in place -----

  class CodeStore {
    const imem: array<Word>
    const cached: array<Word>
    const blocks: array<Slot>
    var dirty: set<nat>
    var compiled: map<(nat, nat), Func>

    ghost predicate Valid()
      reads this
    {
      imem.Length == cached.Length == blocks.Length == MEM_WORDS && imem != cached
    }

    ghost function Value(): State
      requires Valid()
      reads this, imem, cached, blocks
    {
      State(imem[..], cached[..], blocks[..], dirty, compiled)
    }

    constructor (imem: array<Word>)
      requires imem.Length == MEM_WORDS
      ensures Valid() && fresh(cached) && fresh(blocks) && this.imem == imem
      ensures Value() == Initial(imem[..]).s
    {
      this.imem := imem;
      cached := new Word[MEM_WORDS](_ => 0);
      blocks := new Slot[MEM_WORDS](_ => Empty);
      dirty, compiled := {}, map[];
      new;
      assert cached[..] == seq(MEM_WORDS, _ => 0) && blocks[..] == seq(MEM_WORDS, _ => Empty);
    }

    /** memcmp of one code block. */
    method BlockUnchanged(c: nat) returns (same: bool)
      requires Valid() && c < CODE_BLOCKS
      ensures same == SameBlock(cached[..], imem[..], c)
    {
      var k := c * CODE_BLOCK_WORDS;
      while k < (c + 1) * CODE_BLOCK_WORDS && cached[k] == imem[k]
        invariant c * CODE_BLOCK_WORDS <= k <= (c + 1) * CODE_BLOCK_WORDS
        invariant forall j :: c * CODE_BLOCK_WORDS <= j < k ==> cached[j] == imem[j]
      {
        k := k + 1;
      }
      same := k == (c + 1) * CODE_BLOCK_WORDS;
      assert !same ==> BlockOf(k) == c && cached[..][k] != imem[..][k];
    }

    method InvalidateImem()
      requires Valid()
      modifies this`dirty
      ensures Valid() && Value() == Compare(old(Value()))
    {
      for i := 0 to CODE_BLOCKS
        invariant dirty == old(dirty) + Stale(old(Value()), i)
      {
        var same := BlockUnchanged(i);
        if !same { dirty := dirty + Mark(i); }
      }
    }

    /** Forget the code of one block and copy its words. */
    method DropBlock(c: nat)
      requires Valid() && c < CODE_BLOCKS
      modifies cached, blocks
      ensures forall k :: 0 <= k < MEM_WORDS ==> blocks[k] == if BlockOf(k) == c then Empty else old(blocks[k])
      ensures forall k :: 0 <= k < MEM_WORDS ==> cached[k] == if BlockOf(k) == c then imem[k] else old(cached[k])
    {
      for k := c * CODE_BLOCK_WORDS to (c + 1) * CODE_BLOCK_WORDS
        invariant forall j :: 0 <= j < MEM_WORDS ==> blocks[j] == if BlockOf(j) == c && j < k then Empty else old(blocks[j])
        invariant forall j :: 0 <= j < MEM_WORDS ==> cached[j] == if BlockOf(j) == c && j < k then imem[j] else old(cached[j])
      {
        blocks[k], cached[k] := Empty, imem[k];
      }
    }

    method InvalidateCode()
      requires Valid()
      modifies this`dirty, cached, blocks
      ensures Valid() && Value() == DropDirty(old(Value()))
    {
      if dirty == {} {
        assert DropDirty(Value()).blocks == Value().blocks && DropDirty(Value()).cached == Value().cached;
        return;
      }
      for i := 0 to CODE_BLOCKS
        invariant dirty == old(dirty)
        invariant forall k :: 0 <= k < MEM_WORDS ==>
          blocks[k] == if BlockOf(k) in dirty && BlockOf(k) < i then Empty else old(blocks[k])
        invariant forall k :: 0 <= k < MEM_WORDS ==>
          cached[k] == if BlockOf(k) in dirty && BlockOf(k) < i then imem[k] else old(cached[k])
      {
        if i in dirty { DropBlock(i); }
      }
      assert forall k :: 0 <= k < MEM_WORDS ==> BlockOf(k) < CODE_BLOCKS;
      dirty := {};
      assert blocks[..] == DropDirty(old(Value())).blocks && cached[..] == DropDirty(old(Value())).cached;
    }

    /** The scan up to the limit, which is computed in bytes. */
    method EndOf(address: nat) returns (end: nat)
      requires Valid() && address < 4096
      ensures end == RegionEnd(imem[..], address / 4)
    {
      LimitFormula(address);
      end := AnalyzeStaticEnd(imem[..], address / 4, Min((address + 2 * 256) / 256 * 64, 4096 / 4));
    }

    /** The address is masked to the memory; the block is looked up, found by hash, or compiled. */
    method GetJitBlock(pc: nat) returns (f: Func)
      requires Valid()
      modifies this`compiled, blocks
      ensures Valid() && Value() == Lookup(old(Value()), (pc % 4096) / 4).s && f == Lookup(old(Value()), (pc % 4096) / 4).func
    {
      var w := (pc % 4096) / 4;
      if blocks[w].Code? { return blocks[w].func; }
      var end := EndOf(pc % 4096);
      var h := HashImem(imem[..], w, end - w);
      f := Func(w, imem[w..end]);
      assert f == RegionAt(imem[..], w);
      if (w, h) in compiled { f := compiled[(w, h)]; }
      blocks[w] := Code(f);
      compiled := compiled[(w, h) := f];
      assert blocks[..] == old(blocks[..])[w := Code(f)];
    }
  }
}
