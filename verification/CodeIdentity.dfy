/**
 * Generated code is a function of the words of its region, so code that was generated from the words
 * now in memory is the code that compiling them again would give.
 */
module CodeIdentity {
  import opened Words
  import opened Isa
  import opened HostCode
  import opened RegCache
  import opened Region
  import opened Recompiler
  import opened CompiledRun
  import CodeCache

  lemma SameEntry(a: Imem, b: Imem, base: nat, end: nat, i: nat)
    requires end <= MEM_WORDS && Agree(a, b, base, end)
    ensures IsEntry(a, base, end, i) <==> IsEntry(b, base, end, i)
  {
  }

  lemma SameInfo(a: Imem, b: Imem, base: nat, end: nat, i: nat)
    requires base + i < end <= MEM_WORDS && Agree(a, b, base, end)
    ensures SlotIsEntry(a, base, end, i) == SlotIsEntry(b, base, end, i)
    ensures InfoAt(a, base, end, i) == InfoAt(b, base, end, i)
  {
    SameEntry(a, b, base, end, i + 1);
  }

  lemma {:induction false} SameFront(a: Imem, b: Imem, base: nat, end: nat, c0: Cache, i: nat) returns (f: Front)
    requires base + i < end <= MEM_WORDS && Agree(a, b, base, end)
    ensures f == FrontAt(a, base, end, c0, i) && f == FrontAt(b, base, end, c0, i)
    decreases i, 0
  {
    SameEntry(a, b, base, end, i);
    if i == 0 {
      f := FrontAt(a, base, end, c0, i);
    } else {
      var p := SameBody(a, b, base, end, c0, i - 1);
      SameInfo(a, b, base, end, i - 1);
      f := FrontBehind(a, base, end, c0, i, p.cache);
      var f' := FrontBehind(b, base, end, c0, i, p.cache);
    }
  }

  lemma {:induction false} SameBody(a: Imem, b: Imem, base: nat, end: nat, c0: Cache, i: nat) returns (p: Piece)
    requires base + i < end <= MEM_WORDS && Agree(a, b, base, end)
    ensures p == Body(a, base, end, c0, i) && p == Body(b, base, end, c0, i)
    decreases i, 1
  {
    var f := SameFront(a, b, base, end, c0, i);
    SameInfo(a, b, base, end, i);
    p := SamePieces(a, b, base, end, c0, i, f, InfoAt(a, base, end, i), SlotIsEntry(a, base, end, i));
  }

  lemma SamePieces(a: Imem, b: Imem, base: nat, end: nat, c0: Cache, i: nat, f: Front, info: Info, slotIsEntry: bool)
    returns (r: Piece)
    requires base + i < end <= MEM_WORDS && a[base + i] == b[base + i]
    requires f == FrontAt(a, base, end, c0, i) && f == FrontAt(b, base, end, c0, i)
    requires info == InfoAt(a, base, end, i) && info == InfoAt(b, base, end, i)
    requires slotIsEntry == SlotIsEntry(a, base, end, i) && slotIsEntry == SlotIsEntry(b, base, end, i)
    ensures r == Body(a, base, end, c0, i) && r == Body(b, base, end, c0, i)
  {
    var p := CompileInstr(f.cache, a[base + i], base + i, f.last, i == 0, slotIsEntry);
    var q := CompileSlot(p.cache, info, f.last, i == 0, base, end);
    BodyFrom(a, base, end, c0, i, f, info, slotIsEntry, p, q);
    BodyFrom(b, base, end, c0, i, f, info, slotIsEntry, p, q);
    r := Piece(p.nodes + q.nodes, q.cache);
  }

  /** Two memories with the same region at `base` get the same code for each of its instructions. */
  lemma SameCode(env: Env, a: Imem, b: Imem, base: nat, i: nat)
    requires InRegion(a, base, i) && CodeCache.RegionAt(a, base) == CodeCache.RegionAt(b, base)
    ensures InRegion(b, base, i) && BodyOf(env, a, base, i) == BodyOf(env, b, base, i)
  {
    var end := RegionEnd(a, base);
    RegionsAgree(a, b, base);
    var p := SameBody(a, b, base, end, StartCache(env), i);
  }

  lemma RegionsAgree(a: Imem, b: Imem, base: nat)
    requires base < MEM_WORDS && CodeCache.RegionAt(a, base) == CodeCache.RegionAt(b, base)
    ensures RegionEnd(a, base) == RegionEnd(b, base) && Agree(a, b, base, RegionEnd(a, base))
  {
    var f, end := CodeCache.RegionAt(a, base), RegionEnd(a, base);
    assert |f.words| == end - base;
    forall k | base <= k < end
      ensures a[k] == b[k]
    {
      assert f.words[k - base] == a[k] && f.words[k - base] == b[k];
    }
  }

  // ----- labels, the end of the block and the latent-slot code -----

  lemma SameEnd(env: Env, a: Imem, b: Imem, base: nat)
    requires base < MEM_WORDS && RegionEnd(a, base) == RegionEnd(b, base) && Agree(a, b, base, RegionEnd(a, base))
    ensures EndOf(env, a, base) == EndOf(env, b, base) && InfoIn(a, base, 0) == InfoIn(b, base, 0)
  {
    var end, n := RegionEnd(a, base), LastIndex(a, base);
    SameInfo(a, b, base, end, n);
    SameInfo(a, b, base, end, 0);
    var p := SameBody(a, b, base, end, StartCache(env), n);
  }

  /** Whatever the instruction's own code did, control goes on in the same way. */
  lemma SameContinue(env: Env, a: Imem, b: Imem, base: nat, i: nat, o: Outcome)
    requires InRegion(a, base, i) && RegionEnd(a, base) == RegionEnd(b, base) && Agree(a, b, base, RegionEnd(a, base))
    ensures Continue(env, a, base, i, o) == Continue(env, b, base, i, o)
  {
    var end := RegionEnd(a, base);
    match o
    case Next(m) => SameFallThrough(env, a, b, base, i, m);
    case Latent(m) => SameEnd(env, a, b, base);
    case Local(k, m) => SameEntry(a, b, base, end, k);
    case _ =>
  }

  lemma SameFallThrough(env: Env, a: Imem, b: Imem, base: nat, i: nat, m: Machine)
    requires InRegion(a, base, i) && RegionEnd(a, base) == RegionEnd(b, base) && Agree(a, b, base, RegionEnd(a, base))
    ensures FallThrough(env, a, base, i, m) == FallThrough(env, b, base, i, m)
  {
    var end := RegionEnd(a, base);
    if InRegion(a, base, i + 1) {
      SameEntry(a, b, base, end, i + 1);
      var p := SameBody(a, b, base, end, StartCache(env), i);
    } else {
      SameEnd(env, a, b, base);
    }
  }

  /** Two memories with the same region at `base` run it alike: bodies, labels, end of block and latent slot. */
  lemma SameStep(env: Env, a: Imem, b: Imem, base: nat, i: nat, m: Machine)
    requires InRegion(a, base, i) && CodeCache.RegionAt(a, base) == CodeCache.RegionAt(b, base)
    ensures InRegion(b, base, i) && JitStep(env, a, base, i, m) == JitStep(env, b, base, i, m)
  {
    RegionsAgree(a, b, base);
    SameCode(env, a, b, base, i);
    OpenStep(env, a, base, i, m);
    OpenStep(env, b, base, i, m);
    SameContinue(env, a, b, base, i, Run(env, BodyOf(env, a, base, i).nodes, m));
  }
}
