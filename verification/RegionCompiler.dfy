/**
 * The loop that compiles a region: one pass over its instructions, keeping the register cache and
 * what is known of the instruction before, then the end of the block and the latent-slot code.
 */
module RegionCompiler {
  import opened Words
  import opened Isa
  import opened HostCode
  import opened RegCache
  import opened Region
  import opened Recompiler
  import opened CompiledRun

  /** One instruction of the output. */
  ghost predicate IsBody(imem: Imem, base: nat, end: nat, c0: Cache, i: nat, p: Piece) {
    base + i < end <= MEM_WORDS && p == Body(imem, base, end, c0, i)
  }

  ghost predicate IsFront(imem: Imem, base: nat, end: nat, c0: Cache, i: nat, f: Front) {
    base + i < end <= MEM_WORDS && f == FrontAt(imem, base, end, c0, i)
  }

  method CompileOne(imem: Imem, base: nat, end: nat, ghost c0: Cache, i: nat, f: Front, slotIsEntry: bool)
    returns (p: Piece, info: Info)
    requires IsFront(imem, base, end, c0, i, f) && slotIsEntry == SlotIsEntry(imem, base, end, i)
    ensures IsBody(imem, base, end, c0, i, p) && info == InfoAt(imem, base, end, i)
  {
    info := InfoOf(imem[base + i], base + i, slotIsEntry);
    var code := CompileInstr(f.cache, imem[base + i], base + i, f.last, i == 0, slotIsEntry);
    var slot := CompileSlot(code.cache, info, f.last, i == 0, base, end);
    BodyFrom(imem, base, end, c0, i, f, info, slotIsEntry, code, slot);
    p := Piece(code.nodes + slot.nodes, slot.cache);
  }

  lemma FrontStep(imem: Imem, base: nat, end: nat, c0: Cache, j: nat, p: Piece, info: Info, f: Front)
    requires j > 0 && IsBody(imem, base, end, c0, j - 1, p) && base + j < end && info == InfoAt(imem, base, end, j - 1)
    requires f == Front(if IsEntry(imem, base, end, j) then LabelCode(p.cache).cache else p.cache, info)
    ensures IsFront(imem, base, end, c0, j, f)
  {
    var f' := FrontBehind(imem, base, end, c0, j, p.cache);
  }

  lemma FrontStart(imem: Imem, base: nat, end: nat, c0: Cache, f: Front)
    requires base < end <= MEM_WORDS
    requires f == Front(if IsEntry(imem, base, end, 0) then LabelCode(Reset(c0)).cache else Reset(c0), NO_INFO)
    ensures IsFront(imem, base, end, c0, 0, f)
  {
  }

  ghost function Listing(spec: nat -> Piece, n: nat): seq<Piece> {
    if n == 0 then [] else Listing(spec, n - 1) + [spec(n - 1)]
  }

  lemma {:induction false} ListingAt(spec: nat -> Piece, n: nat, i: nat)
    requires i < n
    ensures |Listing(spec, n)| == n && Listing(spec, n)[i] == spec(i)
  {
    if n > 1 {
      ListingAt(spec, n - 1, if i < n - 1 then i else 0);
    }
  }

  /** The code of each instruction of a region, as a run executes it. */
  ghost function Spec(imem: Imem, base: nat, end: nat, c0: Cache): nat -> Piece {
    (i: nat) => if base + i < end <= MEM_WORDS then Body(imem, base, end, c0, i) else Piece([], c0)
  }

  lemma SpecAt(imem: Imem, base: nat, end: nat, c0: Cache, i: nat, p: Piece)
    requires IsBody(imem, base, end, c0, i, p)
    ensures Spec(imem, base, end, c0)(i) == p
  {
  }

  /** The compiler state in front of instruction i, before its label. */
  ghost predicate Behind(imem: Imem, base: nat, end: nat, c0: Cache, i: nat, p: Piece, last: Info) {
    if i == 0 then p.cache == Reset(c0) && last == NO_INFO
    else base + i - 1 < end <= MEM_WORDS && IsBody(imem, base, end, c0, i - 1, p) && last == InfoAt(imem, base, end, i - 1)
  }

  method CompileNext(imem: Imem, base: nat, end: nat, ghost c0: Cache, entry: array<bool>, i: nat, before: Piece, last: Info)
    returns (p: Piece, info: Info)
    requires base + i < end <= MEM_WORDS && entry.Length == end - base
    requires forall k :: 0 <= k < end - base ==> entry[k] == IsEntry(imem, base, end, k)
    requires Behind(imem, base, end, c0, i, before, last)
    ensures IsBody(imem, base, end, c0, i, p) && info == InfoAt(imem, base, end, i)
    ensures Behind(imem, base, end, c0, i + 1, p, info)
    ensures Spec(imem, base, end, c0)(i) == p
  {
    var f := Front(if entry[i] then LabelCode(before.cache).cache else before.cache, last);
    if i == 0 {
      FrontStart(imem, base, end, c0, f);
    } else {
      FrontStep(imem, base, end, c0, i, before, last, f);
    }
    p, info := CompileOne(imem, base, end, c0, i, f, i + 1 < entry.Length && entry[i + 1]);
    SpecAt(imem, base, end, c0, i, p);
  }

  method CompileBodies(imem: Imem, base: nat, end: nat, c0: Cache, entry: array<bool>, ghost spec: nat -> Piece)
    returns (bodies: seq<Piece>, p: Piece, last: Info)
    requires base < end <= MEM_WORDS && entry.Length == end - base
    requires forall k :: 0 <= k < end - base ==> entry[k] == IsEntry(imem, base, end, k)
    requires spec == Spec(imem, base, end, c0)
    ensures bodies == Listing(spec, end - base)
    ensures Behind(imem, base, end, c0, end - base, p, last)
  {
    p, last, bodies := Piece([], Reset(c0)), NO_INFO, [];
    for i := 0 to end - base
      invariant bodies == Listing(spec, i)
      invariant Behind(imem, base, end, c0, i, p, last)
    {
      p, last := CompileNext(imem, base, end, c0, entry, i, p, last);
      bodies := bodies + [p];
    }
  }

  lemma TailIsEnd(env: Env, imem: Imem, base: nat, end: nat, p: Piece, last: Info, tail: Piece)
    requires base < MEM_WORDS && end == RegionEnd(imem, base) && Behind(imem, base, end, StartCache(env), end - base, p, last)
    requires tail == EndOfBlock(p.cache, last, end)
    ensures tail == EndOf(env, imem, base)
  {
    var n := LastIndex(imem, base);
    LastBody(imem, base, end, StartCache(env), end - base, n, p, last);
    EndFrom(env, imem, base, n, p.cache, last, tail);
  }

  lemma LastBody(imem: Imem, base: nat, end: nat, c0: Cache, k: nat, n: nat, p: Piece, last: Info)
    requires k > 0 && n == k - 1 && Behind(imem, base, end, c0, k, p, last)
    ensures IsBody(imem, base, end, c0, n, p) && last == InfoAt(imem, base, end, n)
  {
  }

  lemma EndFrom(env: Env, imem: Imem, base: nat, n: nat, c: Cache, last: Info, tail: Piece)
    requires base < MEM_WORDS && n == LastIndex(imem, base) && c == BodyOf(env, imem, base, n).cache && last == InfoIn(imem, base, n)
    requires tail == EndOfBlock(c, last, RegionEnd(imem, base))
    ensures tail == EndOf(env, imem, base)
  {
  }

  method CompileTail(env: Env, imem: Imem, base: nat, end: nat, p: Piece, last: Info, slotIsEntry: bool)
    returns (tail: Piece, latent: seq<Node>)
    requires base < MEM_WORDS && end == RegionEnd(imem, base) && Behind(imem, base, end, StartCache(env), end - base, p, last)
    requires slotIsEntry == SlotIsEntry(imem, base, end, 0)
    ensures tail == EndOf(env, imem, base) && latent == LatentCode(tail.cache, InfoIn(imem, base, 0))
  {
    tail := EndOfBlock(p.cache, last, end);
    TailIsEnd(env, imem, base, end, p, last, tail);
    latent := LatentCode(tail.cache, InfoOf(imem[base], base, slotIsEntry));
  }

  /** The end of the region, and which of its instructions are goto targets. */
  method Analyze(imem: Imem, base: nat) returns (end: nat, entry: array<bool>)
    requires base < MEM_WORDS
    ensures end == RegionEnd(imem, base) && fresh(entry) && entry.Length == end - base
    ensures forall k :: 0 <= k < end - base ==> entry[k] == IsEntry(imem, base, end, k)
  {
    end := AnalyzeStaticEnd(imem, base, RegionLimit(base));
    assert end == RegionEnd(imem, base);
    entry := new bool[end - base](_ => false);
    MarkBlockEntries(imem, base, end, entry);
  }

  /** jit_region: the code of every instruction, of the end of the block and of an inherited slot. */
  method JitRegion(env: Env, imem: Imem, base: nat) returns (bodies: seq<Piece>, tail: Piece, latent: seq<Node>)
    requires base < MEM_WORDS
    ensures bodies == Listing(Spec(imem, base, RegionEnd(imem, base), StartCache(env)), RegionEnd(imem, base) - base)
    ensures tail == EndOf(env, imem, base) && latent == LatentCode(tail.cache, InfoIn(imem, base, 0))
  {
    var end, entry := Analyze(imem, base);
    var p, last;
    bodies, p, last := CompileBodies(imem, base, end, StartCache(env), entry, Spec(imem, base, end, StartCache(env)));
    tail, latent := CompileTail(env, imem, base, end, p, last, 1 < end - base && entry[1]);
  }
}
