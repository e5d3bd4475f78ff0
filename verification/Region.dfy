/**
 * Choosing what to compile: where a region ends, and which of its instructions are goto targets.
 * Both passes read instruction words with their own word-address arithmetic.
 */
module Region {
  import opened Words
  import opened Isa

  const CODE_BLOCK_WORDS: nat := 64

  /** What the two passes see of an instruction. */
  datatype Flow = Plain | JumpsAnywhere | Breaks | Branch(target: nat) | JumpTo(target: nat)

  function WordTarget(at: nat, w: Word): nat { (at + 1 + w) % MEM_WORDS }

  function FlowOf(at: nat, w: Word): Flow {
    if IsVector(w) then Plain
    else match Opcode(w)
      case 0 =>
        if Funct(w) == 8 || Funct(w) == 9 then JumpsAnywhere else if Funct(w) == 13 then Breaks else Plain
      case 1 =>
        if Rt(w) == 0 || Rt(w) == 1 || Rt(w) == 16 || Rt(w) == 17 then Branch(WordTarget(at, w)) else Plain
      case 2 | 3 => JumpTo(w % MEM_WORDS)
      case 4 | 5 | 6 | 7 => Branch(WordTarget(at, w))
      case _ => Plain
  }

  predicate TargetsWord(flow: Flow, t: nat) { (flow.Branch? || flow.JumpTo?) && flow.target == t }

  function Max(a: nat, b: nat): nat { if a < b then b else a }
  /** After looking at one instruction: either the end is known or the scan goes on with a new maximum. */
  datatype Scan = Done(max: nat) | More(max: nat)

  function ScanStep(flow: Flow, pc: nat, end: nat, at: nat, max: nat): Scan {
    var forwardGoto := at + 1 < max;
    var max1 := if forwardGoto then max else at + 1;
    match flow
    case Plain => More(max1)
    case JumpsAnywhere => if forwardGoto then More(max1) else Done(Max(at + 2, max1))
    case Breaks => if forwardGoto then More(max1) else Done(max1)
    case Branch(t) => More(if pc <= t < end then Max(max1, t + 1) else max1)
    case JumpTo(t) =>
      if !forwardGoto then Done(Max(at + 2, max1))
      else More(if pc <= t < end then Max(max1, t + 1) else max1)
  }

  function ScanFrom(imem: Imem, pc: nat, end: nat, at: nat, max: nat): nat
    requires pc <= at <= end <= MEM_WORDS
    decreases end - at
  {
    if at == end then Min(max, end)
    else match ScanStep(FlowOf(at, imem[at]), pc, end, at, max)
      case Done(m) => Min(m, end)
      case More(m) => ScanFrom(imem, pc, end, at + 1, m)
  }

  /** analyze_static_end, as a function */
  function StaticEnd(imem: Imem, pc: nat, end: nat): nat
    requires pc <= end <= MEM_WORDS
  {
    ScanFrom(imem, pc, end, pc, pc)
  }

  /** The scanning loop of analyze_static_end. */
  method AnalyzeStaticEnd(imem: Imem, pc: nat, end: nat) returns (r: nat)
    requires pc <= end <= MEM_WORDS
    ensures r == StaticEnd(imem, pc, end) && IsStaticEnd(imem, pc, end, r)
  {
    StaticEndExact(imem, pc, end);
    var max, at := pc, pc;
    while at < end
      invariant pc <= at <= end
      invariant ScanFrom(imem, pc, end, at, max) == StaticEnd(imem, pc, end)
    {
      var step := ScanStep(FlowOf(at, imem[at]), pc, end, at, max);
      max := step.max;
      if step.Done? { return Min(max, end); }
      at := at + 1;
    }
    r := Min(max, end);
  }

  // ----- the end is determined by the region itself -----

  predicate Agree(a: Imem, b: Imem, from: nat, to: nat) {
    forall j :: from <= j < to && j < MEM_WORDS ==> a[j] == b[j]
  }

  lemma {:induction false} ScanBounds(imem: Imem, pc: nat, end: nat, at: nat, max: nat)
    requires pc <= at <= end <= MEM_WORDS && at <= max <= end
    ensures max <= ScanFrom(imem, pc, end, at, max) <= end
    ensures at < end ==> at < ScanFrom(imem, pc, end, at, max)
    decreases end - at
  {
    if at < end {
      match ScanStep(FlowOf(at, imem[at]), pc, end, at, max)
      case Done(m) =>
      case More(m) => ScanBounds(imem, pc, end, at + 1, m);
    }
  }

  lemma {:induction false} ScanAgrees(a: Imem, b: Imem, pc: nat, end: nat, at: nat, max: nat)
    requires pc <= at <= end <= MEM_WORDS && at <= max <= end
    requires Agree(a, b, at, ScanFrom(a, pc, end, at, max))
    ensures ScanFrom(b, pc, end, at, max) == ScanFrom(a, pc, end, at, max)
    decreases end - at
  {
    if at < end {
      ScanBounds(a, pc, end, at, max);
      match ScanStep(FlowOf(at, a[at]), pc, end, at, max)
      case Done(m) =>
      case More(m) => ScanAgrees(a, b, pc, end, at + 1, m);
    }
  }

  /** Two memories that agree on the region found in one of them give the same region. */
  lemma EndDeterminedByRegion(a: Imem, b: Imem, pc: nat, end: nat)
    requires pc < end <= MEM_WORDS && Agree(a, b, pc, StaticEnd(a, pc, end))
    ensures pc < StaticEnd(a, pc, end) <= end
    ensures StaticEnd(b, pc, end) == StaticEnd(a, pc, end)
  {
    ScanBounds(a, pc, end, pc, pc);
    ScanAgrees(a, b, pc, end, pc, pc);
  }

  /** The instruction the scan stops at, or `end`. */
  function StopFrom(imem: Imem, pc: nat, end: nat, at: nat, max: nat): (r: nat)
    requires pc <= at <= end <= MEM_WORDS
    ensures at <= r <= end
    decreases end - at
  {
    if at == end then end
    else match ScanStep(FlowOf(at, imem[at]), pc, end, at, max)
      case Done(m) => at
      case More(m) => StopFrom(imem, pc, end, at + 1, m)
  }

  lemma {:induction false} ScanCovers(imem: Imem, pc: nat, end: nat, at: nat, max: nat, j: nat, t: nat)
    requires pc <= at <= end <= MEM_WORDS && at <= max <= end && at <= j < StopFrom(imem, pc, end, at, max)
    requires TargetsWord(FlowOf(j, imem[j]), t) && pc <= t < end
    ensures t < ScanFrom(imem, pc, end, at, max)
    decreases end - at
  {
    var step := ScanStep(FlowOf(at, imem[at]), pc, end, at, max);
    if j == at {
      ScanBounds(imem, pc, end, at + 1, step.max);
    } else {
      ScanCovers(imem, pc, end, at + 1, step.max, j, t);
    }
  }

  /** Every direct branch before the stopping instruction that stays below `end` stays inside the region. */
  lemma BranchesStayInside(imem: Imem, pc: nat, end: nat, j: nat, t: nat)
    requires pc < end <= MEM_WORDS && pc <= j < StopFrom(imem, pc, end, pc, pc)
    requires TargetsWord(FlowOf(j, imem[j]), t) && pc <= t < end
    ensures t < StaticEnd(imem, pc, end)
  {
    ScanCovers(imem, pc, end, pc, pc, j, t);
  }

  // ----- where the scan stops, in terms of the words alone -----

  /** JR, JALR and BREAK by their function code, J and JAL by their opcode. */
  predicate MayEnd(w: Word) { w / 0x400_0000 == 2 || w / 0x400_0000 == 3 || (w / 0x400_0000 == 0 && w % 64 in {8, 9, 13}) }

  predicate IsBreak(w: Word) { w / 0x400_0000 == 0 && w % 64 == 13 }

  /** The word a direct branch or jump at `at` names, or -1 for any other instruction. */
  function DirectWord(at: nat, w: Word): int {
    if w / 0x400_0000 == 2 || w / 0x400_0000 == 3 then w % 1024
    else if 4 <= w / 0x400_0000 <= 7 || (w / 0x400_0000 == 1 && w / 0x1_0000 % 32 in {0, 1, 16, 17}) then (at + 1 + w % 1024) % 1024
    else -1
  }

  /** No direct branch or jump of [pc, j) leads past j, below `end`. */
  predicate NothingPasses(imem: Imem, pc: nat, end: nat, j: nat)
    requires end <= MEM_WORDS
  {
    forall k :: pc <= k < j && k < end ==> !(j < DirectWord(k, imem[k]) < end)
  }

  predicate EndsAt(imem: Imem, pc: nat, end: nat, j: nat)
    requires end <= MEM_WORDS
  {
    pc <= j < end && MayEnd(imem[j]) && NothingPasses(imem, pc, end, j)
  }

  /**
   * r is the end of the region: two words behind the first jump that no branch before it leads past, one
   * behind such a BREAK, within the limit; and the limit itself when there is none.
   */
  ghost predicate IsStaticEnd(imem: Imem, pc: nat, end: nat, r: nat)
    requires end <= MEM_WORDS
  {
    && (forall j: nat :: FirstEnd(imem, pc, end, j) ==>
          r == if IsBreak(imem[j]) then j + 1 else if j + 2 < end then j + 2 else end)
    && ((forall j: nat :: !EndsAt(imem, pc, end, j)) ==> r == end)
  }

  ghost predicate FirstEnd(imem: Imem, pc: nat, end: nat, j: nat)
    requires end <= MEM_WORDS
  {
    EndsAt(imem, pc, end, j) && forall i: nat :: i < j ==> !EndsAt(imem, pc, end, i)
  }

  lemma FlowWords(at: nat, w: Word)
    ensures var flow := FlowOf(at, w);
            && (flow.JumpsAnywhere? || flow.Breaks? || flow.JumpTo? <==> MayEnd(w)) && (flow.Breaks? <==> IsBreak(w))
            && (DirectWord(at, w) >= 0 <==> flow.Branch? || flow.JumpTo?)
            && (flow.Branch? || flow.JumpTo? ==> flow.target == DirectWord(at, w))
  {
    LowTen(at + 1, w);
  }

  lemma LowTen(a: nat, w: nat)
    ensures (a + w) % 1024 == (a + w % 1024) % 1024
  {
    var q := w / 1024;
    assert w == 1024 * q + w % 1024;
    TenMultiple(a + w % 1024, q);
  }

  lemma TenMultiple(x: nat, q: nat)
    ensures (x + 1024 * q) % 1024 == x % 1024
  {
  }

  /** What the scan knows in front of `at`: how far the branches behind it lead, and that it has not stopped. */
  ghost predicate Scanned(imem: Imem, pc: nat, end: nat, at: nat, max: nat)
    requires end <= MEM_WORDS
  {
    && pc <= at <= max && at <= end
    && (forall k :: pc <= k < at && pc <= DirectWord(k, imem[k]) < end ==> DirectWord(k, imem[k]) < max)
    && (max > at ==> exists k :: pc <= k < at && DirectWord(k, imem[k]) == max - 1 < end)
    && (forall i: nat :: i < at ==> !EndsAt(imem, pc, end, i))
  }

  /** A branch leads past the next word exactly when the maximum is beyond it. */
  lemma PassesIsForward(imem: Imem, pc: nat, end: nat, at: nat, max: nat)
    requires end <= MEM_WORDS && at < end && Scanned(imem, pc, end, at, max)
    ensures at + 1 < max <==> !NothingPasses(imem, pc, end, at)
  {
  }

  lemma ScanGoesOn(imem: Imem, pc: nat, end: nat, at: nat, max: nat, m: nat)
    requires end <= MEM_WORDS && at < end && Scanned(imem, pc, end, at, max)
    requires ScanStep(FlowOf(at, imem[at]), pc, end, at, max) == More(m)
    ensures Scanned(imem, pc, end, at + 1, m)
  {
    FlowWords(at, imem[at]);
    PassesIsForward(imem, pc, end, at, max);
    if m > at + 1 && m == max {
      var k :| pc <= k < at && DirectWord(k, imem[k]) == max - 1 < end;
    }
  }

  lemma {:induction false} ScanExact(imem: Imem, pc: nat, end: nat, at: nat, max: nat)
    requires pc <= at <= end <= MEM_WORDS && Scanned(imem, pc, end, at, max)
    ensures IsStaticEnd(imem, pc, end, ScanFrom(imem, pc, end, at, max))
    decreases end - at
  {
    if at == end {
      NeverStopped(imem, pc, end, max);
    } else {
      match ScanStep(FlowOf(at, imem[at]), pc, end, at, max)
      case Done(m) => StopsHere(imem, pc, end, at, max, m);
      case More(m) =>
        ScanGoesOn(imem, pc, end, at, max, m);
        ScanExact(imem, pc, end, at + 1, m);
    }
  }

  lemma NeverStopped(imem: Imem, pc: nat, end: nat, max: nat)
    requires end <= MEM_WORDS && Scanned(imem, pc, end, end, max)
    ensures IsStaticEnd(imem, pc, end, Min(max, end))
  {
    forall j: nat
      ensures !EndsAt(imem, pc, end, j)
    {
    }
  }

  lemma StopsHere(imem: Imem, pc: nat, end: nat, at: nat, max: nat, m: nat)
    requires end <= MEM_WORDS && at < end && Scanned(imem, pc, end, at, max)
    requires ScanStep(FlowOf(at, imem[at]), pc, end, at, max) == Done(m)
    ensures EndsAt(imem, pc, end, at) && IsStaticEnd(imem, pc, end, Min(m, end))
  {
    FlowWords(at, imem[at]);
    PassesIsForward(imem, pc, end, at, max);
    assert EndsAt(imem, pc, end, at);
    forall j: nat | FirstEnd(imem, pc, end, j)
      ensures j == at
    {
    }
    StopsAfter(imem, pc, end, at, max, m);
  }

  lemma StopsAfter(imem: Imem, pc: nat, end: nat, at: nat, max: nat, m: nat)
    requires end <= MEM_WORDS && pc <= at < end && at + 1 >= max
    requires ScanStep(FlowOf(at, imem[at]), pc, end, at, max) == Done(m)
    ensures Min(m, end) == if IsBreak(imem[at]) then at + 1 else if at + 2 < end then at + 2 else end
  {
    FlowWords(at, imem[at]);
  }

  /** The end the scan finds, for every memory, start and limit. */
  lemma StaticEndExact(imem: Imem, pc: nat, end: nat)
    requires pc <= end <= MEM_WORDS
    ensures IsStaticEnd(imem, pc, end, StaticEnd(imem, pc, end))
  {
    ScanExact(imem, pc, end, pc, pc);
  }

  // ----- the region of a program counter -----

  /** The last word a region starting at pc may reach: the end of the next code block, within IMEM. */
  function RegionLimit(pc: nat): nat {
    Min((pc / CODE_BLOCK_WORDS + 2) * CODE_BLOCK_WORDS, MEM_WORDS)
  }

  function RegionEnd(imem: Imem, pc: nat): (r: nat)
    requires pc < MEM_WORDS
    ensures pc < r <= RegionLimit(pc)
  {
    ScanBounds(imem, pc, RegionLimit(pc), pc, pc);
    StaticEnd(imem, pc, RegionLimit(pc))
  }

  /** get_jit_block computes the limit in bytes; it is the same word. */
  lemma LimitFormula(address: nat)
    requires address < 4096
    ensures Min((address + 2 * 256) / 256 * 64, 4096 / 4) == RegionLimit(address / 4)
  {
  }

  // ----- goto targets -----

  /** Instruction base + i is the target of some direct branch of the region [base, end). */
  predicate IsEntry(imem: Imem, base: nat, end: nat, i: nat)
    requires end <= MEM_WORDS
  {
    exists j :: base <= j < end && TargetsWord(FlowOf(j, imem[j]), base + i)
  }

  /** In terms of the words: some direct branch or jump of the region names the instruction. */
  lemma EntryInWords(imem: Imem, base: nat, end: nat, i: nat)
    requires end <= MEM_WORDS
    ensures IsEntry(imem, base, end, i) <==> exists j :: base <= j < end && DirectWord(j, imem[j]) == base + i
  {
    forall j | base <= j < end
      ensures TargetsWord(FlowOf(j, imem[j]), base + i) <==> DirectWord(j, imem[j]) == base + i
    {
      FlowWords(j, imem[j]);
    }
    if IsEntry(imem, base, end, i) {
      var j :| base <= j < end && TargetsWord(FlowOf(j, imem[j]), base + i);
      assert DirectWord(j, imem[j]) == base + i;
    }
  }

  /** jit_mark_block_entries: one pass over the region, marking targets that lie inside it. */
  method MarkBlockEntries(imem: Imem, pc: nat, end: nat, entries: array<bool>)
    requires pc <= end <= MEM_WORDS && entries.Length >= end - pc
    requires forall k :: 0 <= k < end - pc ==> !entries[k]
    modifies entries
    ensures forall k :: 0 <= k < end - pc ==> entries[k] == IsEntry(imem, pc, end, k)
    ensures forall k :: end - pc <= k < entries.Length ==> entries[k] == old(entries[k])
  {
    var at := pc;
    while at < end
      invariant pc <= at <= end
      invariant forall k :: 0 <= k < end - pc ==>
        entries[k] == exists j :: pc <= j < at && TargetsWord(FlowOf(j, imem[j]), pc + k)
      invariant forall k :: end - pc <= k < entries.Length ==> entries[k] == old(entries[k])
    {
      var flow := FlowOf(at, imem[at]);
      if (flow.Branch? || flow.JumpTo?) && pc <= flow.target < end {
        entries[flow.target - pc] := true;
      }
      at := at + 1;
    }
  }
}
