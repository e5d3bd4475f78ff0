/**
 * The interpreter's main loop. The fast form moves the program counter on before it executes an
 * instruction and, after a jump, fetches the slot and then sets the counter to the target. The
 * documented form keeps the counter on the instruction and schedules a jump in two stages. Jumps and
 * links are the code's own, on byte addresses and with its offsets; the other instructions are opaque.
 */
module RunTask {
  import opened Words
  import opened Isa
  import opened Lockstep

  const IMEM_BASE: Word := 0x0400_1000
  const RA: nat := 31

  /** The scalar registers, and everything else: memory, coprocessors. */
  datatype State<R> = State(sr: Regs, rest: R)

  datatype Done<R> = Done(state: State<R>, halted: bool)

  /** Fetching a word of IMEM, and the instructions that are neither branches nor jumps. */
  datatype Machine<!R> = Machine(fetch: (R, nat) -> Word, other: (Word, State<R>) -> Done<R>)

  /** FIT_IMEM */
  function Fit(x: int): (r: nat)
    ensures r < 4 * MEM_WORDS && r % 4 == 0
  {
    x / 4 % MEM_WORDS * 4
  }

  /** set_PC: the new temp_PC */
  function SetPc(address: int): Word { IMEM_BASE + Fit(address) }

  /** What follows an instruction: nothing, a jump to the new temp_PC, a jump to the old one, or the end. */
  datatype Then = Stay | To(temp: Word) | Stale | Halt

  datatype After<R> = After(state: State<R>, next: Then)

  // ----- the branches and jumps -----

  function Linked<R>(s: State<R>, r: nat, pc: Word, off: nat): State<R>
    requires r < 32
  {
    s.(sr := s.sr[r := Fit(pc + off + 4)])
  }

  function BranchIf<R>(s: State<R>, taken: bool, w: Word, pc: Word, off: nat): After<R> {
    After(s, if taken then To(SetPc(pc + 4 * w + off)) else Stay)
  }

  function Regimm<R>(w: Word, s: State<R>, pc: Word, off: nat): After<R> {
    match Rt(w)
    case 16 => var t := Linked(s, RA, pc, off); BranchIf(t, Negative(t.sr[Rs(w)]), w, pc, off)
    case 0 => BranchIf(s, Negative(s.sr[Rs(w)]), w, pc, off)
    case 17 => var t := Linked(s, RA, pc, off); BranchIf(t, !Negative(t.sr[Rs(w)]), w, pc, off)
    case 1 => BranchIf(s, !Negative(s.sr[Rs(w)]), w, pc, off)
    // a reserved code reports a jump without having set one up
    case _ => After(s, Stale)
  }

  /** JALR writes its link register before it reads the register with the target. */
  function JumpRegister<R>(w: Word, s: State<R>, pc: Word, off: nat): After<R> {
    var t := if Funct(w) == 9 then s.(sr := s.sr[Rd(w) := Fit(pc + off + 4)][0 := 0]) else s;
    After(t, To(SetPc(t.sr[Rs(w)])))
  }

  predicate IsJumpRegister(w: Word) { Opcode(w) == 0 && (Funct(w) == 8 || Funct(w) == 9) }

  predicate IsControl(w: Word) { IsJumpRegister(w) || 1 <= Opcode(w) <= 7 }

  /** One instruction, given the program counter and BASE_OFF of the loop it runs in. */
  function Execute<R>(u: Machine<R>, w: Word, s: State<R>, pc: Word, off: nat): After<R> {
    match Opcode(w)
    case 1 => Regimm(w, s, pc, off)
    case 2 => After(s, To(SetPc(4 * w)))
    case 3 => After(Linked(s, RA, pc, off), To(SetPc(4 * w)))
    case 4 => BranchIf(s, s.sr[Rs(w)] == s.sr[Rt(w)], w, pc, off)
    case 5 => BranchIf(s, s.sr[Rs(w)] != s.sr[Rt(w)], w, pc, off)
    case 6 => BranchIf(s, Signed(s.sr[Rs(w)]) <= 0, w, pc, off)
    case 7 => BranchIf(s, Signed(s.sr[Rs(w)]) > 0, w, pc, off)
    case _ =>
      if IsJumpRegister(w) then JumpRegister(w, s, pc, off)
      else
        var d := u.other(w, s);
        After(d.state, if d.halted then Halt else Stay)
  }

  // ----- the static program counter -----

  /** At the top of the loop, or at EX with the slot fetched from `slot` and the counter already on the target. */
  datatype Static<R> =
    | Top(pc: Word, temp: Word, state: State<R>)
    | AtSlot(slot: nat, pc: Word, temp: Word, state: State<R>)
    | StaticHalt(state: State<R>)

  function StaticStep<R>(u: Machine<R>, x: Static<R>): Static<R> {
    match x
    case Top(pc, temp, s) =>
      var pc1 := (pc + 4) % W;
      AfterStatic(pc1, temp, Execute(u, u.fetch(s.rest, Fit(pc)), s, pc1, 0))
    case AtSlot(slot, pc, temp, s) => AfterStatic(pc, temp, Execute(u, u.fetch(s.rest, slot), s, pc, 0))
    case StaticHalt(_) => x
  }

  /** Stop, go on, or jump through set_branch_delay. */
  function AfterStatic<R>(pc: Word, temp: Word, e: After<R>): Static<R> {
    match e.next
    case Halt => StaticHalt(e.state)
    case Stay => Top(pc, temp, e.state)
    case Stale => AtSlot(Fit(pc), Fit(temp), temp, e.state)
    case To(temp') => AtSlot(Fit(pc), Fit(temp'), temp', e.state)
  }

  // ----- the two-stage scheduler -----

  datatype Staged<R> = Staged(pc: Word, stage: nat, temp: Word, state: State<R>) | StagedHalt(state: State<R>)

  function StagedStep<R>(u: Machine<R>, y: Staged<R>): Staged<R> {
    match y
    case Staged(pc, stage, temp, s) => AfterStaged(pc, stage, temp, Execute(u, u.fetch(s.rest, Fit(pc)), s, pc, 4))
    case StagedHalt(_) => y
  }

  function AfterStaged<R>(pc: Word, stage: nat, temp: Word, e: After<R>): Staged<R> {
    var stage1 := if e.next.To? then 1 else stage;
    var temp1 := if e.next.To? then e.next.temp else temp;
    if e.next.Halt? then StagedHalt(e.state)
    else if stage1 == 2 then Staged(Fit(temp1), 0, temp1, e.state)
    else Staged(Fit(pc + 4), 2 * stage1, temp1, e.state)
  }

  // ----- the same instructions in the same order -----

  /** Both are in front of the same instruction, in the same state, with the same jump pending. */
  predicate Agree<R(==)>(x: Static<R>, y: Staged<R>) {
    match x
    case Top(pc, temp, s) => y == Staged(Fit(pc), 0, temp, s)
    case AtSlot(slot, pc, temp, s) => slot == Fit(slot) && pc == Fit(temp) && y == Staged(slot, 2, temp, s)
    case StaticHalt(s) => y == StagedHalt(s)
  }

  predicate IsReserved(w: Word) { Opcode(w) == 1 && Rt(w) !in {0, 1, 16, 17} }

  predicate IsLinking(w: Word) { Opcode(w) == 3 || (Opcode(w) == 1 && (Rt(w) == 16 || Rt(w) == 17)) }

  /**
   * The steps the two loops take differently: a reserved REGIMM code, and in a delay slot a taken branch or
   * a link, unless the pending target is the word behind the slot.
   */
  predicate Differs<R>(u: Machine<R>, y: Staged<R>) {
    && y.Staged?
    && var w := u.fetch(y.state.rest, Fit(y.pc));
       || IsReserved(w)
       || (y.stage == 2 && Fit(y.temp) != Fit(y.pc + 4) && (IsLinking(w) || Execute(u, w, y.state, y.pc, 4).next.To?))
  }

  // ----- addresses -----

  lemma QuarterAdd(x: int, k: int)
    ensures (x + 4 * k) / 4 == x / 4 + k
  {
  }

  lemma ModAdd(a: int, k: int, q: int)
    ensures (a + k + q * MEM_WORDS) % MEM_WORDS == (a + k) % MEM_WORDS
  {
  }

  lemma ModModAdd(a: int, k: int)
    ensures (a % MEM_WORDS + k) % MEM_WORDS == (a + k) % MEM_WORDS
  {
    ModAdd(a % MEM_WORDS, k, a / MEM_WORDS);
  }

  /** Addresses may be cut down to IMEM before or after adding to them. */
  lemma FitAdd(x: int, k: int)
    ensures Fit(Fit(x) + 4 * k) == Fit(x + 4 * k)
  {
    QuarterAdd(x, k);
    QuarterAdd(Fit(x), k);
    ModModAdd(x / 4, k);
  }

  lemma FitWrap(x: int)
    ensures Fit(x % W) == Fit(x)
  {
    assert x == x % W + 4 * (x / W * 0x4000_0000);
    QuarterAdd(x % W, x / W * 0x4000_0000);
    ModAdd(x % W / 4, 0, x / W * 0x10_0000);
  }

  lemma FitFit(x: int)
    ensures Fit(Fit(x)) == Fit(x) && Fit(SetPc(x)) == Fit(x)
  {
    FitAdd(x, 0);
    FitAdd(x, 0x0100_0400);
    QuarterAdd(x, 0x0100_0400);
    ModAdd(x / 4, 0, 0x4001);
  }

  /** Words behind different words are different. */
  lemma FitNext(x: int, y: int)
    ensures Fit(x + 4) == Fit(y + 4) <==> Fit(x) == Fit(y)
  {
    FitAdd(x, 1);
    FitAdd(y, 1);
    FitAdd(x + 4, -1);
    FitAdd(y + 4, -1);
  }

  // ----- one step -----

  /** An instruction depends on the loop only through the word behind it. */
  lemma SameEffect<R>(u: Machine<R>, w: Word, s: State<R>, p: Word, off: nat, p': Word, off': nat)
    requires Fit(p + off) == Fit(p' + off')
    ensures Execute(u, w, s, p, off) == Execute(u, w, s, p', off')
  {
    FitNext(p + off, p' + off');
    FitAdd(p + off, w);
    FitAdd(p' + off', w);
  }

  /** Without a link, only the target depends on it. */
  lemma SameKind<R>(u: Machine<R>, w: Word, s: State<R>, p: Word, off: nat, p': Word, off': nat)
    ensures var e, e' := Execute(u, w, s, p, off), Execute(u, w, s, p', off');
            && (e.next.To? <==> e'.next.To?) && (e.next.Stale? <==> e'.next.Stale?) && (e.next.Halt? <==> e'.next.Halt?)
            && (IsReserved(w) <==> e.next.Stale?)
            && (!e.next.To? && !IsLinking(w) ==> e == e')
  {
  }

  /** A link that is not taken leaves its value in register 31. */
  lemma LinkSeen<R>(u: Machine<R>, w: Word, s: State<R>, p: Word, off: nat)
    requires IsLinking(w) && !Execute(u, w, s, p, off).next.To?
    ensures Execute(u, w, s, p, off).state.sr[RA] == Fit(p + off + 4) && Execute(u, w, s, p, off).next.Stay?
  {
  }

  lemma TopExact<R>(u: Machine<R>, x: Static<R>, y: Staged<R>)
    requires x.Top? && Agree(x, y)
    ensures Agree(StaticStep(u, x), StagedStep(u, y)) <==> !Differs(u, y)
  {
    var pc1 := (x.pc + 4) % W;
    FitWrap(x.pc + 4);
    FitAdd(x.pc, 1);
    FitFit(x.pc);
    FitFit(pc1);
    var w := u.fetch(x.state.rest, Fit(x.pc));
    SameEffect(u, w, x.state, pc1, 0, y.pc, 4);
    SameKind(u, w, x.state, y.pc, 4, y.pc, 4);
    AfterTop(Execute(u, w, x.state, y.pc, 4), pc1, y.pc, x.temp);
  }

  lemma AfterTop<R>(e: After<R>, pc1: Word, pc: Word, temp: Word)
    requires Fit(pc1) == Fit(pc + 4) && Fit(Fit(pc1)) == Fit(pc1)
    ensures Agree(AfterStatic(pc1, temp, e), AfterStaged(pc, 0, temp, e)) <==> !e.next.Stale?
  {
  }

  lemma SlotExact<R>(u: Machine<R>, x: Static<R>, y: Staged<R>)
    requires x.AtSlot? && Agree(x, y)
    ensures Agree(StaticStep(u, x), StagedStep(u, y)) <==> !Differs(u, y)
  {
    FitFit(x.temp);
    FitFit(x.slot + 4);
    var w := u.fetch(x.state.rest, x.slot);
    var e, e' := Execute(u, w, x.state, x.pc, 0), Execute(u, w, x.state, y.pc, 4);
    SameKind(u, w, x.state, x.pc, 0, y.pc, 4);
    SameKind(u, w, x.state, y.pc, 4, x.pc, 0);
    if Fit(x.temp) == Fit(y.pc + 4) {
      SameEffect(u, w, x.state, x.pc, 0, y.pc, 4);
    } else if IsLinking(w) && !e.next.To? {
      LinkSeen(u, w, x.state, x.pc, 0);
      LinkSeen(u, w, x.state, y.pc, 4);
      FitNext(x.pc, y.pc + 4);
    }
    AfterSlot(e, e', x.pc, y.pc, x.temp);
  }

  lemma AfterSlot<R>(e: After<R>, e': After<R>, pc: Word, pc': Word, temp: Word)
    requires pc == Fit(temp) && Fit(pc) == pc && Fit(Fit(pc' + 4)) == Fit(pc' + 4)
    requires (e.next.To? <==> e'.next.To?) && (e.next.Stale? <==> e'.next.Stale?) && (e.next.Halt? <==> e'.next.Halt?)
    requires pc == Fit(pc' + 4) ==> e == e'
    ensures Agree(AfterStatic(pc, temp, e), AfterStaged(pc', 2, temp, e'))
            <==> !e.next.Stale? && e.state == e'.state && (e.next.To? ==> pc == Fit(pc' + 4))
  {
  }

  /** A step of one loop is a step of the other exactly when it is not one they take differently. */
  lemma StepExact<R>(u: Machine<R>, x: Static<R>, y: Staged<R>)
    requires Agree(x, y)
    ensures Agree(StaticStep(u, x), StagedStep(u, y)) <==> !Differs(u, y)
  {
    if x.Top? {
      TopExact(u, x, y);
    } else if x.AtSlot? {
      SlotExact(u, x, y);
    }
  }

  // ----- whole tasks -----

  function StaticRun<R>(u: Machine<R>, x: Static<R>, n: nat): Static<R> {
    if n == 0 then x else StaticStep(u, StaticRun(u, x, n - 1))
  }

  function StagedRun<R>(u: Machine<R>, y: Staged<R>, n: nat): Staged<R> {
    if n == 0 then y else StagedStep(u, StagedRun(u, y, n - 1))
  }

  predicate AgreeAt<R(==)>(u: Machine<R>, x: Static<R>, y: Staged<R>, n: nat) { Agree(StaticRun(u, x, n), StagedRun(u, y, n)) }

  predicate DiffersAt<R>(u: Machine<R>, y: Staged<R>, n: nat) { Differs(u, StagedRun(u, y, n)) }

  lemma AgreeNext<R>(u: Machine<R>, x: Static<R>, y: Staged<R>, n: nat)
    requires AgreeAt(u, x, y, n)
    ensures AgreeAt(u, x, y, n + 1) <==> !DiffersAt(u, y, n)
  {
    StepExact(u, StaticRun(u, x, n), StagedRun(u, y, n));
  }

  /** The first n steps agree if and only if none of them is one the loops take differently. */
  lemma RunsExact<R>(u: Machine<R>, x: Static<R>, y: Staged<R>, n: nat)
    requires Agree(x, y)
    ensures (forall k: nat :: k <= n ==> AgreeAt(u, x, y, k)) <==> (forall k: nat :: k < n ==> !DiffersAt(u, y, k))
  {
    var agrees: nat -> bool := (k: nat) => AgreeAt(u, x, y, k);
    var differs: nat -> bool := (k: nat) => DiffersAt(u, y, k);
    forall k: nat | agrees(k)
      ensures agrees(k + 1) <==> !differs(k)
    {
      AgreeNext(u, x, y, k);
    }
    UpToFirst(agrees, differs, n);
    assert forall k: nat :: agrees(k) == AgreeAt(u, x, y, k);
    assert forall k: nat :: differs(k) == DiffersAt(u, y, k);
  }

  /** An executed instruction: its address and the state it finds, link values included. */
  datatype Visit<R> = Visit(address: nat, state: State<R>)

  function StaticVisit<R>(x: Static<R>): seq<Visit<R>> {
    match x
    case Top(pc, _, s) => [Visit(Fit(pc), s)]
    case AtSlot(slot, _, _, s) => [Visit(slot, s)]
    case StaticHalt(_) => []
  }

  function StagedVisit<R>(y: Staged<R>): seq<Visit<R>> { if y.Staged? then [Visit(Fit(y.pc), y.state)] else [] }

  function StaticTrace<R>(u: Machine<R>, x: Static<R>, n: nat): seq<Visit<R>> {
    Joined((k: nat) => StaticVisit(StaticRun(u, x, k)), n)
  }

  function StagedTrace<R>(u: Machine<R>, y: Staged<R>, n: nat): seq<Visit<R>> {
    Joined((k: nat) => StagedVisit(StagedRun(u, y, k)), n)
  }

  lemma SameVisit<R>(x: Static<R>, y: Staged<R>)
    requires Agree(x, y)
    ensures StaticVisit(x) == StagedVisit(y)
  {
    if x.Top? {
      FitFit(x.pc);
    }
  }

  /** A task started at any program counter, with any stale temp_PC. */
  lemma TasksAgree<R>(u: Machine<R>, pc: Word, temp: Word, s: State<R>, n: nat)
    requires forall k: nat :: k < n ==> !DiffersAt(u, Staged(Fit(pc), 0, temp, s), k)
    ensures StaticTrace(u, Top(Fit(pc), temp, s), n) == StagedTrace(u, Staged(Fit(pc), 0, temp, s), n)
  {
    var x, y := Top(Fit(pc), temp, s), Staged(Fit(pc), 0, temp, s);
    FitFit(pc);
    RunsExact(u, x, y, n);
    var f: nat -> seq<Visit<R>> := (k: nat) => StaticVisit(StaticRun(u, x, k));
    var g: nat -> seq<Visit<R>> := (k: nat) => StagedVisit(StagedRun(u, y, k));
    forall k: nat | k < n
      ensures f(k) == g(k)
    {
      assert AgreeAt(u, x, y, k);
      SameVisit(StaticRun(u, x, k), StagedRun(u, y, k));
    }
    JoinedSame(f, g, n);
  }

  /**
   * A reserved REGIMM code followed by an ordinary instruction: the static loop jumps to whatever temp_PC
   * was left over, the two-stage scheduler goes on.
   */
  lemma StaleJump<R>(u: Machine<R>, pc: Word, temp: Word, s: State<R>)
    requires IsReserved(u.fetch(s.rest, Fit(pc))) && !IsControl(u.fetch(s.rest, Fit(pc + 4)))
    requires !u.other(u.fetch(s.rest, Fit(pc + 4)), s).halted
    ensures StaticVisit(StaticStep(u, StaticStep(u, Top(Fit(pc), temp, s))))
         == [Visit(Fit(temp), u.other(u.fetch(s.rest, Fit(pc + 4)), s).state)]
    ensures StagedVisit(StagedStep(u, StagedStep(u, Staged(Fit(pc), 0, temp, s))))
         == [Visit(Fit(pc + 8), u.other(u.fetch(s.rest, Fit(pc + 4)), s).state)]
  {
    FitFit(pc);
    FitFit(pc + 4);
    FitFit(pc + 8);
    FitFit(temp);
    FitAdd(pc, 1);
    FitAdd(pc + 4, 1);
    FitWrap(Fit(pc) + 4);
  }
}
