/**
 * The interpreter's control instructions in numbers: which addresses the main loop visits after each, and
 * what the link registers hold.
 */
module ControlFlow {
  import opened Words
  import opened Isa
  import opened RunTask
  import Instructions

  /** Neither a branch nor a jump: opcode above 7, or 0 with a function code other than 8 and 9. */
  predicate Ordinary(w: Word) { w / 0x400_0000 > 7 || (w / 0x400_0000 == 0 && w % 64 != 8 && w % 64 != 9) }

  /** The word w is about to be executed at pc, in front of an ordinary slot. */
  predicate InFront<R>(u: Machine<R>, pc: Word, s: State<R>, w: Word) {
    pc % 4 == 0 && u.fetch(s.rest, pc % 4096) == w && Ordinary(u.fetch(s.rest, (pc + 4) % 4096))
  }

  /** The slot runs in state t and does not halt. */
  predicate SlotRuns<R>(u: Machine<R>, pc: Word, t: State<R>) { !u.other(u.fetch(t.rest, (pc + 4) % 4096), t).halted }

  /**
   * From the top of the loop: the word at pc in state s, then its slot in state t, then the word at the
   * address, in the state the slot leaves.
   */
  predicate Visits<R(==)>(u: Machine<R>, pc: Word, temp: Word, s: State<R>, t: State<R>, address: nat) {
    var x := StaticStep(u, Top(pc, temp, s));
    && StaticVisit(Top(pc, temp, s)) == [Visit(pc % 4096, s)]
    && StaticVisit(x) == [Visit((pc + 4) % 4096, t)]
    && StaticVisit(StaticStep(u, x)) == [Visit(address, u.other(u.fetch(t.rest, (pc + 4) % 4096), t).state)]
  }

  // ----- addresses -----

  lemma FitAligned(x: int)
    requires x % 4 == 0
    ensures Fit(x) == x % 4096
  {
    AlignedParts(x / 4);
  }

  lemma AlignedParts(k: int)
    ensures (4 * k) % 4096 == k % 1024 * 4
  {
    var q, r := k / 1024, k % 1024;
    assert 4 * k == 4096 * q + 4 * r;
    Page(4 * r, q);
  }

  lemma Page(x: int, q: int)
    requires 0 <= x < 4096
    ensures (4096 * q + x) % 4096 == x
  {
  }

  /** The counter moved on by one word, cut to 32 bits. */
  lemma Advanced(pc: Word, k: int)
    requires pc % 4 == 0
    ensures Fit((pc + 4) % W + 4 * k) == (pc + 4 + 4 * k) % 4096
  {
    FitWrap(pc + 4);
    AdvancedFrom((pc + 4) % W, pc + 4, k);
    AlignedSum(pc, k);
    FitAligned(pc + 4 + 4 * k);
  }

  lemma AdvancedFrom(y: nat, z: nat, k: int)
    requires Fit(y) == Fit(z)
    ensures Fit(y + 4 * k) == Fit(z + 4 * k)
  {
    FitAdd(y, k);
    FitAdd(z, k);
  }

  lemma AlignedSum(pc: nat, k: int)
    requires pc % 4 == 0
    ensures (pc + 4 + 4 * k) % 4 == 0
  {
    assert pc + 4 + 4 * k == 4 * (pc / 4 + 1 + k);
  }

  lemma BackToPage(x: int)
    requires x % 4 == 0
    ensures Fit(Fit(x)) == x % 4096 && Fit(SetPc(x)) == x % 4096 && Fit(SetPc(x)) % 4 == 0
  {
    FitFit(x);
    FitAligned(x);
  }

  lemma OrdinaryIsOther<R>(u: Machine<R>, w: Word, s: State<R>, pc: Word)
    requires Ordinary(w) && !u.other(w, s).halted
    ensures RunTask.Execute(u, w, s, pc, 0) == After(u.other(w, s).state, Stay)
  {
  }

  // ----- taken or not -----

  /** The control word leaves state t and the new temp_PC. */
  lemma TakenVisits<R>(u: Machine<R>, pc: Word, temp: Word, s: State<R>, w: Word, t: State<R>, goal: int)
    requires InFront(u, pc, s, w) && SlotRuns(u, pc, t) && t.rest == s.rest
    requires RunTask.Execute(u, w, s, (pc + 4) % W, 0) == After(t, To(SetPc(goal)))
    ensures Visits(u, pc, temp, s, t, Fit(goal))
  {
    FitAligned(pc);
    Advanced(pc, 0);
    FitFit(goal);
    OrdinaryIsOther(u, u.fetch(t.rest, (pc + 4) % 4096), t, Fit(goal));
    FitFit(Fit(goal));
  }

  lemma StayVisits<R>(u: Machine<R>, pc: Word, temp: Word, s: State<R>, w: Word, t: State<R>)
    requires InFront(u, pc, s, w) && SlotRuns(u, pc, t) && t.rest == s.rest
    requires RunTask.Execute(u, w, s, (pc + 4) % W, 0) == After(t, Stay)
    ensures Visits(u, pc, temp, s, t, (pc + 8) % 4096)
  {
    var pc1 := (pc + 4) % W;
    FitAligned(pc);
    Advanced(pc, 0);
    OrdinaryIsOther(u, u.fetch(t.rest, (pc + 4) % 4096), t, (pc1 + 4) % W);
    FitWrap(pc1 + 4);
    Advanced(pc, 1);
  }

  /** Four times a word counts like four times the immediate at its low end. */
  lemma WordTimesFour(w: Word, op: nat, rs: nat, rt: nat, imm: nat, x: nat)
    requires Instructions.IsImmediate(w, op, rs, rt, imm)
    ensures Fit(x + 4 * w) == Fit(x + 4 * imm)
  {
    FitHigh(x + 4 * imm, x + 4 * w, (op * 32 + rs) * 32 + rt);
  }

  lemma FitHigh(x: nat, y: nat, high: nat)
    requires y == x + 0x4_0000 * high
    ensures Fit(y) == Fit(x)
  {
    FitPages(x, 64 * high);
  }

  lemma FitPages(x: int, k: int)
    ensures Fit(x + 4096 * k) == Fit(x)
  {
    QuarterAdd(x, 1024 * k);
    ModAdd(x / 4, 0, k);
  }

  lemma BranchGoal(pc: Word, w: Word, op: nat, rs: nat, rt: nat, imm: nat)
    requires pc % 4 == 0 && Instructions.IsImmediate(w, op, rs, rt, imm)
    ensures Fit((pc + 4) % W + 4 * w) == (pc + 4 + 4 * imm) % 4096
  {
    WordTimesFour(w, op, rs, rt, imm, (pc + 4) % W);
    Advanced(pc, imm);
  }

  /** A branch leads to its target or past its slot. */
  lemma BranchVisits<R>(u: Machine<R>, pc: Word, temp: Word, s: State<R>, w: Word, op: nat, rs: nat, rt: nat, imm: nat, t: State<R>,
                        taken: bool)
    requires InFront(u, pc, s, w) && SlotRuns(u, pc, t) && t.rest == s.rest && Instructions.IsImmediate(w, op, rs, rt, imm)
    requires RunTask.Execute(u, w, s, (pc + 4) % W, 0) == After(t, if taken then To(SetPc((pc + 4) % W + 4 * w)) else Stay)
    ensures Visits(u, pc, temp, s, t, if taken then (pc + 4 + 4 * imm) % 4096 else (pc + 8) % 4096)
  {
    if taken {
      BranchGoal(pc, w, op, rs, rt, imm);
      TakenVisits(u, pc, temp, s, w, t, (pc + 4) % W + 4 * w);
    } else {
      StayVisits(u, pc, temp, s, w, t);
    }
  }

  // ----- the instructions -----

  /** BEQ (4), BNE (5), BLEZ (6), BGTZ (7). */
  predicate Taken(op: nat, a: Word, b: Word)
    requires 4 <= op <= 7
  {
    if op == 4 then a == b else if op == 5 then a != b
    else if op == 6 then a == 0 || a >= 0x8000_0000 else 0 < a < 0x8000_0000
  }

  lemma ComparingBranch<R>(u: Machine<R>, pc: Word, temp: Word, s: State<R>, op: nat, rs: nat, rt: nat, imm: nat)
    requires 4 <= op <= 7 && rs < 32 && rt < 32 && imm < 0x1_0000
    requires InFront(u, pc, s, op * 0x400_0000 + rs * 0x20_0000 + rt * 0x1_0000 + imm) && SlotRuns(u, pc, s)
    ensures Visits(u, pc, temp, s, s, if Taken(op, s.sr[rs], s.sr[rt]) then (pc + 4 + 4 * imm) % 4096 else (pc + 8) % 4096)
  {
    var w := op * 0x400_0000 + rs * 0x20_0000 + rt * 0x1_0000 + imm;
    Instructions.ImmediateFields(w, op, rs, rt, imm);
    BranchVisits(u, pc, temp, s, w, op, rs, rt, imm, s, Taken(op, s.sr[rs], s.sr[rt]));
  }

  /** The state with the address behind the slot in register r. */
  function WithLink<R>(s: State<R>, r: nat, pc: Word): State<R>
    requires r < 32
  {
    s.(sr := s.sr[r := (pc + 8) % 4096])
  }

  lemma LinkIs<R>(s: State<R>, r: nat, pc: Word)
    requires r < 32 && pc % 4 == 0
    ensures Linked(s, r, (pc + 4) % W, 0) == WithLink(s, r, pc)
  {
    Advanced(pc, 1);
  }

  /** BLTZ (0) and BGEZ (1). */
  lemma SignBranch<R>(u: Machine<R>, pc: Word, temp: Word, s: State<R>, rs: nat, rt: nat, imm: nat)
    requires rs < 32 && rt < 2 && imm < 0x1_0000
    requires InFront(u, pc, s, 0x400_0000 + rs * 0x20_0000 + rt * 0x1_0000 + imm) && SlotRuns(u, pc, s)
    ensures Visits(u, pc, temp, s, s,
                   if (rt == 0) == (s.sr[rs] >= 0x8000_0000) then (pc + 4 + 4 * imm) % 4096 else (pc + 8) % 4096)
  {
    var w := 0x400_0000 + rs * 0x20_0000 + rt * 0x1_0000 + imm;
    Instructions.ImmediateFields(w, 1, rs, rt, imm);
    BranchVisits(u, pc, temp, s, w, 1, rs, rt, imm, s, (rt == 0) == (s.sr[rs] >= 0x8000_0000));
  }

  /** BLTZAL (16) and BGEZAL (17): the link is written in any case, and before the register is tested. */
  lemma LinkBranch<R>(u: Machine<R>, pc: Word, temp: Word, s: State<R>, rs: nat, rt: nat, imm: nat)
    requires rs < 32 && (rt == 16 || rt == 17) && imm < 0x1_0000
    requires InFront(u, pc, s, 0x400_0000 + rs * 0x20_0000 + rt * 0x1_0000 + imm) && SlotRuns(u, pc, WithLink(s, 31, pc))
    ensures Visits(u, pc, temp, s, WithLink(s, 31, pc),
                   if (rt == 16) == (WithLink(s, 31, pc).sr[rs] >= 0x8000_0000) then (pc + 4 + 4 * imm) % 4096 else (pc + 8) % 4096)
  {
    var w := 0x400_0000 + rs * 0x20_0000 + rt * 0x1_0000 + imm;
    Instructions.ImmediateFields(w, 1, rs, rt, imm);
    LinkIs(s, 31, pc);
    BranchVisits(u, pc, temp, s, w, 1, rs, rt, imm, WithLink(s, 31, pc), (rt == 16) == (WithLink(s, 31, pc).sr[rs] >= 0x8000_0000));
  }

  lemma JumpFields(w: Word, op: nat, target: nat)
    requires op < 64 && target < 0x400_0000 && w == op * 0x400_0000 + target
    ensures Opcode(w) == op && Fit(4 * w) == 4 * target % 4096
  {
    Instructions.DivConst(w, 0x400_0000, op, target);
    assert 4 * w == 4 * target + 4096 * (op * 0x1_0000);
    FitPages(4 * target, op * 0x1_0000);
    FitAligned(4 * target);
  }

  /** J (2) and JAL (3). */
  lemma Jump<R>(u: Machine<R>, pc: Word, temp: Word, s: State<R>, op: nat, target: nat)
    requires (op == 2 || op == 3) && target < 0x400_0000
    requires var t := if op == 3 then WithLink(s, 31, pc) else s;
             InFront(u, pc, s, op * 0x400_0000 + target) && SlotRuns(u, pc, t)
    ensures var t := if op == 3 then WithLink(s, 31, pc) else s; Visits(u, pc, temp, s, t, 4 * target % 4096)
  {
    var w := op * 0x400_0000 + target;
    JumpFields(w, op, target);
    LinkIs(s, 31, pc);
    TakenVisits(u, pc, temp, s, w, if op == 3 then WithLink(s, 31, pc) else s, 4 * w);
  }

  /** JALR's registers: the link first, then register 0 cleared. */
  function AfterLink<R>(s: State<R>, f: nat, rd: nat, pc: Word): State<R>
    requires rd < 32
  {
    if f == 9 then s.(sr := s.sr[rd := (pc + 8) % 4096][0 := 0]) else s
  }

  /** JR (8) and JALR (9): the target is read after the link is written, its low two bits and those above twelve dropped. */
  lemma RegisterJump<R>(u: Machine<R>, pc: Word, temp: Word, s: State<R>, rs: nat, rt: nat, rd: nat, sa: nat, f: nat)
    requires rs < 32 && rt < 32 && rd < 32 && sa < 32 && (f == 8 || f == 9)
    requires InFront(u, pc, s, rs * 0x20_0000 + rt * 0x1_0000 + rd * 0x800 + sa * 64 + f) && SlotRuns(u, pc, AfterLink(s, f, rd, pc))
    ensures var t := AfterLink(s, f, rd, pc); Visits(u, pc, temp, s, t, t.sr[rs] % 4096 / 4 * 4)
  {
    var w := rs * 0x20_0000 + rt * 0x1_0000 + rd * 0x800 + sa * 64 + f;
    Instructions.RegisterFields(w, rs, rt, rd, sa, f);
    Advanced(pc, 1);
    var t := AfterLink(s, f, rd, pc);
    TakenVisits(u, pc, temp, s, w, t, t.sr[rs]);
    FitDrops(t.sr[rs]);
  }

  lemma FitDrops(x: nat)
    ensures Fit(x) == x % 4096 / 4 * 4
  {
    QuarterOf(x / 4, x % 4);
  }

  lemma QuarterOf(k: nat, r: nat)
    requires r < 4
    ensures (4 * k + r) % 4096 / 4 == k % 1024
  {
  }
}
