/**
 * The code around instructions: exits, the latent check, and the delay-slot handlers.
 */
module SlotProofs {
  import opened Words
  import opened Isa
  import opened HostCode
  import opened RegCache
  import opened RegCacheProofs
  import opened Emitter
  import opened MemoryEmitter
  import opened Region
  import opened Recompiler
  import opened InstrProofs
  import opened BranchProofs

  // ----- running short pieces of code -----

  lemma ExecOne(env: Env, a: Op, m: Machine)
    ensures Exec(env, [a], m) == ExecOp(env, a, m)
  {
    assert [a] == [] + [a];
    ExecSnoc(env, [], a, m);
  }

  lemma ExecTwo(env: Env, a: Op, b: Op, m: Machine)
    ensures Exec(env, [a, b], m) == ExecOp(env, b, ExecOp(env, a, m))
  {
    ExecOne(env, a, m);
    assert [a, b] == [a] + [b];
    ExecSnoc(env, [a], b, m);
  }

  lemma ExecThree(env: Env, a: Op, b: Op, c: Op, m: Machine)
    ensures Exec(env, [a, b, c], m) == ExecOp(env, c, ExecOp(env, b, ExecOp(env, a, m)))
  {
    ExecTwo(env, a, b, m);
    assert [a, b, c] == [a, b] + [c];
    ExecSnoc(env, [a, b], c, m);
  }

  lemma ExecFour(env: Env, a: Op, b: Op, c: Op, d: Op, m: Machine)
    ensures Exec(env, [a, b, c, d], m) == ExecOp(env, d, ExecOp(env, c, ExecOp(env, b, ExecOp(env, a, m))))
  {
    ExecThree(env, a, b, c, m);
    assert [a, b, c, d] == [a, b, c] + [d];
    ExecSnoc(env, [a, b, c], d, m);
  }

  lemma RunCons(env: Env, node: Node, rest: seq<Node>, m: Machine)
    ensures Run(env, [node] + rest, m) == Then(env, RunNode(env, node, m), rest)
  {
    assert ([node] + rest)[1..] == rest;
  }

  lemma RunStraight(env: Env, ops: seq<Op>, rest: seq<Node>, m: Machine)
    ensures Run(env, [Straight(ops)] + rest, m) == Run(env, rest, Exec(env, ops, m))
  {
    RunCons(env, Straight(ops), rest, m);
  }

  lemma RunLast(env: Env, node: Node, m: Machine)
    ensures Run(env, [node], m) == RunNode(env, node, m)
  {
    assert [node] == [node] + [];
    RunCons(env, node, [], m);
  }

  /** A straight piece followed by a jump. */
  lemma RunThen(env: Env, ops: seq<Op>, node: Node, m: Machine)
    ensures Run(env, [Straight(ops), node], m) == RunNode(env, node, Exec(env, ops, m))
  {
    assert [Straight(ops), node] == [Straight(ops)] + [node];
    RunStraight(env, ops, [node], m);
    RunLast(env, node, Exec(env, ops, m));
  }

  // ----- pending slots -----

  /** The slot handed to a block through the CPU state. */
  function StateSlot(m: Machine): Pending { if m.slotFlag == 0 then NoSlot else Slot(WordIndex(m.target)) }

  /** Where a pending branch is recorded: in the CPU state on block entry, otherwise by the compiler. */
  predicate PendingIs(first: bool, last: Info, cond: Word, m: Machine, pending: Pending) {
    if first then pending == StateSlot(m)
    else m.slotFlag == 0 && Encodes(last, pending, cond, m.indirect)
  }

  function NextWord(at: nat, pending: Pending): nat {
    match pending
    case NoSlot => (at + 1) % MEM_WORDS
    case Slot(t) => t
  }

  lemma PcWord(k: nat)
    ensures WordIndex(PcImm(k).lo) == k % MEM_WORDS
  {
    WordOfAddr(k);
  }

  lemma TargetOpValue(env: Env, m: Machine, info: Info, h: nat) returns (v: Host)
    ensures ExecOp(env, TargetOp(info, h), m) == Poke(m, h, v)
    ensures WordIndex(v.lo) == TargetWord(info, m.indirect)
  {
    v := if info.indirect then m.indirect else TargetImm(info.target);
  }

  // ----- exits -----

  /** Leaving with the given next word; a pending slot has been folded into it. */
  predicate Leaves(m: Machine, m': Machine, next: nat) {
    && m' == m.(host := m'.host, slotFlag := 0)
    && |m'.host| == |m.host| >= 2 && m'.host[MODE] == m.host[MODE]
    && WordIndex(m'.host[NEXT_PC].lo) == next
  }

  lemma ExitSim(env: Env, m: Machine, at: nat, last: Info, first: bool, pending: Pending) returns (m': Machine)
    requires |m.host| >= 2 && PendingIs(first, last, m.sr[COND], m, pending)
    ensures Run(env, ExitNodes(at, last, first), m) == Return(m')
    ensures Leaves(m, m', NextWord(at, pending))
  {
    if first {
      m' := ExitFirst(env, m, at, last);
    } else if last.branch && last.conditional {
      m' := ExitConditional(env, m, at, last, pending);
    } else if last.branch {
      var v := TargetOpValue(env, m, last, NEXT_PC);
      m' := Poke(m, NEXT_PC, v);
      ExecOne(env, TargetOp(last, NEXT_PC), m);
      RunThen(env, [TargetOp(last, NEXT_PC)], JumpReturn, m);
    } else {
      PcWord(at + 1);
      m' := Poke(m, NEXT_PC, PcImm(at + 1));
      ExecOne(env, MovI(NEXT_PC, PcImm(at + 1)), m);
      RunThen(env, [MovI(NEXT_PC, PcImm(at + 1))], JumpReturn, m);
    }
  }

  lemma ExitFirst(env: Env, m: Machine, at: nat, last: Info) returns (m': Machine)
    requires |m.host| >= 2
    ensures Run(env, ExitNodes(at, last, true), m) == Return(m')
    ensures Leaves(m, m', NextWord(at, StateSlot(m)))
  {
    var m1 := Poke(m, NEXT_PC, SignExt(m.slotFlag));
    ExecOne(env, GetField(SlotFlag, NEXT_PC), m);
    var stay := [MovI(NEXT_PC, PcImm(at + 1))];
    var take := [MovI(NEXT_PC, ZERO), PutField(SlotFlag, NEXT_PC), GetField(Target, NEXT_PC)];
    var branch := If(IsZero(NEXT_PC), [Straight(stay), JumpReturn], [Straight(take), JumpReturn]);
    RunThen(env, [GetField(SlotFlag, NEXT_PC)], branch, m);
    if m.slotFlag == 0 {
      PcWord(at + 1);
      m' := Poke(m1, NEXT_PC, PcImm(at + 1));
      ExecOne(env, stay[0], m1);
      RunThen(env, stay, JumpReturn, m1);
    } else {
      m' := TakeSlot(env, m1);
      RunThen(env, take, JumpReturn, m1);
    }
  }

  /** Clear has_delay_slot and fetch branch_target. */
  lemma TakeSlot(env: Env, m: Machine) returns (m': Machine)
    requires |m.host| >= 1
    ensures Exec(env, [MovI(NEXT_PC, ZERO), PutField(SlotFlag, NEXT_PC), GetField(Target, NEXT_PC)], m) == m'
    ensures m' == m.(host := m.host[NEXT_PC := SignExt(m.target)], slotFlag := 0)
  {
    ExecThree(env, MovI(NEXT_PC, ZERO), PutField(SlotFlag, NEXT_PC), GetField(Target, NEXT_PC), m);
    m' := m.(host := m.host[NEXT_PC := SignExt(m.target)], slotFlag := 0);
    assert m.host[NEXT_PC := ZERO][NEXT_PC := SignExt(m.target)] == m'.host;
  }

  lemma ExitConditional(env: Env, m: Machine, at: nat, last: Info, pending: Pending) returns (m': Machine)
    requires |m.host| >= 2 && last.branch && last.conditional && PendingIs(false, last, m.sr[COND], m, pending)
    ensures Run(env, ExitNodes(at, last, false), m) == Return(m')
    ensures Leaves(m, m', NextWord(at, pending))
  {
    var m1 := Poke(m, NEXT_PC, SignExt(m.sr[COND]));
    var stay, take := MovI(NEXT_PC, PcImm(at + 1)), TargetOp(last, NEXT_PC);
    var branch := If(IsZero(NEXT_PC), [Straight([stay])], [Straight([take])]);
    ExecOne(env, LoadSr(NEXT_PC, COND, SExt), m);
    assert ExitNodes(at, last, false) == [Straight([LoadSr(NEXT_PC, COND, SExt)])] + ([branch] + [JumpReturn]);
    RunStraight(env, [LoadSr(NEXT_PC, COND, SExt)], [branch] + [JumpReturn], m);
    RunCons(env, branch, [JumpReturn], m1);
    if m.sr[COND] == 0 {
      PcWord(at + 1);
      m' := Poke(m1, NEXT_PC, PcImm(at + 1));
      ExecOne(env, stay, m1);
      RunLast(env, Straight([stay]), m1);
    } else {
      var v := TargetOpValue(env, m1, last, NEXT_PC);
      m' := Poke(m1, NEXT_PC, v);
      ExecOne(env, take, m1);
      RunLast(env, Straight([take]), m1);
    }
    RunLast(env, JumpReturn, m');
  }
}
