/**
 * After an instruction has run: where its delay-slot code sends control, in terms of the branch that
 * was pending when the instruction started.
 */
module SlotOutcome {
  import opened Words
  import opened Isa
  import opened HostCode
  import opened RegCache
  import opened RegCacheProofs
  import opened Emitter
  import opened Region
  import opened Recompiler
  import opened InstrProofs
  import opened BranchProofs
  import opened SlotProofs
  import opened StepProofs
  import opened HandlerProofs

  /** Control falls through with the outcome of the instruction pending. */
  predicate Passes(env: Env, c: Cache, m: Machine, regs: Regs, cond: Word, info: Info, pending: Pending) {
    && Start(env, c, m, regs, cond) && |m.host| == env.hostRegisters
    && m.slotFlag == 0 && Encodes(info, pending, cond, m.indirect)
  }

  /** The slot came from the block before; the latent-slot code has everything in memory. */
  predicate Inherits(env: Env, m: Machine, regs: Regs, cond: Word, info: Info, jump: Pending, target: nat) {
    && m.sr == File(regs, cond) && |m.host| == env.hostRegisters && regs[0] == 0
    && WordIndex(m.target) == target && Encodes(info, jump, cond, m.indirect)
  }

  /** A goto to a label of the region. */
  predicate Goes(env: Env, m: Machine, regs: Regs) {
    m.sr == File(regs, 0) && |m.host| == env.hostRegisters && regs[0] == 0 && m.slotFlag == 0
  }

  /** Behind an unconditional branch the code forgets the outcome of a conditional one. */
  predicate Forgets(info: Info, last: Info) {
    last.branch && !last.conditional && info.branch && info.conditional
  }

  function Handed(info: Info, last: Info, jump: Pending): Pending { if Forgets(info, last) then NoSlot else jump }

  predicate SlotDone(env: Env, o: Outcome, c: Cache, m: Machine, cond: Word, e: Effect, info: Info, last: Info, first: bool,
                     pending: Pending, base: nat, end: nat)
  {
    && m.world == e.world
    && match pending
       case NoSlot => o == Next(m) && Passes(env, c, m, e.regs, cond, info, e.jump)
       case Slot(target) =>
         if first then o == Latent(m) && Inherits(env, m, e.regs, cond, info, e.jump, target)
         else if info.branch then o == Enter(m) && Enters(env, m, e.regs, e.world, target, Handed(info, last, e.jump))
         else if IsLocal(last, base, end) then
           o == Local((last.target - 4 * base) / 4, m) && Goes(env, m, e.regs) && target == TargetWord(last, ZERO)
         else o == Enter(m) && Enters(env, m, e.regs, e.world, target, e.jump)
  }

  /** The instruction ran in front of its delay-slot code q. */
  predicate Ready(env: Env, c: Cache, m: Machine, m': Machine, e: Effect, info: Info, last: Info, first: bool, cond: Word,
                  cond': Word, pending: Pending)
  {
    && Executed(env, c, m, m', e, info, last, cond, cond') && PendingIs(first, last, cond, m, pending)
    && !info.handlesSlot && |m.host| == env.hostRegisters >= 3
  }

  lemma FirstOutcome(env: Env, c: Cache, m: Machine, m': Machine, e: Effect, info: Info, last: Info, cond: Word, cond': Word,
                     pending: Pending, base: nat, end: nat)
    returns (m'': Machine)
    requires Ready(env, c, m, m', e, info, last, true, cond, cond', pending)
    ensures var q := LatentCheck(c);
            SlotDone(env, Run(env, q.nodes, m'), q.cache, m'', cond', e, info, last, true, pending, base, end)
  {
    m'' := LatentCheckSim(env, c, m', e.regs, cond');
  }

  lemma PlainOutcome(env: Env, c: Cache, m: Machine, m': Machine, e: Effect, info: Info, last: Info, cond: Word, cond': Word,
                     pending: Pending, base: nat, end: nat)
    requires Ready(env, c, m, m', e, info, last, false, cond, cond', pending) && !last.branch
    ensures SlotDone(env, Run(env, [], m'), c, m', cond', e, info, last, false, pending, base, end)
  {
  }

  lemma ResolveOutcome(env: Env, c: Cache, m: Machine, m': Machine, e: Effect, info: Info, last: Info, cond: Word, cond': Word,
                       pending: Pending, base: nat, end: nat)
    returns (m'': Machine)
    requires Ready(env, c, m, m', e, info, last, false, cond, cond', pending) && last.branch && !info.branch
    ensures var q := ResolveSlot(c, last, base, end);
            SlotDone(env, Run(env, q.nodes, m'), q.cache, m'', 0, e, info, last, false, pending, base, end)
  {
    if last.conditional {
      m'' := BranchSlotSim(env, c, m', e.regs, cond', last, base, end);
    } else {
      m'' := JumpSlotSim(env, c, m', e.regs, cond', last, base, end);
    }
    var q := ResolveSlot(c, last, base, end);
    ResolvedOutcome(env, Run(env, q.nodes, m'), q.cache, c, m, m', m'', e, info, last, cond, cond', pending, base, end);
  }

  lemma ResolvedOutcome(env: Env, o: Outcome, c': Cache, c: Cache, m: Machine, m': Machine, m'': Machine, e: Effect, info: Info,
                        last: Info, cond: Word, cond': Word, pending: Pending, base: nat, end: nat)
    requires Ready(env, c, m, m', e, info, last, false, cond, cond', pending) && last.branch && !info.branch
    requires Resolved(env, o, c', m', m'', e.regs, last, pending.Slot?, base, end)
    ensures SlotDone(env, o, c', m'', 0, e, info, last, false, pending, base, end)
  {
    assert File(e.regs, 0)[..32] == e.regs;
  }

  lemma DoubleOutcome(env: Env, c: Cache, m: Machine, m': Machine, e: Effect, info: Info, last: Info, cond: Word, cond': Word,
                      pending: Pending, base: nat, end: nat)
    returns (m'': Machine)
    requires Ready(env, c, m, m', e, info, last, false, cond, cond', pending) && last.branch && info.branch
    ensures var q := ResolveDoubleBranch(c, info, last);
            SlotDone(env, Run(env, q.nodes, m'), q.cache, m'', cond', e, info, last, false, pending, base, end)
  {
    m'' := DoubleBranchSim(env, c, m', e.regs, cond', info, last);
    var q := ResolveDoubleBranch(c, info, last);
    DoubleDone(env, Run(env, q.nodes, m'), q.cache, c, m, m', m'', e, info, last, cond, cond', pending, base, end);
  }

  lemma DoubleDone(env: Env, o: Outcome, c': Cache, c: Cache, m: Machine, m': Machine, m'': Machine, e: Effect, info: Info,
                   last: Info, cond: Word, cond': Word, pending: Pending, base: nat, end: nat)
    requires Ready(env, c, m, m', e, info, last, false, cond, cond', pending) && last.branch && info.branch
    requires DoubleResolved(env, o, c', m', m'', e.regs, cond', info, last)
    ensures SlotDone(env, o, c', m'', cond', e, info, last, false, pending, base, end)
  {
    assert File(e.regs, cond')[..32] == e.regs;
  }

  /** The delay-slot code of any instruction. */
  lemma SlotCodeSim(env: Env, c: Cache, m: Machine, m': Machine, e: Effect, info: Info, last: Info, first: bool, cond: Word,
                    cond': Word, pending: Pending, base: nat, end: nat)
    returns (m'': Machine, cond'': Word)
    requires Ready(env, c, m, m', e, info, last, first, cond, cond', pending) && (first ==> !last.branch)
    ensures var q := CompileSlot(c, info, last, first, base, end);
            SlotDone(env, Run(env, q.nodes, m'), q.cache, m'', cond'', e, info, last, first, pending, base, end)
  {
    cond'' := cond';
    OpenSlot(c, info, last, first, base, end);
    if first {
      m'' := FirstOutcome(env, c, m, m', e, info, last, cond, cond', pending, base, end);
    } else if !last.branch {
      m'' := m';
      PlainOutcome(env, c, m, m', e, info, last, cond, cond', pending, base, end);
    } else if info.branch {
      m'' := DoubleOutcome(env, c, m, m', e, info, last, cond, cond', pending, base, end);
    } else {
      cond'' := 0;
      m'' := ResolveOutcome(env, c, m, m', e, info, last, cond, cond', pending, base, end);
    }
  }
}
