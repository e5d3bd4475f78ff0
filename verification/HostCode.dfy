/**
 * The code the recompiler emits, as a small instruction set over host registers, the register file
 * in memory (`sr[0..32]`), the delay-slot fields of the CPU state and two stack slots.
 *
 * `Op` is straight-line code. `Node` adds control: forward branches that are patched inside the same
 * template are two-armed conditionals; jumps that are resolved later (local gotos, the latent-slot
 * code of the region, the two thunks) are nodes of their own.
 */
module HostCode {
  import opened Words
  import opened Dmem
  import opened Isa

  const SR_WORDS: nat := 33

  /** R0 doubles as the next program counter and R1 as the return mode once the cache is flushed. */
  const NEXT_PC: nat := 0
  const MODE: nat := 1

  type RegFile = s: seq<Word> | |s| == SR_WORDS witness seq(SR_WORDS, _ => 0)

  datatype Machine = Machine(
    host: seq<Host>,       // allocatable host registers: caller-saved R registers first, then V registers
    sr: RegFile,           // CPUState::sr
    indirect: Host,        // V2: target of the last JR/JALR
    frameIndirect: Host,   // stack slot: V2 of the branch before
    frameCond: Host,       // stack slot: condition of the branch before
    slotFlag: Word,        // CPUState::has_delay_slot
    target: Word,          // CPUState::branch_target
    world: World
  )

  datatype Field = SlotFlag | Target | Indirect | FrameIndirect | FrameCond

  datatype CallKind = CallVector | CallFromC2 | CallToC2 | CallMemory | CallFromC0 | CallToC0

  datatype Op =
    | LoadSr(h: nat, k: nat, ext: Ext)
    | StoreSr(k: nat, h: nat)
    | MovI(h: nat, value: Host)
    | MovR(d: nat, s: nat)
    | Extend(h: nat, ext: Ext)
    | Compute(op: AluOp, d: nat, a: nat, b: nat)
    | ComputeI(op: AluOp, d: nat, a: nat, imm: Host)
    | Complement(d: nat)                              // xori -1
    | Mask(d: nat, a: nat, modulus: nat)              // andi (2^n - 1)
    | FlipAddress(h: nat, access: Access)             // xori endian_flip
    | HostLoadOp(access: Access, d: nat, a: nat)      // ldxr
    | HostStoreOp(access: Access, a: nat, s: nat)     // stxr
    | CallFetch(access: Access, d: nat, a: nat)       // rsp_unaligned_l*
    | CallDeposit(access: Access, a: nat, s: nat)     // rsp_unaligned_s*
    | IfMisaligned(h: nat, modulus: nat, yes: seq<Op>, no: seq<Op>)   // bmsi, with both arms joining again
    | GetField(field: Field, h: nat)
    | PutField(field: Field, h: nat)
    | KeepIndirect                                    // stack slot := V2
    | Call(kind: CallKind, r: nat, w: Word)           // handler called on register number r

  function Peek(m: Machine, h: nat): Host { if h < |m.host| then m.host[h] else ZERO }

  function Poke(m: Machine, h: nat, v: Host): Machine {
    if h < |m.host| then m.(host := m.host[h := v]) else m
  }

  function PeekSr(m: Machine, k: nat): Word { if k < SR_WORDS then m.sr[k] else 0 }

  function PokeSr(m: Machine, k: nat, v: Word): Machine {
    if k < SR_WORDS then m.(sr := m.sr[k := v]) else m
  }

  function Extended(ext: Ext, w: Word): Host { if ext.ZExt? then ZeroExt(w) else SignExt(w) }

  /** A call returns with the caller-saved registers destroyed. */
  function AfterCall(env: Env, m: Machine, world: World): Machine {
    m.(world := world,
       host := seq(|m.host|, j requires 0 <= j < |m.host| =>
         if j < env.callerSaved then env.scratch(world, j) else m.host[j]))
  }

  /** Handlers see the coprocessors, memory, and `sr[r]`; MFC0, MFC2 and CFC2 write `sr[r]` unless r is 0. */
  function Called(env: Env, m: Machine, kind: CallKind, r: nat, w: Word): Machine {
    match kind
    case CallVector => AfterCall(env, m, env.vector(m.world, w))
    case CallFromC2 =>
      AfterCall(env, if r == 0 then m else PokeSr(m, r, env.fromC2(m.world, w)), m.world)
    case CallToC2 => AfterCall(env, m, env.toC2(m.world, w, PeekSr(m, r)))
    case CallMemory => AfterCall(env, m, env.vectorMemory(m.world, w, PeekSr(m, r)))
    case CallFromC0 =>
      var res := env.fromC0(m.world, r, Rd(w));
      Poke(AfterCall(env, if r == 0 then m else PokeSr(m, r, res.value), res.world), MODE, ZeroExt(res.mode))
    case CallToC0 =>
      var res := env.toC0(m.world, Rd(w), PeekSr(m, r));
      Poke(AfterCall(env, m, res.world), MODE, ZeroExt(res.mode))
  }

  function ReadField(m: Machine, field: Field): Host {
    match field
    case SlotFlag => SignExt(m.slotFlag)
    case Target => SignExt(m.target)
    case Indirect => m.indirect
    case FrameIndirect => m.frameIndirect
    case FrameCond => m.frameCond
  }

  function WriteField(m: Machine, field: Field, v: Host): Machine {
    match field
    case SlotFlag => m.(slotFlag := v.lo)
    case Target => m.(target := v.lo)
    case Indirect => m.(indirect := v)
    case FrameIndirect => m.(frameIndirect := v)
    case FrameCond => m.(frameCond := v)
  }

  function ExecOp(env: Env, op: Op, m: Machine): (r: Machine)
    ensures |r.host| == |m.host|
    decreases op, 1
  {
    match op
    case LoadSr(h, k, ext) => Poke(m, h, Extended(ext, PeekSr(m, k)))
    case StoreSr(k, h) => PokeSr(m, k, Peek(m, h).lo)
    case MovI(h, value) => Poke(m, h, value)
    case MovR(d, s) => Poke(m, d, Peek(m, s))
    case Extend(h, ext) => Poke(m, h, Extended(ext, Peek(m, h).lo))
    case Compute(op, d, a, b) => Poke(m, d, Alu64(op, Peek(m, a), Peek(m, b)))
    case ComputeI(op, d, a, imm) => Poke(m, d, Alu64(op, Peek(m, a), imm))
    case Complement(d) => Poke(m, d, Host(W - 1 - Peek(m, d).hi, W - 1 - Peek(m, d).lo))
    case Mask(d, a, modulus) => if modulus == 0 then m else Poke(m, d, ZeroExt(Peek(m, a).lo % modulus))
    case FlipAddress(h, access) =>
      var a := Flip(access, Peek(m, h).lo);
      if a < W then Poke(m, h, Host(Peek(m, h).hi, a)) else m
    case HostLoadOp(access, d, a) => Poke(m, d, HostLoad(m.world.dmem, access, Peek(m, a).lo))
    case HostStoreOp(access, a, s) =>
      m.(world := m.world.(dmem := HostStore(m.world.dmem, access, Peek(m, a).lo, Peek(m, s).lo)))
    case CallFetch(access, d, a) =>
      Poke(AfterCall(env, m, m.world), d, SignExt(Fetch(m.world.dmem, access, Peek(m, a).lo)))
    case CallDeposit(access, a, s) =>
      AfterCall(env, m, m.world.(dmem := Deposit(m.world.dmem, access, Peek(m, a).lo, Peek(m, s).lo)))
    case IfMisaligned(h, modulus, yes, no) =>
      if modulus > 0 && Peek(m, h).lo % modulus != 0 then Exec(env, yes, m) else Exec(env, no, m)
    case GetField(field, h) => Poke(m, h, ReadField(m, field))
    case PutField(field, h) => WriteField(m, field, Peek(m, h))
    case KeepIndirect => m.(frameIndirect := m.indirect)
    case Call(kind, r, w) => Called(env, m, kind, r, w)
  }

  /** Straight-line execution. */
  function Exec(env: Env, ops: seq<Op>, m: Machine): (r: Machine)
    ensures |r.host| == |m.host|
    decreases ops, 0
  {
    if ops == [] then m else ExecOp(env, ops[|ops| - 1], Exec(env, ops[..|ops| - 1], m))
  }

  lemma ExecSnoc(env: Env, ops: seq<Op>, op: Op, m: Machine)
    ensures Exec(env, ops + [op], m) == ExecOp(env, op, Exec(env, ops, m))
  {
    assert (ops + [op])[..|ops|] == ops;
  }

  // ----- control -----

  datatype Test = IsZero(h: nat) | IsMode(h: nat, mode: Word)

  datatype Node =
    | Straight(ops: seq<Op>)
    | If(test: Test, yes: seq<Node>, no: seq<Node>)
    | LatentIfNonZero(h: nat)                         // bnei to the latent-slot code of the region
    | LocalIfNonZero(h: nat, index: nat)              // bnei to the label of an instruction of the region
    | JumpLocal(index: nat)
    | JumpEnter                                       // enter_thunk: look up the block at NEXT_PC
    | JumpReturn                                      // return_thunk: leave with NEXT_PC and MODE

  datatype Outcome =
    | Next(m: Machine)
    | Latent(m: Machine)
    | Local(index: nat, m: Machine)
    | Enter(m: Machine)
    | Return(m: Machine)

  predicate Holds(test: Test, m: Machine) {
    match test
    case IsZero(h) => Peek(m, h) == ZERO
    case IsMode(h, mode) => Peek(m, h) == ZeroExt(mode)
  }

  function RunNode(env: Env, node: Node, m: Machine): Outcome
    decreases node, 1
  {
    match node
    case Straight(ops) => Next(Exec(env, ops, m))
    case If(test, yes, no) => if Holds(test, m) then Run(env, yes, m) else Run(env, no, m)
    case LatentIfNonZero(h) => if Peek(m, h) == ZERO then Next(m) else Latent(m)
    case LocalIfNonZero(h, index) => if Peek(m, h) == ZERO then Next(m) else Local(index, m)
    case JumpLocal(index) => Local(index, m)
    case JumpEnter => Enter(m)
    case JumpReturn => Return(m)
  }

  /** Nodes run in order until one of them leaves. */
  function Run(env: Env, nodes: seq<Node>, m: Machine): Outcome
    decreases nodes, 0
  {
    if nodes == [] then Next(m)
    else
      var o := RunNode(env, nodes[0], m);
      if o.Next? then Run(env, nodes[1..], o.m) else o
  }

  /** Go on with more code after a piece that fell through. */
  function Then(env: Env, o: Outcome, rest: seq<Node>): Outcome { if o.Next? then Run(env, rest, o.m) else o }

  lemma {:induction false} RunConcat(env: Env, a: seq<Node>, b: seq<Node>, m: Machine)
    ensures Run(env, a + b, m) == Then(env, Run(env, a, m), b)
    decreases |a|
  {
    if a == [] {
      assert a + b == b;
    } else {
      assert (a + b)[0] == a[0] && (a + b)[1..] == a[1..] + b;
      if RunNode(env, a[0], m).Next? {
        RunConcat(env, a[1..], b, RunNode(env, a[0], m).m);
      }
    }
  }
}
