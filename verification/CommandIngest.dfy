/**
 * Command ingest: lists of 64-bit words arrive in pieces, are appended to a buffer and parsed into
 * commands of opcode-dependent length; an unfinished command waits for the next piece.
 *
 * Parsing is stated for any length function and any effect of a command; `Rdp` is the actual one.
 */
module CommandIngest {
  import opened Words
  import opened CommandStream

  /** A 64-bit word of a command list, as its two 32-bit halves. */
  datatype Pair = Pair(first: Word, second: Word)

  type Command = seq<Pair>

  datatype Event = Enqueued(words: Command) | Waited | Interrupt

  /** How many words a command needs, told from its first, and what a complete command makes happen. */
  datatype Grammar = Grammar(need: Needs<Pair>, effect: Command -> seq<Event>)

  // ----- what commands make happen -----

  function Events(g: Grammar, cs: seq<Command>): seq<Event> {
    if cs == [] then [] else Events(g, cs[..|cs| - 1]) + g.effect(cs[|cs| - 1])
  }

  lemma EventsSnoc(g: Grammar, cs: seq<Command>, c: Command)
    ensures Events(g, cs + [c]) == Events(g, cs) + g.effect(c)
  {
    assert (cs + [c])[..|cs|] == cs;
  }

  lemma {:induction false} EventsAppend(g: Grammar, a: seq<Command>, b: seq<Command>)
    ensures Events(g, a + b) == Events(g, a) + Events(g, b)
    decreases |b|
  {
    if b == [] {
      assert a + b == a;
    } else {
      var n := |b| - 1;
      EventsAppend(g, a, b[..n]);
      assert a + b == (a + b[..n]) + [b[n]];
      EventsSnoc(g, a + b[..n], b[n]);
    }
  }

  /** One more command is taken off the buffer and has its effect. */
  lemma OneCommand(g: Grammar, words: seq<Pair>, done: seq<Command>, left: seq<Pair>, c: Command, tail: seq<Pair>,
                   before: seq<Event>, log: seq<Event>)
    requires Underway(g.need, words, done, left) && !Incomplete(g.need, left) && left == c + tail && |c| == g.need(left[0])
    requires log == before + Events(g, done)
    ensures Underway(g.need, words, done + [c], tail) && log + g.effect(c) == before + Events(g, done + [c])
  {
    ParseGoesOn(g.need, words, done, left, c, tail);
    EventsSnoc(g, done, c);
  }

  // ----- the state between calls -----

  const LAST_WORD: nat := 0x7FFF

  /** The buffer holds `ptr` words, of which the last |pending| are not parsed yet. */
  datatype State = State(ptr: nat, pending: seq<Pair>, log: seq<Event>)

  predicate Valid(g: Grammar, s: State) { |s.pending| <= s.ptr <= LAST_WORD && Incomplete(g.need, s.pending) }

  predicate Fits(s: State, chunk: seq<Pair>) { s.ptr + |chunk| <= LAST_WORD }

  /** One call with the words of its list; a list that does not fit is dropped. */
  function Feed(g: Grammar, s: State, chunk: seq<Pair>): State {
    if chunk == [] || !Fits(s, chunk) then s
    else
      var p := Parse(g.need, s.pending + chunk);
      State(if p.rest == [] then 0 else s.ptr + |chunk|, p.rest, s.log + Events(g, p.commands))
  }

  function FeedAll(g: Grammar, s: State, chunks: seq<seq<Pair>>): State
    decreases |chunks|
  {
    if chunks == [] then s else FeedAll(g, Feed(g, s, chunks[0]), chunks[1..])
  }

  /** A call keeps the buffer in bounds and the pending words a strict prefix of one command. */
  lemma FeedValid(g: Grammar, s: State, chunk: seq<Pair>)
    requires Valid(g, s)
    ensures Valid(g, Feed(g, s, chunk))
    ensures Fits(s, chunk) ==> Feed(g, s, chunk).ptr <= s.ptr + |chunk|
  {
    ParseConserves(g.need, s.pending + chunk);
    RestShorter(Parse(g.need, s.pending + chunk));
  }

  lemma RestShorter(p: Parsed<Pair>)
    ensures |p.rest| <= |Flatten(p.commands) + p.rest|
  {
  }

  /** With nothing new there is nothing to parse. */
  lemma ParsePending(g: Grammar, s: State)
    requires Valid(g, s)
    ensures Parse(g.need, s.pending) == Parsed([], s.pending)
  {
  }

  /** Two calls do what one call with both pieces does. */
  lemma FeedTwice(g: Grammar, s: State, a: seq<Pair>, b: seq<Pair>)
    requires Valid(g, s) && Fits(s, a + b)
    ensures var two, one := Feed(g, Feed(g, s, a), b), Feed(g, s, a + b);
            two.log == one.log && two.pending == one.pending
  {
    FeedValid(g, s, a);
    if a == [] {
      assert a + b == b;
    } else if b == [] {
      assert a + b == a;
    } else {
      FeedTwiceCore(g, s, a, b, Parse(g.need, s.pending + a));
    }
  }

  lemma FeedTwiceCore(g: Grammar, s: State, a: seq<Pair>, b: seq<Pair>, p: Parsed<Pair>)
    requires Valid(g, s) && Fits(s, a + b) && a != [] && b != [] && p == Parse(g.need, s.pending + a)
    ensures var two, one := Feed(g, Feed(g, s, a), b), Feed(g, s, a + b);
            two.log == one.log && two.pending == one.pending
  {
    var q, r := Parse(g.need, p.rest + b), Parse(g.need, s.pending + (a + b));
    Regrouped(s.pending, a, b);
    Resumed(g, s.pending + a, b, p, q, r);
    LogJoined(g, s.log, p.commands, q.commands);
    FeedIs(g, s, a, p);
    FeedIs(g, Feed(g, s, a), b, q);
    FeedIs(g, s, a + b, r);
  }

  /** A call with a list that fits. */
  lemma FeedIs(g: Grammar, s: State, chunk: seq<Pair>, p: Parsed<Pair>)
    requires chunk != [] && Fits(s, chunk) && p == Parse(g.need, s.pending + chunk)
    ensures Feed(g, s, chunk) == State(if p.rest == [] then 0 else s.ptr + |chunk|, p.rest, s.log + Events(g, p.commands))
  {
  }

  lemma Resumed(g: Grammar, words: seq<Pair>, b: seq<Pair>, p: Parsed<Pair>, q: Parsed<Pair>, r: Parsed<Pair>)
    requires p == Parse(g.need, words) && q == Parse(g.need, p.rest + b) && r == Parse(g.need, words + b)
    ensures r.commands == p.commands + q.commands && r.rest == q.rest
  {
    ParseResumes(g.need, words, b);
  }

  lemma Regrouped<T>(a: seq<T>, b: seq<T>, c: seq<T>)
    ensures a + (b + c) == (a + b) + c
  {
  }

  lemma SplitSlice(s: seq<Pair>, a: nat, b: nat, c: nat)
    requires a <= b <= c <= |s|
    ensures s[a..c] == s[a..b] + s[b..c]
  {
  }

  lemma LogJoined(g: Grammar, log: seq<Event>, a: seq<Command>, b: seq<Command>)
    ensures (log + Events(g, a)) + Events(g, b) == log + Events(g, a + b)
  {
    EventsAppend(g, a, b);
  }

  /** Cutting a list that fits into any pieces gives the same commands, interrupts and pending words. */
  lemma {:induction false} ChunkingIsInvisible(g: Grammar, s: State, chunks: seq<seq<Pair>>)
    requires Valid(g, s) && Fits(s, Flatten(chunks))
    ensures FeedAll(g, s, chunks).log == Feed(g, s, Flatten(chunks)).log
    ensures FeedAll(g, s, chunks).pending == Feed(g, s, Flatten(chunks)).pending
    decreases |chunks|
  {
    if chunks != [] {
      var a, b := chunks[0], Flatten(chunks[1..]);
      FeedValid(g, s, a);
      ChunkingIsInvisible(g, Feed(g, s, a), chunks[1..]);
      FeedTwice(g, s, a, b);
    }
  }

  /** Words in are words parsed plus words pending. */
  lemma FeedConserves(g: Grammar, s: State, chunk: seq<Pair>) returns (cs: seq<Command>)
    requires Valid(g, s) && Fits(s, chunk)
    ensures forall k :: 0 <= k < |cs| ==> Complete(g.need, cs[k])
    ensures Flatten(cs) + Feed(g, s, chunk).pending == s.pending + chunk
    ensures Feed(g, s, chunk).log == s.log + Events(g, cs)
  {
    cs := Parse(g.need, s.pending + chunk).commands;
    ParseConserves(g.need, s.pending + chunk);
    if chunk == [] {
      assert s.pending + chunk == s.pending;
      ParsePending(g, s);
    }
  }

  // ----- the actual command set -----

  function Opcode(p: Pair): nat { (p.first / 0x100_0000) % 64 }

  const SYNC_FULL: nat := 0x29

  /** cmd_len_lut */
  function Length(op: nat): (n: nat)
    ensures n >= 1
  {
    match op
    case 8 => 4
    case 9 => 6
    case 10 => 12
    case 11 => 14
    case 12 => 12
    case 13 => 14
    case 14 => 20
    case 15 => 22
    case 36 => 2
    case 37 => 2
    case _ => 1
  }

  /** Commands below 8 are not enqueued; SyncFull waits in synchronous mode and raises an interrupt. */
  function Effect(c: Command, frontend: bool, synchronous: bool): seq<Event> {
    if c == [] then []
    else
      (if Opcode(c[0]) >= 8 && frontend then [Enqueued(c)] else [])
      + (if Opcode(c[0]) == SYNC_FULL then (if synchronous && frontend then [Waited] else []) + [Interrupt] else [])
  }

  function Rdp(frontend: bool, synchronous: bool): Grammar {
    Grammar((p: Pair) => Length(Opcode(p)), (c: Command) => Effect(c, frontend, synchronous))
  }

  // ----- what reaches the command processor, however a list is cut -----

  function Interrupts(log: seq<Event>): nat {
    if log == [] then 0 else Interrupts(log[..|log| - 1]) + if log[|log| - 1].Interrupt? then 1 else 0
  }

  function Enqueues(log: seq<Event>): seq<Command> {
    if log == [] then [] else Enqueues(log[..|log| - 1]) + if log[|log| - 1].Enqueued? then [log[|log| - 1].words] else []
  }

  lemma {:induction false} LogAppend(a: seq<Event>, b: seq<Event>)
    ensures Interrupts(a + b) == Interrupts(a) + Interrupts(b) && Enqueues(a + b) == Enqueues(a) + Enqueues(b)
    decreases |b|
  {
    if b == [] {
      assert a + b == a;
    } else {
      var n := |b| - 1;
      LogAppend(a, b[..n]);
      LogMore(a, b[..n], b[n], b);
    }
  }

  lemma LogSnoc(log: seq<Event>, x: Event)
    ensures Interrupts(log + [x]) == Interrupts(log) + if x.Interrupt? then 1 else 0
    ensures Enqueues(log + [x]) == Enqueues(log) + if x.Enqueued? then [x.words] else []
  {
    assert (log + [x])[..|log|] == log;
  }

  lemma LogMore(a: seq<Event>, b: seq<Event>, x: Event, bx: seq<Event>)
    requires Interrupts(a + b) == Interrupts(a) + Interrupts(b) && Enqueues(a + b) == Enqueues(a) + Enqueues(b) && bx == b + [x]
    ensures Interrupts(a + bx) == Interrupts(a) + Interrupts(bx) && Enqueues(a + bx) == Enqueues(a) + Enqueues(bx)
  {
    Regrouped(a, b, [x]);
    LogSnoc(a + b, x);
    LogSnoc(b, x);
    Regrouped(Enqueues(a), Enqueues(b), if x.Enqueued? then [x.words] else []);
  }

  predicate IsSyncFull(c: Command) { c != [] && Opcode(c[0]) == SYNC_FULL }

  function Syncs(cs: seq<Command>): nat {
    if cs == [] then 0 else Syncs(cs[..|cs| - 1]) + if IsSyncFull(cs[|cs| - 1]) then 1 else 0
  }

  /** The commands that are not no-operations. */
  function Operations(cs: seq<Command>): seq<Command> {
    if cs == [] then []
    else Operations(cs[..|cs| - 1]) + if cs[|cs| - 1] != [] && Opcode(cs[|cs| - 1][0]) >= 8 then [cs[|cs| - 1]] else []
  }

  /** One SyncFull raises one interrupt, one operation is enqueued once. */
  lemma OneEffect(c: Command, frontend: bool, synchronous: bool)
    ensures Interrupts(Effect(c, frontend, synchronous)) == if IsSyncFull(c) then 1 else 0
    ensures Enqueues(Effect(c, frontend, synchronous)) == if frontend && c != [] && Opcode(c[0]) >= 8 then [c] else []
  {
    if c != [] {
      var enqueue := if Opcode(c[0]) >= 8 && frontend then [Enqueued(c)] else [];
      var wait := if synchronous && frontend then [Waited] else [];
      var sync := if Opcode(c[0]) == SYNC_FULL then wait + [Interrupt] else [];
      assert Effect(c, frontend, synchronous) == enqueue + sync;
      LogAppend(enqueue, sync);
      LogAppend(wait, [Interrupt]);
    }
  }

  lemma {:induction false} EventsOfCommands(cs: seq<Command>, frontend: bool, synchronous: bool)
    ensures Interrupts(Events(Rdp(frontend, synchronous), cs)) == Syncs(cs)
    ensures Enqueues(Events(Rdp(frontend, synchronous), cs)) == if frontend then Operations(cs) else []
    decreases |cs|
  {
    if cs != [] {
      var g, n := Rdp(frontend, synchronous), |cs| - 1;
      EventsOfCommands(cs[..n], frontend, synchronous);
      OneEffect(cs[n], frontend, synchronous);
      LogAppend(Events(g, cs[..n]), g.effect(cs[n]));
    }
  }

  /**
   * The actual command set: however a list is cut, its words are complete commands and the pending rest;
   * every operation is enqueued once, in order, and every SyncFull raises exactly one interrupt.
   */
  lemma ListsDelivered(frontend: bool, synchronous: bool, s: State, chunks: seq<seq<Pair>>) returns (cs: seq<Command>)
    requires var g := Rdp(frontend, synchronous); Valid(g, s) && Fits(s, Flatten(chunks))
    ensures var g := Rdp(frontend, synchronous);
            var s' := FeedAll(g, s, chunks);
            && (forall k :: 0 <= k < |cs| ==> Complete(g.need, cs[k]))
            && Flatten(cs) + s'.pending == s.pending + Flatten(chunks)
            && Interrupts(s'.log) == Interrupts(s.log) + Syncs(cs)
            && Enqueues(s'.log) == Enqueues(s.log) + if frontend then Operations(cs) else []
  {
    var g := Rdp(frontend, synchronous);
    ChunkingIsInvisible(g, s, chunks);
    cs := FeedConserves(g, s, Flatten(chunks));
    EventsOfCommands(cs, frontend, synchronous);
    LogAppend(s.log, Events(g, cs));
  }

  // ----- one call -----

  const DMEM_PAIRS: nat := 0x200
  const DRAM_PAIRS: nat := 0x20_0000

  /** The 24-bit address of a register, in 64-bit words. */
  function WordAddress(register: Word): nat { (register % 0x100_0000) / 8 }

  /** The list between two addresses; the memory wraps around. */
  function ListAt(memory: seq<Pair>, from: nat, to: nat): seq<Pair>
    requires |memory| > 0
  {
    if to <= from then [] else ListAt(memory, from, to - 1) + [memory[(to - 1) % |memory|]]
  }

  lemma {:induction false} ListLength(memory: seq<Pair>, from: nat, to: nat)
    requires |memory| > 0 && from <= to
    ensures |ListAt(memory, from, to)| == to - from
  {
    if from < to {
      ListLength(memory, from, to - 1);
    }
  }

  /** The list a call is given: bit 0 of the status selects the memory. */
  ghost function Incoming(current: Word, end: Word, status: Word, dram: seq<Pair>, dmem: seq<Pair>): seq<Pair>
    requires |dram| == DRAM_PAIRS && |dmem| == DMEM_PAIRS
  {
    ListAt(if status % 2 == 1 then dmem else dram, WordAddress(current), WordAddress(end))
  }

  class Ingest {
    const data: array<Pair>      // cmd_data
    var cur: nat                 // cmd_cur
    var ptr: nat                 // cmd_ptr
    var start: Word              // DPC registers
    var end: Word
    var current: Word
    var status: Word
    var log: seq<Event>

    ghost predicate InBounds()
      reads this
    {
      data.Length == 0x8000 && cur <= ptr <= LAST_WORD
    }

    constructor ()
      ensures fresh(data) && InBounds() && Value() == State(0, [], [])
    {
      data := new Pair[0x8000](_ => Pair(0, 0));
      cur, ptr, log := 0, 0, [];
      start, end, current, status := 0, 0, 0, 0;
    }

    ghost function Value(): State
      requires InBounds()
      reads this, data
    {
      State(ptr, data[cur..ptr], log)
    }

    /** The copying loop: `count` words from the given address on, the address masked before each read. */
    method Copy(memory: seq<Pair>, from: nat, to: nat)
      requires InBounds() && ptr + (to - from) <= LAST_WORD && from < to && |memory| > 0
      modifies this`ptr, data
      ensures InBounds() && ptr == old(ptr) + (to - from)
      ensures data[cur..ptr] == old(data[cur..ptr]) + ListAt(memory, from, to)
    {
      var address := from;
      while address < to
        invariant from <= address <= to && ptr == old(ptr) + (address - from)
        invariant data[cur..ptr] == old(data[cur..ptr]) + ListAt(memory, from, address)
      {
        data[ptr] := memory[address % |memory|];
        address, ptr := address + 1, ptr + 1;
        assert data[cur..ptr] == data[cur..ptr - 1] + [memory[(address - 1) % |memory|]];
      }
    }

    /** Take the next command, of n words, off the buffer. */
    method TakeOne(g: Grammar, n: nat, ghost words: seq<Pair>, ghost done: seq<Command>, ghost before: seq<Event>)
      returns (ghost done': seq<Command>)
      requires InBounds() && cur < ptr && n == g.need(data[cur]) && cur + n <= ptr
      requires Underway(g.need, words, done, data[cur..ptr]) && log == before + Events(g, done)
      modifies this`cur, this`log
      ensures InBounds() && old(cur) < cur
      ensures Underway(g.need, words, done', data[cur..ptr]) && log == before + Events(g, done')
    {
      var c := data[cur..cur + n];
      ghost var left, tail := data[cur..ptr], data[cur + n..ptr];
      SplitSlice(data[..], cur, cur + n, ptr);
      OneCommand(g, words, done, left, c, tail, before, log);
      log := log + g.effect(c);
      cur := cur + n;
      done' := done + [c];
    }

    /** The parsing loop: stops at an unfinished command or at the end of the buffer. */
    method ParseLoop(g: Grammar) returns (ghost done: seq<Command>)
      requires InBounds()
      modifies this`cur, this`log
      ensures InBounds() && Incomplete(g.need, data[cur..ptr])
      ensures Underway(g.need, old(data[cur..ptr]), done, data[cur..ptr]) && log == old(log) + Events(g, done)
    {
      ghost var words := data[cur..ptr];
      done := [];
      while cur < ptr
        invariant cur <= ptr && Underway(g.need, words, done, data[cur..ptr]) && log == old(log) + Events(g, done)
        decreases ptr - cur
      {
        var n := g.need(data[cur]);
        if ptr - cur < n { return; }
        done := TakeOne(g, n, words, done, old(log));
      }
    }

    /** Parse, and start over with an empty buffer when nothing is left. */
    method ParseBuffer(g: Grammar)
      requires InBounds()
      modifies this`cur, this`ptr, this`log
      ensures InBounds()
      ensures data[cur..ptr] == Parse(g.need, old(data[cur..ptr])).rest
      ensures log == old(log) + Events(g, Parse(g.need, old(data[cur..ptr])).commands)
      ensures ptr == if Parse(g.need, old(data[cur..ptr])).rest == [] then 0 else old(ptr)
    {
      ghost var words := data[cur..ptr];
      ghost var done := ParseLoop(g);
      ParseStops(g.need, words, done, data[cur..ptr]);
      if cur == ptr { ptr, cur := 0, 0; }
    }

    /** process_command_ingest */
    method Process(g: Grammar, dram: seq<Pair>, dmem: seq<Pair>)
      requires InBounds() && |dram| == DRAM_PAIRS && |dmem| == DMEM_PAIRS
      modifies this, data
      ensures InBounds() && status == old(status) - (old(status) / 2 % 2) * 2 && end == old(end)
      ensures Value() == Feed(g, old(Value()), Incoming(old(current), end, status, dram, dmem))
      ensures var list := Incoming(old(current), end, status, dram, dmem);
              if list != [] && Fits(old(Value()), list) then start == end && current == end
              else start == old(start) && current == old(current)
    {
      status := status - (status / 2 % 2) * 2;
      var from, to := WordAddress(current), WordAddress(end);
      if to <= from { return; }
      var memory := if status % 2 == 1 then dmem else dram;
      ListLength(memory, from, to);
      if ptr + (to - from) > LAST_WORD { return; }
      Accept(g, memory, from, to);
      start, current := end, end;
    }

    /** Copy a list that fits and parse the buffer. */
    method Accept(g: Grammar, memory: seq<Pair>, from: nat, to: nat)
      requires InBounds() && ptr + (to - from) <= LAST_WORD && from < to && |memory| > 0
      modifies this`cur, this`ptr, this`log, data
      ensures InBounds() && ListAt(memory, from, to) != [] && Fits(old(Value()), ListAt(memory, from, to))
      ensures Value() == Feed(g, old(Value()), ListAt(memory, from, to))
    {
      ghost var before, list := Value(), ListAt(memory, from, to);
      ListLength(memory, from, to);
      Copy(memory, from, to);
      FeedIs(g, before, list, Parse(g.need, data[cur..ptr]));
      ParseBuffer(g);
    }
  }
}
