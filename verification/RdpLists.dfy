/**
 * RDP command lists in numbers: the length of each command by its opcode, what it makes happen, and
 * where a call finds its list.
 */
module RdpLists {
  import opened Words
  import opened CommandStream
  import opened CommandIngest

  /** The opcode: bits 24 to 29 of the first half of the first word. */
  function Code(c: Command): nat
    requires c != []
  {
    c[0].first / 0x100_0000 % 64
  }

  /**
   * Triangles take 4 words, 8 more with shade, 8 more with texture and 2 more with depth; texture
   * rectangles take 2, everything else 1.
   */
  function WordCount(code: nat): nat {
    if 8 <= code < 16 then
      var shade, texture, depth := (code - 8) / 4, (code - 8) / 2 % 2, code % 2;
      4 + 8 * shade + 8 * texture + 2 * depth
    else if code == 0x24 || code == 0x25 then 2 else 1
  }

  predicate IsCommand(c: Command) { c != [] && |c| == WordCount(Code(c)) }

  predicate AreCommands(cs: seq<Command>) { forall k :: 0 <= k < |cs| ==> IsCommand(cs[k]) }

  /** What the outside sees of a command. */
  function Seen(c: Command, frontend: bool, synchronous: bool): seq<Event>
    requires c != []
  {
    (if frontend && Code(c) >= 8 then [Enqueued(c)] else [])
    + (if Code(c) == 0x29 && frontend && synchronous then [Waited] else [])
    + (if Code(c) == 0x29 then [Interrupt] else [])
  }

  function AllSeen(cs: seq<Command>, frontend: bool, synchronous: bool): seq<Event>
    requires AreCommands(cs)
  {
    if cs == [] then [] else AllSeen(cs[..|cs| - 1], frontend, synchronous) + Seen(cs[|cs| - 1], frontend, synchronous)
  }

  lemma NeedIsCount(c: Command, frontend: bool, synchronous: bool)
    requires c != []
    ensures Rdp(frontend, synchronous).need(c[0]) == WordCount(Code(c))
  {
  }

  lemma EffectIsSeen(c: Command, frontend: bool, synchronous: bool)
    requires c != []
    ensures Rdp(frontend, synchronous).effect(c) == Seen(c, frontend, synchronous)
  {
  }

  lemma CommandsComplete(cs: seq<Command>, frontend: bool, synchronous: bool)
    requires AreCommands(cs)
    ensures forall k :: 0 <= k < |cs| ==> Complete(Rdp(frontend, synchronous).need, cs[k])
  {
    forall k | 0 <= k < |cs|
      ensures Complete(Rdp(frontend, synchronous).need, cs[k])
    {
      assert IsCommand(cs[k]);
      NeedIsCount(cs[k], frontend, synchronous);
    }
  }

  lemma {:induction false} EventsAreSeen(cs: seq<Command>, frontend: bool, synchronous: bool)
    requires AreCommands(cs)
    ensures Events(Rdp(frontend, synchronous), cs) == AllSeen(cs, frontend, synchronous)
    decreases |cs|
  {
    if cs != [] {
      EventsAreSeen(cs[..|cs| - 1], frontend, synchronous);
      EffectIsSeen(cs[|cs| - 1], frontend, synchronous);
    }
  }

  /**
   * Any list of complete commands, cut anyhow and fed to an empty buffer: each command with opcode 8 or more
   * is enqueued whole, each SyncFull waits where it should and raises one interrupt, all in order, and nothing is pending.
   */
  lemma ListDelivered(cs: seq<Command>, chunks: seq<seq<Pair>>, log: seq<Event>, frontend: bool, synchronous: bool)
    requires AreCommands(cs) && Flatten(chunks) == Flatten(cs) && |Flatten(cs)| <= 0x7FFF
    ensures var s := FeedAll(Rdp(frontend, synchronous), State(0, [], log), chunks);
            s.pending == [] && s.log == log + AllSeen(cs, frontend, synchronous)
  {
    var g, s := Rdp(frontend, synchronous), State(0, [], log);
    ChunkingIsInvisible(g, s, chunks);
    CommandsComplete(cs, frontend, synchronous);
    ParsesBack(g.need, cs);
    EventsAreSeen(cs, frontend, synchronous);
    FedWhole(g, s, Flatten(cs), cs);
  }

  lemma NothingBefore(words: seq<Pair>)
    ensures [] + words == words
  {
  }

  lemma FedWhole(g: Grammar, s: State, words: seq<Pair>, cs: seq<Command>)
    requires s.ptr == 0 && s.pending == [] && |words| <= 0x7FFF && Parse(g.need, words) == Parsed(cs, [])
    ensures Feed(g, s, words).pending == [] && Feed(g, s, words).log == s.log + Events(g, cs)
  {
    NothingBefore(words);
    if words == [] {
      assert cs == [] && s.log + [] == s.log;
    }
  }

  // ----- where the list lies -----

  lemma {:induction false} ListWord(memory: seq<Pair>, from: nat, to: nat, k: nat)
    requires |memory| > 0 && from <= to && k < to - from
    ensures |ListAt(memory, from, to)| == to - from && ListAt(memory, from, to)[k] == memory[(from + k) % |memory|]
  {
    ListLength(memory, from, to);
    ListLength(memory, from, to - 1);
    if k < to - 1 - from {
      ListWord(memory, from, to - 1, k);
    }
  }

  /**
   * A call reads the 64-bit words between the 24-bit addresses DPC_CURRENT and DPC_END, from the 4 KiB of DMEM when bit 0
   * of the status is set and from 16 MiB of DRAM otherwise, going round at the end of either.
   */
  lemma ListInMemory(current: Word, end: Word, status: Word, dram: seq<Pair>, dmem: seq<Pair>, k: nat)
    requires |dram| == 0x20_0000 && |dmem| == 0x200
    ensures var a, b := current / 8 % 0x20_0000, end / 8 % 0x20_0000;
            var list := Incoming(current, end, status, dram, dmem);
            && |list| == (if a < b then b - a else 0)
            && (k < |list| ==> list[k] == if status % 2 == 1 then dmem[(a + k) % 0x200] else dram[(a + k) % 0x20_0000])
  {
    Eighth(current);
    Eighth(end);
    var a, b := current / 8 % 0x20_0000, end / 8 % 0x20_0000;
    if a < b {
      var memory := if status % 2 == 1 then dmem else dram;
      ListLength(memory, a, b);
      if k < b - a { ListWord(memory, a, b, k); }
    }
  }

  lemma Eighth(x: nat)
    ensures x % 0x100_0000 / 8 == x / 8 % 0x20_0000
  {
  }
}
