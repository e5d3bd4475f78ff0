/**
 * The list processor in numbers, with the lengths of its command table: what is buffered, handed to the
 * workers and synchronised for a list of commands.
 */
module DispatchLists {
  import opened Words
  import opened CommandStream
  import opened VideoDispatch
  import RdpLists

  /** Bits 24 to 29 of the first word. */
  function Code(c: Command): nat
    requires c != []
  {
    c[0] / 0x100_0000 % 64
  }

  /** The command table: twice the 64-bit words of the command, in 32-bit words. */
  function TableLength(w: Word): (n: nat)
    ensures 2 <= n <= 44 && n % 2 == 0
  {
    2 * RdpLists.WordCount(w / 0x100_0000 % 64)
  }

  const TABLE: Lengths := (w: Word) => TableLength(w)

  predicate AreCommands(cs: seq<Command>) { forall k :: 0 <= k < |cs| ==> cs[k] != [] && |cs[k]| == 2 * RdpLists.WordCount(Code(cs[k])) }

  // ----- one command -----

  /**
   * Without workers a command runs at once. With them, 0x29 flushes what is buffered and runs; any other is
   * buffered, and flushed with the rest when it is the 1024th or one that asks for it.
   */
  lemma SubmitInNumbers(setup: Setup, s: State, c: Command)
    requires c != []
    ensures !setup.workers ==> Submit(setup, s, c) == State(s.buffered, s.log + [Direct(c)])
    ensures setup.workers && Code(c) == 0x29 ==>
              Submit(setup, s, c) == State([], s.log + (if s.buffered == [] then [] else [Batch(s.buffered)]) + [SyncFull])
    ensures setup.workers && Code(c) != 0x29 ==>
              Submit(setup, s, c) == if |s.buffered| + 1 >= 1024 || setup.sync(Code(c)) then State([], s.log + [Batch(s.buffered + [c])])
                                     else State(s.buffered + [c], s.log)
  {
    assert s.log + [] == s.log;
  }

  // ----- lists of commands -----

  /** Commands run and syncs made are, followed by the buffered ones, one mark for each command, 0x29 being the sync. */
  lemma StreamInNumbers(setup: Setup, cs: seq<Command>, k: nat)
    requires NonEmpty(cs) && k < |cs|
    ensures var s := SubmitAll(setup, State([], []), cs);
            var ms := Flattened(s.log) + RanAll(s.buffered);
            && |ms| == |cs| && ms[k] == (if Code(cs[k]) == 0x29 then Synced else Ran(cs[k]))
            && |s.buffered| < 1024 && (!setup.workers ==> s.buffered == [])
  {
    SubmitAllInOrder(setup, cs);
  }

  predicate AllCommands(groups: seq<seq<Command>>) { forall i :: 0 <= i < |groups| ==> AreCommands(groups[i]) }

  /** The lists, each made of the words of its commands. */
  function WordsOf(groups: seq<seq<Command>>): seq<seq<Word>> {
    seq(|groups|, i requires 0 <= i < |groups| => Flatten(groups[i]))
  }

  lemma CompleteCommands(cs: seq<Command>)
    requires AreCommands(cs)
    ensures forall k :: 0 <= k < |cs| ==> Complete(TABLE, cs[k])
  {
  }

  /** One list of whole commands is collected into them. */
  lemma CollectsBack(cs: seq<Command>)
    requires AreCommands(cs)
    ensures Collect(TABLE, [], Flatten(cs)) == Parsed(cs, [])
  {
    CompleteCommands(cs);
    ParsesBack(TABLE, cs);
    CollectFresh(TABLE, Flatten(cs));
  }

  lemma WordsSplit(groups: seq<seq<Command>>)
    requires groups != []
    ensures WordsOf(groups) != [] && WordsOf(groups)[0] == Flatten(groups[0]) && WordsOf(groups)[1..] == WordsOf(groups[1..])
  {
  }

  /** And so is any number of lists. */
  lemma {:induction false} ListsCollectBack(groups: seq<seq<Command>>)
    requires AllCommands(groups)
    ensures CollectAll(TABLE, [], WordsOf(groups)) == Parsed(Flatten(groups), [])
    decreases |groups|
  {
    if groups != [] {
      var cs, more := groups[0], groups[1..];
      assert AreCommands(cs);
      CollectsBack(cs);
      ListsCollectBack(more);
      WordsSplit(groups);
      OneMoreList(WordsOf(groups), cs, Flatten(more));
    }
  }

  lemma OneMoreList(lists: seq<seq<Word>>, cs: seq<Command>, more: seq<Command>)
    requires lists != [] && Collect(TABLE, [], lists[0]) == Parsed(cs, []) && CollectAll(TABLE, [], lists[1..]) == Parsed(more, [])
    ensures CollectAll(TABLE, [], lists) == Parsed(cs + more, [])
  {
  }

  lemma {:induction false} NoneEmpty(groups: seq<seq<Command>>)
    requires AllCommands(groups)
    ensures NonEmpty(Flatten(groups))
    decreases |groups|
  {
    if groups != [] {
      NoneEmpty(groups[1..]);
      assert AreCommands(groups[0]);
    }
  }

  /** Lists of whole commands, dispatched from the start: the marks are those of the commands, one each, in order. */
  lemma ListsInNumbers(setup: Setup, groups: seq<seq<Command>>, k: nat)
    requires AllCommands(groups) && k < |Flatten(groups)|
    ensures var cs := CollectAll(TABLE, [], WordsOf(groups)).commands;
            NonEmpty(cs) && Flatten(groups)[k] != []
            && var s := SubmitAll(setup, State([], []), cs);
               var ms := Flattened(s.log) + RanAll(s.buffered);
               var c := Flatten(groups)[k];
               |ms| == |Flatten(groups)| && ms[k] == (if Code(c) == 0x29 then Synced else Ran(c)) && |s.buffered| < 1024
  {
    ListsCollectBack(groups);
    NoneEmpty(groups);
    StreamInNumbers(setup, Flatten(groups), k);
  }
}
