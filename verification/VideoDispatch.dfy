/**
 * The list processor of the software renderer: 32-bit words are collected into a command, complete
 * commands are buffered, and the buffer is replayed by every worker when it is full, when a command
 * asks for it, or before SYNC_FULL.
 */
module VideoDispatch {
  import opened Words
  import opened CommandStream

  type Command = seq<Word>

  const BUFFER_SIZE: nat := 1024
  const MAX_WORDS: nat := 44
  const SYNC_FULL: nat := 0x29

  function Id(w: Word): nat { (w / 0x100_0000) % 64 }

  /** The length table: every command has an even number of words, at most 44. */
  type Lengths = f: Needs<Word> | forall w :: 2 <= f(w) <= MAX_WORDS && f(w) % 2 == 0 witness (_: Word) => 2

  // ----- collecting words -----

  /** One pass of the loop takes words of the list into the row; the first word of a row sets its length. */
  function Taken(len: Lengths, row: seq<Word>, list: seq<Word>): (t: nat)
    requires list != []
    ensures 1 <= t <= |list|
  {
    if row == [] then 1 + Min(|list| - 1, len(list[0]) - 1) else Min(|list|, len(row[0]) - 1)
  }

  /** Running through a list: the commands completed and the row left over. */
  function Collect(len: Lengths, row: seq<Word>, list: seq<Word>): Parsed<Word>
    decreases |list|
  {
    if list == [] then Parsed([], row)
    else
      var t := Taken(len, row, list);
      var row' := row + list[..t];
      if |row'| == len(row'[0]) then
        var p := Collect(len, [], list[t..]);
        Parsed([row'] + p.commands, p.rest)
      else Collect(len, row', list[t..])
  }

  /** A fresh row takes one whole command, or everything that is left. */
  lemma {:induction false} CollectFresh(len: Lengths, list: seq<Word>)
    ensures Collect(len, [], list) == Parse(len, list)
    decreases |list|
  {
    if list != [] {
      var t := Taken(len, [], list);
      assert [] + list[..t] == list[..t];
      if Incomplete(len, list) {
        assert list[..t] == list && list[t..] == [];
      } else {
        CollectFresh(len, list[t..]);
      }
    }
  }

  /** A row that has outgrown its command is never completed. */
  lemma {:induction false} OverrunSwallows(len: Lengths, row: seq<Word>, list: seq<Word>)
    requires row != [] && |row| > len(row[0])
    ensures Collect(len, row, list) == Parsed([], row + list)
    decreases |list|
  {
    if list == [] {
      assert row + list == row;
    } else {
      var t := Taken(len, row, list);
      var row', list' := row + list[..t], list[t..];
      CollectUnfold(len, row, list, t, row', list', Collect(len, row', list'));
      OverrunSwallows(len, row', list');
      Rejoined(row, list, t);
    }
  }

  lemma Rejoined(row: seq<Word>, list: seq<Word>, t: nat)
    requires t <= |list|
    ensures (row + list[..t]) + list[t..] == row + list
  {
  }

  /** The list goes past the end of the command that was pending when it began. */
  predicate Overruns(len: Lengths, row: seq<Word>, list: seq<Word>) { row != [] && |row| + |list| > len(row[0]) }

  /** A list that does not overrun is handled as the reference parser handles it. */
  lemma CollectResumes(len: Lengths, row: seq<Word>, list: seq<Word>)
    requires Incomplete(len, row) && |row| % 2 == 0 && !Overruns(len, row, list)
    ensures Collect(len, row, list) == Parse(len, row + list)
  {
    if row == [] {
      assert row + list == list;
      CollectFresh(len, list);
    } else if list == [] {
      assert row + list == row;
    } else {
      var t := Taken(len, row, list);
      assert t == |list| && list[..t] == list && list[t..] == [];
      ParseOne(len, row + list);
    }
  }

  lemma ParseOne(len: Lengths, words: seq<Word>)
    requires words != [] && |words| <= len(words[0])
    ensures Parse(len, words) == if |words| == len(words[0]) then Parsed([words], []) else Parsed([], words)
  {
    if |words| == len(words[0]) {
      assert words[|words|..] == [] && words[..|words|] == words;
    }
  }

  /** A list that overruns loses the pending command and everything after it. */
  lemma OverrunLoses(len: Lengths, row: seq<Word>, list: seq<Word>)
    requires Incomplete(len, row) && |row| % 2 == 0 && |list| % 2 == 0 && Overruns(len, row, list)
    ensures Collect(len, row, list) == Parsed([], row + list)
    ensures Parse(len, row + list).commands != []
  {
    OverrunCollects(len, row, list, Taken(len, row, list));
    SomeCommand(len, row + list);
  }

  lemma OverrunCollects(len: Lengths, row: seq<Word>, list: seq<Word>, t: nat)
    requires Incomplete(len, row) && |row| % 2 == 0 && |list| % 2 == 0 && Overruns(len, row, list) && t == Taken(len, row, list)
    ensures Collect(len, row, list) == Parsed([], row + list)
  {
    var row', list' := row + list[..t], list[t..];
    CollectUnfold(len, row, list, t, row', list', Collect(len, row', list'));
    OverrunSwallows(len, row', list');
    Rejoined(row, list, t);
  }

  lemma SomeCommand(len: Lengths, words: seq<Word>)
    requires words != [] && |words| > len(words[0])
    ensures Parse(len, words).commands != []
  {
  }

  /** Exactly when a list is handled as the reference parser does. */
  lemma CollectExact(len: Lengths, row: seq<Word>, list: seq<Word>)
    requires Incomplete(len, row) && |row| % 2 == 0 && |list| % 2 == 0
    ensures Collect(len, row, list) == Parse(len, row + list) <==> !Overruns(len, row, list)
  {
    if Overruns(len, row, list) {
      OverrunLoses(len, row, list);
    } else {
      CollectResumes(len, row, list);
    }
  }

  // ----- many lists -----

  function CollectAll(len: Lengths, row: seq<Word>, lists: seq<seq<Word>>): Parsed<Word>
    decreases |lists|
  {
    if lists == [] then Parsed([], row)
    else
      var p := Collect(len, row, lists[0]);
      var q := CollectAll(len, p.rest, lists[1..]);
      Parsed(p.commands + q.commands, q.rest)
  }

  /** No list goes past the end of a command that was pending when it began. */
  predicate NeverOverruns(len: Lengths, row: seq<Word>, lists: seq<seq<Word>>)
    decreases |lists|
  {
    lists == [] || (!Overruns(len, row, lists[0]) && NeverOverruns(len, Collect(len, row, lists[0]).rest, lists[1..]))
  }

  predicate AllEven(lists: seq<seq<Word>>) { forall k :: 0 <= k < |lists| ==> |lists[k]| % 2 == 0 }

  lemma {:induction false} SwallowsAll(len: Lengths, row: seq<Word>, lists: seq<seq<Word>>)
    requires row != [] && |row| > len(row[0])
    ensures CollectAll(len, row, lists).commands == []
    decreases |lists|
  {
    if lists != [] {
      OverrunSwallows(len, row, lists[0]);
      SwallowsAll(len, row + lists[0], lists[1..]);
    }
  }

  lemma {:induction false} ParseEven(len: Lengths, words: seq<Word>)
    requires |words| % 2 == 0
    ensures |Parse(len, words).rest| % 2 == 0
    decreases |words|
  {
    if !Incomplete(len, words) {
      var n := len(words[0]);
      EvenMinus(|words|, n);
      ParseEven(len, words[n..]);
    }
  }

  lemma EvenMinus(a: nat, b: nat)
    requires a % 2 == 0 && b % 2 == 0 && b <= a
    ensures (a - b) % 2 == 0
  {
  }

  lemma SamePrefix(a: seq<Command>, x: seq<Command>, y: seq<Command>)
    ensures a + x == a + y <==> x == y
  {
    assert (a + x)[|a|..] == x && (a + y)[|a|..] == y;
  }

  /** Lists are handled as one uncut stream if and only if none of them overruns a pending command. */
  lemma {:induction false} CollectAllExact(len: Lengths, row: seq<Word>, lists: seq<seq<Word>>)
    requires Incomplete(len, row) && |row| % 2 == 0 && AllEven(lists)
    ensures CollectAll(len, row, lists) == Parse(len, row + Flatten(lists)) <==> NeverOverruns(len, row, lists)
    decreases |lists|
  {
    if lists == [] {
      assert row + Flatten(lists) == row;
    } else {
      var list, more, tail := lists[0], lists[1..], Flatten(lists[1..]);
      assert row + Flatten(lists) == (row + list) + tail;
      ParseResumes(len, row + list, tail);
      if Overruns(len, row, list) {
        OverrunLoses(len, row, list);
        SwallowsAll(len, row + list, more);
      } else {
        CollectResumes(len, row, list);
        var p := Parse(len, row + list);
        RestIsRow(len, row, list);
        CollectAllExact(len, p.rest, more);
        SamePrefix(p.commands, CollectAll(len, p.rest, more).commands, Parse(len, p.rest + tail).commands);
        SameParsed(p.commands, CollectAll(len, p.rest, more), Parse(len, p.rest + tail));
      }
    }
  }

  lemma SameParsed(a: seq<Command>, x: Parsed<Word>, y: Parsed<Word>)
    ensures Parsed(a + x.commands, x.rest) == Parsed(a + y.commands, y.rest) <==> x == y
  {
    SamePrefix(a, x.commands, y.commands);
  }

  lemma RestIsRow(len: Lengths, row: seq<Word>, list: seq<Word>)
    requires |row| % 2 == 0 && |list| % 2 == 0
    ensures Incomplete(len, Parse(len, row + list).rest) && |Parse(len, row + list).rest| % 2 == 0
  {
    EvenPlus(|row|, |list|);
    RestOf(len, row + list);
  }

  lemma RestOf(len: Lengths, words: seq<Word>)
    requires |words| % 2 == 0
    ensures Incomplete(len, Parse(len, words).rest) && |Parse(len, words).rest| % 2 == 0
  {
    ParseConserves(len, words);
    ParseEven(len, words);
  }

  lemma EvenPlus(a: nat, b: nat)
    requires a % 2 == 0 && b % 2 == 0
    ensures (a + b) % 2 == 0
  {
  }

  // ----- dispatching -----

  /** Replaying the buffer on every worker, SYNC_FULL on the main thread, or one command without workers. */
  datatype Action = Batch(commands: seq<Command>) | SyncFull | Direct(command: Command)

  datatype State = State(buffered: seq<Command>, log: seq<Action>)

  /** config.parallel, and which command ids ask for the buffer to be replayed at once. */
  datatype Setup = Setup(workers: bool, sync: nat -> bool)

  function Flush(s: State): State {
    if s.buffered == [] then s else State([], s.log + [Batch(s.buffered)])
  }

  predicate IsSync(c: Command) { c != [] && Id(c[0]) == SYNC_FULL }

  function Submit(setup: Setup, s: State, c: Command): State
    requires c != []
  {
    if !setup.workers then s.(log := s.log + [Direct(c)])
    else if IsSync(c) then
      var s1 := Flush(s);
      s1.(log := s1.log + [SyncFull])
    else
      var s1 := s.(buffered := s.buffered + [c]);
      if |s1.buffered| >= BUFFER_SIZE || setup.sync(Id(c[0])) then Flush(s1) else s1
  }

  predicate NonEmpty(cs: seq<Command>) { forall k :: 0 <= k < |cs| ==> cs[k] != [] }

  function SubmitAll(setup: Setup, s: State, cs: seq<Command>): State
    requires NonEmpty(cs)
  {
    if cs == [] then s else Submit(setup, SubmitAll(setup, s, cs[..|cs| - 1]), cs[|cs| - 1])
  }

  // ----- what becomes visible, in order -----

  /** An ordinary command has run, or SYNC_FULL has. */
  datatype Mark = Ran(command: Command) | Synced

  function MarkOf(c: Command): Mark { if IsSync(c) then Synced else Ran(c) }

  /** The decoded stream, its syncs in place. */
  function Marks(cs: seq<Command>): (r: seq<Mark>)
    ensures |r| == |cs| && forall k :: 0 <= k < |cs| ==> r[k] == MarkOf(cs[k])
  {
    seq(|cs|, k requires 0 <= k < |cs| => MarkOf(cs[k]))
  }

  /** Commands handed to the workers, or waiting to be. */
  function RanAll(cs: seq<Command>): (r: seq<Mark>)
    ensures |r| == |cs| && forall k :: 0 <= k < |cs| ==> r[k] == Ran(cs[k])
  {
    seq(|cs|, k requires 0 <= k < |cs| => Ran(cs[k]))
  }

  function MarksOf(a: Action): seq<Mark> {
    match a
    case Batch(cs) => RanAll(cs)
    case SyncFull => [Synced]
    case Direct(c) => [MarkOf(c)]
  }

  /** The log, each batch as its commands and each SYNC_FULL as a sync. */
  function Flattened(log: seq<Action>): seq<Mark> {
    if log == [] then [] else Flattened(log[..|log| - 1]) + MarksOf(log[|log| - 1])
  }

  lemma FlattenedSnoc(log: seq<Action>, a: Action)
    ensures Flattened(log + [a]) == Flattened(log) + MarksOf(a)
  {
    assert (log + [a])[..|log|] == log;
  }

  lemma MarksSnoc(cs: seq<Command>, c: Command)
    ensures Marks(cs + [c]) == Marks(cs) + [MarkOf(c)]
  {
  }

  /** Everything that has run, followed by what is buffered, is the decoded stream with its syncs in place. */
  ghost predicate InOrder(setup: Setup, s: State, cs: seq<Command>) {
    && Flattened(s.log) + RanAll(s.buffered) == Marks(cs)
    && |s.buffered| < BUFFER_SIZE
    && (if setup.workers then NoDirect(s.log) else s.buffered == [])
  }

  predicate NoDirect(log: seq<Action>) { forall i :: 0 <= i < |log| ==> !log[i].Direct? }

  /** Flushing moves the buffer to the end of what has run. */
  lemma FlushKeepsOrder(s: State)
    ensures Flush(s).buffered == [] && Flattened(Flush(s).log) == Flattened(s.log) + RanAll(s.buffered)
  {
    if s.buffered != [] {
      FlattenedSnoc(s.log, Batch(s.buffered));
    }
  }

  lemma BufferedSnoc(log: seq<Mark>, cs: seq<Command>, c: Command)
    ensures log + RanAll(cs + [c]) == (log + RanAll(cs)) + [Ran(c)]
  {
  }

  lemma NothingBuffered(ms: seq<Mark>)
    ensures ms + RanAll([]) == ms
  {
  }

  /** Marks that have run, with the buffer flushed or one longer. */
  ghost predicate Shown(s: State, ms: seq<Mark>) { Flattened(s.log) + RanAll(s.buffered) == ms }

  lemma ShownFlushed(s: State, ms: seq<Mark>)
    requires Shown(s, ms)
    ensures Shown(Flush(s), ms) && Flush(s).buffered == [] && Flattened(Flush(s).log) == ms
  {
    FlushKeepsOrder(s);
    NothingBuffered(Flattened(Flush(s).log));
  }

  lemma ShownLogged(s: State, ms: seq<Mark>, a: Action, m: Mark)
    requires Shown(s, ms) && s.buffered == [] && MarksOf(a) == [m]
    ensures Shown(s.(log := s.log + [a]), ms + [m])
  {
    FlattenedSnoc(s.log, a);
    NothingBuffered(Flattened(s.log));
    NothingBuffered(Flattened(s.log + [a]));
  }

  lemma ShownBuffered(s: State, ms: seq<Mark>, c: Command)
    requires Shown(s, ms)
    ensures Shown(s.(buffered := s.buffered + [c]), ms + [Ran(c)])
  {
    BufferedSnoc(Flattened(s.log), s.buffered, c);
  }

  /** One command keeps the order; SYNC_FULL and commands that ask for it leave nothing buffered. */
  lemma SubmitKeepsOrder(setup: Setup, s: State, cs: seq<Command>, c: Command)
    requires InOrder(setup, s, cs) && c != []
    ensures InOrder(setup, Submit(setup, s, c), cs + [c])
    ensures IsSync(c) || setup.sync(Id(c[0])) ==> Submit(setup, s, c).buffered == []
  {
    MarksSnoc(cs, c);
    SubmitShown(setup, s, Marks(cs), c);
    SubmitShape(setup, s, c);
  }

  lemma SubmitShown(setup: Setup, s: State, ms: seq<Mark>, c: Command)
    requires Shown(s, ms) && c != [] && (!setup.workers ==> s.buffered == [])
    ensures Shown(Submit(setup, s, c), ms + [MarkOf(c)])
  {
    if !setup.workers {
      ShownLogged(s, ms, Direct(c), MarkOf(c));
    } else if IsSync(c) {
      ShownFlushed(s, ms);
      ShownLogged(Flush(s), ms, SyncFull, Synced);
    } else {
      var s1 := s.(buffered := s.buffered + [c]);
      ShownBuffered(s, ms, c);
      ShownFlushed(s1, ms + [Ran(c)]);
    }
  }

  /** The buffer stays short; without workers it stays empty, with them nothing runs directly. */
  lemma SubmitShape(setup: Setup, s: State, c: Command)
    requires |s.buffered| < BUFFER_SIZE && c != [] && (if setup.workers then NoDirect(s.log) else s.buffered == [])
    ensures var s' := Submit(setup, s, c);
            && |s'.buffered| < BUFFER_SIZE && (if setup.workers then NoDirect(s'.log) else s'.buffered == [])
            && (IsSync(c) || setup.sync(Id(c[0])) ==> s'.buffered == [])
  {
  }

  /** Over any stream of commands, with or without workers. */
  lemma {:induction false} SubmitAllInOrder(setup: Setup, cs: seq<Command>)
    requires NonEmpty(cs)
    ensures InOrder(setup, SubmitAll(setup, State([], []), cs), cs)
    decreases |cs|
  {
    if cs != [] {
      var n := |cs| - 1;
      SubmitAllInOrder(setup, cs[..n]);
      SubmitKeepsOrder(setup, SubmitAll(setup, State([], []), cs[..n]), cs[..n], cs[n]);
      assert cs[..n] + [cs[n]] == cs;
    }
  }

  // ----- consequences of the one equality -----

  /** What each worker executes: the batches, one after the other. */
  function Executed(log: seq<Action>): seq<Command> {
    if log == [] then []
    else Executed(log[..|log| - 1]) + if log[|log| - 1].Batch? then log[|log| - 1].commands else []
  }

  function WithoutSync(cs: seq<Command>): seq<Command> {
    if cs == [] then [] else WithoutSync(cs[..|cs| - 1]) + if IsSync(cs[|cs| - 1]) then [] else [cs[|cs| - 1]]
  }

  /** The commands among the marks. */
  function Commands(ms: seq<Mark>): seq<Command> {
    if ms == [] then [] else Commands(ms[..|ms| - 1]) + if ms[|ms| - 1].Ran? then [ms[|ms| - 1].command] else []
  }

  lemma {:induction false} CommandsAppend(a: seq<Mark>, b: seq<Mark>)
    ensures Commands(a + b) == Commands(a) + Commands(b)
    decreases |b|
  {
    if b == [] {
      assert a + b == a;
    } else {
      var n := |b| - 1;
      CommandsAppend(a, b[..n]);
      assert (a + b)[..|a + b| - 1] == a + b[..n];
    }
  }

  lemma {:induction false} CommandsOfRan(cs: seq<Command>)
    ensures Commands(RanAll(cs)) == cs
    decreases |cs|
  {
    if cs != [] {
      var n := |cs| - 1;
      CommandsOfRan(cs[..n]);
      assert RanAll(cs)[..n] == RanAll(cs[..n]);
    }
  }

  lemma {:induction false} CommandsOfMarks(cs: seq<Command>)
    ensures Commands(Marks(cs)) == WithoutSync(cs)
    decreases |cs|
  {
    if cs != [] {
      var n := |cs| - 1;
      CommandsOfMarks(cs[..n]);
      assert Marks(cs)[..n] == Marks(cs[..n]);
    }
  }

  lemma {:induction false} CommandsOfLog(log: seq<Action>)
    requires NoDirect(log)
    ensures Commands(Flattened(log)) == Executed(log)
    decreases |log|
  {
    if log != [] {
      var n := |log| - 1;
      CommandsOfLog(log[..n]);
      CommandsAppend(Flattened(log[..n]), MarksOf(log[n]));
      if log[n].Batch? { CommandsOfRan(log[n].commands); }
    }
  }

  /** Each worker's commands followed by the buffered ones are the stream without SYNC_FULL. */
  lemma WorkersSeeStream(setup: Setup, s: State, cs: seq<Command>)
    requires InOrder(setup, s, cs) && setup.workers
    ensures Executed(s.log) + s.buffered == WithoutSync(cs)
  {
    CommandsOfLog(s.log);
    CommandsOfRan(s.buffered);
    CommandsAppend(Flattened(s.log), RanAll(s.buffered));
    CommandsOfMarks(cs);
  }

  lemma NothingAfter<T>(s: seq<T>)
    ensures s + [] == s
  {
  }

  lemma {:induction false} FlattenedAppend(a: seq<Action>, b: seq<Action>)
    ensures Flattened(a + b) == Flattened(a) + Flattened(b)
    decreases |b|
  {
    if b == [] {
      NothingAfter(a);
      NothingAfter(Flattened(a));
    } else {
      var b0, x := b[..|b| - 1], b[|b| - 1];
      FlattenedAppend(a, b0);
      FlattenedMore(a, b0, x, b);
    }
  }

  lemma FlattenedMore(a: seq<Action>, b: seq<Action>, x: Action, bx: seq<Action>)
    requires Flattened(a + b) == Flattened(a) + Flattened(b) && bx == b + [x]
    ensures Flattened(a + bx) == Flattened(a) + Flattened(bx)
  {
    Regroup(a, b, [x]);
    FlattenedSnoc(a + b, x);
    FlattenedSnoc(b, x);
    Regroup(Flattened(a), Flattened(b), MarksOf(x));
  }

  lemma Regroup<T>(a: seq<T>, b: seq<T>, c: seq<T>)
    ensures a + (b + c) == (a + b) + c
  {
  }

  lemma FlattenedPrefix(log: seq<Action>, i: nat)
    requires i < |log|
    ensures var p := Flattened(log[..i]) + MarksOf(log[i]);
            |p| <= |Flattened(log)| && Flattened(log)[..|p|] == p
  {
    var p := Flattened(log[..i]) + MarksOf(log[i]);
    assert log[..i + 1][..i] == log[..i];
    assert Flattened(log[..i + 1]) == p;
    assert log == log[..i + 1] + log[i + 1..];
    FlattenedAppend(log[..i + 1], log[i + 1..]);
  }

  /** A SYNC_FULL in the log is one of the stream, and exactly the commands and syncs before that one have run before it. */
  lemma SyncStandsInPlace(setup: Setup, s: State, cs: seq<Command>, i: nat)
    requires InOrder(setup, s, cs) && i < |s.log| && s.log[i].SyncFull?
    ensures var j := |Flattened(s.log[..i])|;
            j < |cs| && IsSync(cs[j]) && Flattened(s.log[..i]) == Marks(cs[..j])
  {
    FlattenedPrefix(s.log, i);
    PrefixIsMarks(Flattened(s.log), RanAll(s.buffered), cs, Flattened(s.log[..i]));
  }

  lemma PrefixIsMarks(log: seq<Mark>, rest: seq<Mark>, cs: seq<Command>, a: seq<Mark>)
    requires log + rest == Marks(cs) && |a| < |log| && log[..|a| + 1] == a + [Synced]
    ensures |a| < |cs| && IsSync(cs[|a|]) && a == Marks(cs[..|a|])
  {
    assert log[|a|] == Synced && Marks(cs)[|a|] == Synced;
    forall k | 0 <= k < |a|
      ensures a[k] == MarkOf(cs[k])
    {
      assert log[..|a| + 1][k] == a[k] && Marks(cs)[k] == log[k];
    }
  }

  lemma SubmitAllSnoc(setup: Setup, s: State, cs: seq<Command>, c: Command)
    requires NonEmpty(cs) && c != []
    ensures SubmitAll(setup, s, cs + [c]) == Submit(setup, SubmitAll(setup, s, cs), c)
  {
    assert (cs + [c])[..|cs|] == cs;
  }

  lemma {:induction false} SubmitAllAppend(setup: Setup, s: State, a: seq<Command>, b: seq<Command>)
    requires NonEmpty(a) && NonEmpty(b)
    ensures SubmitAll(setup, s, a + b) == SubmitAll(setup, SubmitAll(setup, s, a), b)
    decreases |b|
  {
    if b == [] {
      assert a + b == a;
    } else {
      var n := |b| - 1;
      SubmitAllAppend(setup, s, a, b[..n]);
      assert a + b == (a + b[..n]) + [b[n]];
      SubmitAllSnoc(setup, s, a + b[..n], b[n]);
      assert b == b[..n] + [b[n]];
    }
  }

  /** Any lists that never overrun a pending command: what runs is the uncut stream, in order and with its syncs in place. */
  lemma ListsInOrder(len: Lengths, setup: Setup, lists: seq<seq<Word>>)
    requires AllEven(lists) && NeverOverruns(len, [], lists)
    ensures NonEmpty(CollectAll(len, [], lists).commands)
    ensures InOrder(setup, SubmitAll(setup, State([], []), CollectAll(len, [], lists).commands), Parse(len, Flatten(lists)).commands)
  {
    CollectAllExact(len, [], lists);
    assert [] + Flatten(lists) == Flatten(lists);
    ParseConserves(len, Flatten(lists));
    var cs := Parse(len, Flatten(lists)).commands;
    assert forall k :: 0 <= k < |cs| ==> Complete(len, cs[k]);
    SubmitAllInOrder(setup, cs);
  }

  // ----- the processor -----

  class Processor {
    const len: Lengths
    const setup: Setup
    const buffer: array<Command>         // rdp_cmd_buf
    var position: nat                    // rdp_cmd_buf_pos
    var row: seq<Word>                   // the rdp_cmd_pos words of the command being collected
    var log: seq<Action>

    ghost predicate Valid()
      reads this
    {
      buffer.Length == BUFFER_SIZE && position < BUFFER_SIZE
    }

    constructor (len: Lengths, setup: Setup)
      ensures fresh(buffer) && Valid() && row == [] && Value() == State([], [])
      ensures this.len == len && this.setup == setup
    {
      this.len, this.setup := len, setup;
      buffer := new Command[BUFFER_SIZE](_ => []);
      position, row, log := 0, [], [];
    }

    ghost function Value(): State
      requires Valid()
      reads this, buffer
    {
      State(buffer[..position], log)
    }

    /** cmd_flush */
    method FlushBuffer()
      requires buffer.Length == BUFFER_SIZE && position <= BUFFER_SIZE
      modifies this`position, this`log
      ensures Valid() && Value() == Flush(State(old(buffer[..position]), old(log)))
    {
      if position > 0 {
        log := log + [Batch(buffer[..position])];
        position := 0;
      }
    }

    /** A command is complete. */
    method Complete(c: Command)
      requires Valid() && c != []
      modifies this`position, this`log, buffer
      ensures Valid() && Value() == Submit(setup, old(Value()), c)
    {
      if !setup.workers {
        log := log + [Direct(c)];
      } else if IsSync(c) {
        FlushBuffer();
        log := log + [SyncFull];
      } else {
        buffer[position] := c;
        position := position + 1;
        assert buffer[..position] == old(buffer[..position]) + [c];
        if position >= BUFFER_SIZE || setup.sync(Id(c[0])) { FlushBuffer(); }
      }
    }

    /** Copy the words from..limit of the list into the row. */
    method Load(list: seq<Word>, from: nat, limit: nat)
      requires from <= limit <= |list|
      modifies this`row
      ensures row == old(row) + list[from..limit]
    {
      for i := from to limit
        invariant row == old(row) + list[from..i]
      {
        row := row + [list[i]];
      }
    }

    /** As many words as the command is long, less one, or as many as there are. */
    method LoadRest(list: seq<Word>, at: nat) returns (next: nat)
      requires at <= |list| && row != []
      modifies this`row
      ensures next == at + Min(|list| - at, len(old(row)[0]) - 1) && row == old(row) + list[at..next]
    {
      next := at + Min(|list| - at, len(row[0]) - 1);
      Load(list, at, next);
    }

    /** One pass of the loop; the first word of a command is read by itself. */
    method LoadSome(list: seq<Word>, at: nat) returns (next: nat)
      requires at < |list|
      modifies this`row
      ensures next == at + Taken(len, old(row), list[at..]) && row == old(row) + list[at..next]
    {
      if row == [] {
        row := [list[at]];
        next := LoadRest(list, at + 1);
        assert list[at..next] == [list[at]] + list[at + 1..next];
      } else {
        next := LoadRest(list, at);
      }
    }

    /** The row is a complete command. */
    method FinishRow()
      requires Valid() && row != []
      modifies this, buffer
      ensures Valid() && row == [] && Value() == Submit(setup, old(Value()), old(row))
    {
      Complete(row);
      row := [];
    }

    method LoadStep(list: seq<Word>, at: nat, ghost done: seq<Command>) returns (next: nat)
      requires at < |list|
      modifies this`row
      ensures row != [] && at < next <= |list|
      ensures CollectOn(len, done, old(row), list[at..])
           == if |row| == len(row[0]) then CollectOn(len, done + [row], [], list[next..]) else CollectOn(len, done, row, list[next..])
    {
      ghost var before := row;
      next := LoadSome(list, at);
      assert list[at..][..next - at] == list[at..next] && list[at..][next - at..] == list[next..];
      CollectStep(len, done, before, list[at..], next - at, row, list[next..]);
    }

    /** One pass: load words and hand on a command that is complete. */
    method Pass(list: seq<Word>, at: nat, ghost done: seq<Command>) returns (next: nat, ghost finished: bool, ghost c: Command)
      requires Valid() && at < |list|
      modifies this, buffer
      ensures Valid() && at < next <= |list|
      ensures if finished then c != [] && Value() == Submit(setup, old(Value()), c) else Value() == old(Value())
      ensures CollectOn(len, done, old(row), list[at..]) == CollectOn(len, if finished then done + [c] else done, row, list[next..])
    {
      next := LoadStep(list, at, done);
      finished, c := |row| == len(row[0]), row;
      if |row| == len(row[0]) { FinishRow(); }
    }

    /** The list-processing loop. */
    method Drain(list: seq<Word>) returns (ghost done: seq<Command>)
      requires Valid()
      modifies this, buffer
      ensures Valid() && NonEmpty(done) && Value() == SubmitAll(setup, old(Value()), done)
      ensures CollectOn(len, [], old(row), list) == Parsed(done, row)
    {
      var at := 0;
      ghost var all, s0 := CollectOn(len, [], row, list), Value();
      done := [];
      assert list[0..] == list;
      while at < |list|
        invariant at <= |list| && Valid() && NonEmpty(done) && Value() == SubmitAll(setup, s0, done)
        invariant all == CollectOn(len, done, row, list[at..])
        decreases |list| - at
      {
        ghost var finished, c, before := false, [], Value();
        at, finished, c := Pass(list, at, done);
        OneMore(setup, s0, done, finished, c, before, Value());
        done := if finished then done + [c] else done;
      }
    }

    /** n64video_process_list, on the words between DP_CURRENT and DP_END. */
    method ProcessList(crashed: bool, list: seq<Word>)
      requires Valid()
      modifies this, buffer
      ensures Valid()
      ensures crashed ==> row == old(row) && Value() == old(Value())
      ensures !crashed ==>
                var p := Collect(len, old(row), list);
                NonEmpty(p.commands) && row == p.rest && Value() == SubmitAll(setup, old(Value()), p.commands)
    {
      if crashed || list == [] { return; }
      CollectOnMeans(len, [], row, list);
      ghost var p := Collect(len, row, list);
      ghost var done := Drain(list);
      assert [] + p.commands == p.commands;
      assert done == p.commands;
    }
  }

  /** One pass of the loop submits one command or none. */
  lemma OneMore(setup: Setup, s0: State, done: seq<Command>, finished: bool, c: Command, s1: State, s2: State)
    requires NonEmpty(done) && s1 == SubmitAll(setup, s0, done) && (finished ==> c != [])
    requires s2 == if finished then Submit(setup, s1, c) else s1
    ensures var done' := if finished then done + [c] else done; NonEmpty(done') && s2 == SubmitAll(setup, s0, done')
  {
    if finished { SubmitAllSnoc(setup, s0, done, c); }
  }

  /** Collect, with the commands completed so far. */
  ghost function CollectOn(len: Lengths, done: seq<Command>, row: seq<Word>, list: seq<Word>): Parsed<Word>
    decreases |list|
  {
    if list == [] then Parsed(done, row)
    else
      var t := Taken(len, row, list);
      var row' := row + list[..t];
      if |row'| == len(row'[0]) then CollectOn(len, done + [row'], [], list[t..]) else CollectOn(len, done, row', list[t..])
  }

  lemma CollectStep(len: Lengths, done: seq<Command>, row: seq<Word>, list: seq<Word>, t: nat, row': seq<Word>, list': seq<Word>)
    requires list != [] && t == Taken(len, row, list) && row' == row + list[..t] && list' == list[t..]
    ensures CollectOn(len, done, row, list)
         == if |row'| == len(row'[0]) then CollectOn(len, done + [row'], [], list') else CollectOn(len, done, row', list')
  {
  }

  lemma CollectUnfold(len: Lengths, row: seq<Word>, list: seq<Word>, t: nat, row': seq<Word>, list': seq<Word>, p: Parsed<Word>)
    requires list != [] && t == Taken(len, row, list) && row' == row + list[..t] && list' == list[t..]
    requires p == if |row'| == len(row'[0]) then Collect(len, [], list') else Collect(len, row', list')
    ensures Collect(len, row, list) == if |row'| == len(row'[0]) then Parsed([row'] + p.commands, p.rest) else p
  {
  }

  lemma {:induction false} CollectOnMeans(len: Lengths, done: seq<Command>, row: seq<Word>, list: seq<Word>)
    ensures CollectOn(len, done, row, list) == Parsed(done + Collect(len, row, list).commands, Collect(len, row, list).rest)
    decreases |list|
  {
    if list != [] {
      var t := Taken(len, row, list);
      var row', list' := row + list[..t], list[t..];
      CollectStep(len, done, row, list, t, row', list');
      if |row'| == len(row'[0]) {
        var p := Collect(len, [], list');
        CollectUnfold(len, row, list, t, row', list', p);
        CollectOnMeans(len, done + [row'], [], list');
        assert done + ([row'] + p.commands) == (done + [row']) + p.commands;
      } else {
        CollectUnfold(len, row, list, t, row', list', Collect(len, row', list'));
        CollectOnMeans(len, done, row', list');
      }
    }
  }
}
