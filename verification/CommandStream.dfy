/**
 * Cutting a stream of words into commands, each as long as its first word says. This is the reference
 * for both command processors.
 */
module CommandStream {

  /** How many words a command needs, told from its first. */
  type Needs<!T(!new)> = f: T -> nat | forall p :: f(p) >= 1 witness (_: T) => 1

  datatype Parsed<T> = Parsed(commands: seq<seq<T>>, rest: seq<T>)

  predicate Incomplete<T(!new)>(need: Needs<T>, words: seq<T>) { |words| == 0 || |words| < need(words[0]) }

  function Parse<T(!new)>(need: Needs<T>, words: seq<T>): Parsed<T>
    decreases |words|
  {
    if Incomplete(need, words) then Parsed([], words)
    else
      var n := need(words[0]);
      var p := Parse(need, words[n..]);
      Parsed([words[..n]] + p.commands, p.rest)
  }

  function Flatten<T(!new)>(parts: seq<seq<T>>): seq<T> {
    if |parts| == 0 then [] else parts[0] + Flatten(parts[1..])
  }

  predicate Complete<T(!new)>(need: Needs<T>, c: seq<T>) { |c| > 0 && |c| == need(c[0]) }

  /** Every word went into exactly one complete command or is left over, in order; the leftover is unfinished. */
  ghost predicate Conserved<T(!new)>(need: Needs<T>, words: seq<T>, p: Parsed<T>) {
    && Flatten(p.commands) + p.rest == words
    && Incomplete(need, p.rest)
    && forall k :: 0 <= k < |p.commands| ==> Complete(need, p.commands[k])
  }

  lemma {:induction false} ParseConserves<T(!new)>(need: Needs<T>, words: seq<T>)
    ensures Conserved(need, words, Parse(need, words))
    decreases |words|
  {
    if !Incomplete(need, words) {
      var c, tail := FirstCommand(need, words);
      ParseConserves(need, tail);
      PrependConserves(need, words, c, tail, Parse(need, tail), Parse(need, words));
    }
  }

  /** The first command, and what is parsed after it. */
  lemma FirstCommand<T(!new)>(need: Needs<T>, words: seq<T>) returns (c: seq<T>, tail: seq<T>)
    requires !Incomplete(need, words)
    ensures c + tail == words && |tail| < |words| && Complete(need, c)
    ensures Parse(need, words) == Parsed([c] + Parse(need, tail).commands, Parse(need, tail).rest)
  {
    c, tail := words[..need(words[0])], words[need(words[0])..];
  }

  lemma PrependConserves<T(!new)>(need: Needs<T>, words: seq<T>, c: seq<T>, tail: seq<T>, p: Parsed<T>, q: Parsed<T>)
    requires Complete(need, c) && q == Parsed([c] + p.commands, p.rest) && Conserved(need, tail, p) && c + tail == words
    ensures Conserved(need, words, q)
  {
    FlattenCons(c, p.commands);
  }

  lemma FlattenCons<T(!new)>(c: seq<T>, cs: seq<seq<T>>)
    ensures Flatten([c] + cs) == c + Flatten(cs)
  {
    assert ([c] + cs)[1..] == cs;
  }

  /** Parsing may stop anywhere and be resumed with what was left. */
  lemma {:induction false} ParseResumes<T(!new)>(need: Needs<T>, a: seq<T>, b: seq<T>)
    ensures Parse(need, a + b).commands == Parse(need, a).commands + Parse(need, Parse(need, a).rest + b).commands
    ensures Parse(need, a + b).rest == Parse(need, Parse(need, a).rest + b).rest
    decreases |a|
  {
    if !Incomplete(need, a) {
      var n := need(a[0]);
      ParseResumes(need, a[n..], b);
      assert (a + b)[n..] == a[n..] + b && (a + b)[..n] == a[..n];
    }
  }

  /** `done` commands have been taken off the front of `words`, and `left` is still to be parsed. */
  ghost predicate Underway<T(!new)>(need: Needs<T>, words: seq<T>, done: seq<seq<T>>, left: seq<T>) {
    done + Parse(need, left).commands == Parse(need, words).commands && Parse(need, left).rest == Parse(need, words).rest
  }

  lemma ParseStops<T(!new)>(need: Needs<T>, words: seq<T>, done: seq<seq<T>>, left: seq<T>)
    requires Underway(need, words, done, left) && Incomplete(need, left)
    ensures done == Parse(need, words).commands && left == Parse(need, words).rest
  {
  }

  lemma ParseGoesOn<T(!new)>(need: Needs<T>, words: seq<T>, done: seq<seq<T>>, left: seq<T>, c: seq<T>, tail: seq<T>)
    requires Underway(need, words, done, left) && !Incomplete(need, left) && left == c + tail && |c| == need(left[0])
    ensures Underway(need, words, done + [c], tail)
  {
    assert left[|c|..] == tail && left[..|c|] == c;
  }

  /** A stream of complete commands is parsed into them, with nothing left. */
  lemma {:induction false} ParsesBack<T(!new)>(need: Needs<T>, cs: seq<seq<T>>)
    requires forall k :: 0 <= k < |cs| ==> Complete(need, cs[k])
    ensures Parse(need, Flatten(cs)) == Parsed(cs, [])
    decreases |cs|
  {
    if cs != [] {
      ParsesBack(need, cs[1..]);
      OneParsed(need, cs[0], Flatten(cs[1..]), cs[1..], Flatten(cs));
      assert cs == [cs[0]] + cs[1..];
    }
  }

  lemma OneParsed<T(!new)>(need: Needs<T>, c: seq<T>, rest: seq<T>, tail: seq<seq<T>>, words: seq<T>)
    requires Complete(need, c) && words == c + rest && Parse(need, rest) == Parsed(tail, [])
    ensures Parse(need, words) == Parsed([c] + tail, [])
  {
    assert words[0] == c[0] && words[..|c|] == c && words[|c|..] == rest;
  }
}
