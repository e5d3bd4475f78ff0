/**
 * The list processor on top of the worker pool, as one system. The pool's tasks are numbered: 0 is the
 * empty task of its constructor, later ones replay the command buffer or do other work (setting the
 * renderer up). A replaying worker reads the buffer the processor fills, at the moment it runs; no copy is
 * made. Whatever the interleaving, every worker runs the commands of the batches, in order.
 */
module WorkerReplay {
  import opened WorkerPool
  import Video = VideoDispatch

  /** What is handed to parallel_run. */
  datatype Post = Other | Replay(commands: seq<Video.Command>)

  /** cmd_run_buffered runs the whole buffer, on whichever worker. */
  function Work(posted: seq<Post>, task: nat): seq<Video.Command> {
    if task < |posted| && posted[task].Replay? then posted[task].commands else []
  }

  /** The commands of a list of tasks, joined. */
  function Replayed(posted: seq<Post>, tasks: seq<nat>): seq<Video.Command> {
    if tasks == [] then [] else Replayed(posted, tasks[..|tasks| - 1]) + Work(posted, tasks[|tasks| - 1])
  }

  function FirstTasks(posted: seq<Post>, n: nat): seq<Video.Command> {
    if n == 0 then [] else FirstTasks(posted, n - 1) + Work(posted, n - 1)
  }

  /** The batches of a log are what was posted, other work aside, in the same order. */
  function Replays(posted: seq<Post>): seq<seq<Video.Command>> {
    if posted == [] then []
    else Replays(posted[..|posted| - 1]) + if posted[|posted| - 1].Replay? then [posted[|posted| - 1].commands] else []
  }

  function Batches(log: seq<Video.Action>): seq<seq<Video.Command>> {
    if log == [] then []
    else Batches(log[..|log| - 1]) + if log[|log| - 1].Batch? then [log[|log| - 1].commands] else []
  }

  function Joined(batches: seq<seq<Video.Command>>): seq<Video.Command> {
    if batches == [] then [] else Joined(batches[..|batches| - 1]) + batches[|batches| - 1]
  }

  lemma JoinedSnoc(batches: seq<seq<Video.Command>>, b: seq<Video.Command>)
    ensures Joined(batches + [b]) == Joined(batches) + b
  {
    assert (batches + [b])[..|batches|] == batches;
  }

  lemma {:induction false} JoinedBatches(log: seq<Video.Action>)
    ensures Joined(Batches(log)) == Video.Executed(log)
    decreases |log|
  {
    if log != [] {
      var n := |log| - 1;
      JoinedBatches(log[..n]);
      if log[n].Batch? {
        JoinedSnoc(Batches(log[..n]), log[n].commands);
      } else {
        assert Batches(log) == Batches(log[..n]);
      }
    }
  }

  lemma {:induction false} FirstTasksPrefix(a: seq<Post>, p: Post, n: nat)
    requires n <= |a|
    ensures FirstTasks(a + [p], n) == FirstTasks(a, n)
  {
    if n > 0 {
      FirstTasksPrefix(a, p, n - 1);
    }
  }

  lemma {:induction false} JoinedReplays(posted: seq<Post>)
    ensures FirstTasks(posted, |posted|) == Joined(Replays(posted))
    decreases |posted|
  {
    if posted != [] {
      var n := |posted| - 1;
      JoinedReplays(posted[..n]);
      assert posted == posted[..n] + [posted[n]];
      FirstTasksPrefix(posted[..n], posted[n], n);
      if posted[n].Replay? {
        JoinedSnoc(Replays(posted[..n]), posted[n].commands);
      } else {
        assert Replays(posted) == Replays(posted[..n]);
      }
    }
  }

  lemma ReplayedSnoc(posted: seq<Post>, tasks: seq<nat>, t: nat)
    ensures Replayed(posted, tasks + [t]) == Replayed(posted, tasks) + Work(posted, t)
  {
    assert (tasks + [t])[..|tasks|] == tasks;
  }

  lemma LastTask(posted: seq<Post>, from: nat, k: nat, n: nat)
    requires from <= k && n == k + 1 && Replayed(posted, Tasks(from, k)) == FirstTasks(posted, k)
    ensures Replayed(posted, Tasks(from, n)) == FirstTasks(posted, n)
  {
    ReplayedSnoc(posted, Tasks(from, k), k);
  }

  /** Tasks from .. n - 1 in order, when the ones before carry no commands. */
  lemma {:induction false} ReplayedTasks(posted: seq<Post>, from: nat, n: nat)
    requires from <= n && FirstTasks(posted, from) == []
    ensures Replayed(posted, Tasks(from, n)) == FirstTasks(posted, n)
  {
    if from < n {
      var k: nat := n - 1;
      ReplayedTasks(posted, from, k);
      LastTask(posted, from, k, n);
    }
  }

  /** All tasks in order are all batches in order; the first task is the empty one. */
  lemma EverythingReplayed(posted: seq<Post>, n: nat)
    requires |posted| == n > 0 && posted[0].Other?
    ensures Replayed(posted, Tasks(0, n)) == Joined(Replays(posted)) && Replayed(posted, Tasks(1, n)) == Joined(Replays(posted))
  {
    JoinedReplays(posted);
    FirstIsEmpty(posted);
    ReplayedTasks(posted, 1, n);
    ReplayedTasks(posted, 0, n);
  }

  lemma FirstIsEmpty(posted: seq<Post>)
    requires posted != [] && posted[0].Other?
    ensures FirstTasks(posted, 0) == [] && FirstTasks(posted, 1) == []
  {
  }

  // ----- the processor and the pool, step by step -----

  /** Between commands; about to flush; inside parallel_run for the buffer; inside it for other work. `sync`: SYNC_FULL follows. */
  datatype Phase = Ready | Owes(sync: bool) | Replaying(sync: bool) | Elsewhere

  datatype Joint = Joint(
    pool: Pool,
    video: Video.State,                  // the buffer, and what has been logged
    phase: Phase,
    posted: seq<Post>,                   // what each task number stands for
    seen: seq<seq<Video.Command>>,       // the commands each thread has run
    own: seq<Video.Command>,             // the commands the main thread has run as worker 0
    taken: seq<Video.Command>            // the commands decoded so far
  )

  datatype Event =
    | Take(c: Video.Command)             // one complete command is dispatched
    | Flush                              // cmd_flush calls parallel_run
    | Leave                              // parallel_run is called with another task
    | Return                             // parallel_run returns
    | Thread(act: Act)                   // a step of some thread inside the pool

  predicate Enabled(j: Joint, e: Event) {
    match e
    case Take(c) => j.phase.Ready? && c != []
    case Flush => j.phase.Owes? && Can(j.pool, StartRun)
    case Leave => j.phase.Ready? && Can(j.pool, StartRun)
    case Return => (j.phase.Replaying? || j.phase.Elsewhere?) && j.pool.main.Idle?
    case Thread(act) => Can(j.pool, act) && !act.StartRun? && !act.StartClose?
  }

  /** What a thread that runs the task reads: the buffer as it is now, if the task is to replay it. */
  function Reads(j: Joint, task: nat): seq<Video.Command> {
    if task < |j.posted| && j.posted[task].Replay? then j.video.buffered else []
  }

  function Synced(s: Video.State, sync: bool): Video.State {
    if sync then s.(log := s.log + [Video.SyncFull]) else s
  }

  function AfterTake(setup: Video.Setup, j: Joint, c: Video.Command): Joint
    requires c != []
  {
    var k := j.(taken := j.taken + [c]);
    if Video.IsSync(c) then
      if j.video.buffered == [] then k.(video := Synced(j.video, true)) else k.(phase := Owes(true))
    else
      var s := j.video.(buffered := j.video.buffered + [c]);
      k.(video := s, phase := if |s.buffered| >= Video.BUFFER_SIZE || setup.sync(Video.Id(c[0])) then Owes(false) else Ready)
  }

  function AfterReturn(j: Joint): Joint {
    if j.phase.Replaying? then j.(video := Synced(Video.Flush(j.video), j.phase.sync), phase := Ready) else j.(phase := Ready)
  }

  function AfterThread(j: Joint, act: Act): Joint
    requires Can(j.pool, act)
  {
    var k := j.(pool := Do(j.pool, act));
    if act.WorkerStep? && act.w < |j.seen| && j.pool.workers[act.w].Working? then
      k.(seen := j.seen[act.w := j.seen[act.w] + Reads(j, j.pool.workers[act.w].task)])
    else if act.MainStep? && j.pool.main.Calls? then k.(own := j.own + Reads(j, j.pool.task))
    else k
  }

  function Next(setup: Video.Setup, j: Joint, e: Event): Joint
    requires Enabled(j, e)
  {
    match e
    case Take(c) => AfterTake(setup, j, c)
    case Flush => j.(pool := Do(j.pool, StartRun), phase := Replaying(j.phase.sync), posted := j.posted + [Replay(j.video.buffered)])
    case Leave => j.(pool := Do(j.pool, StartRun), phase := Elsewhere, posted := j.posted + [Other])
    case Return => AfterReturn(j)
    case Thread(act) => AfterThread(j, act)
  }

  /** The pool is being constructed; nothing has been decoded. */
  function Initial(n: nat): Joint {
    Joint(Start(n), Video.State([], []), Elsewhere, [Other], seq(n, _ => []), [], [])
  }

  // ----- what every interleaving keeps -----

  /** The number of the last task that was posted. */
  function Posted(main: MainPc): nat {
    match main
    case Spawning(_) => 0
    case Wants(goal) => goal.k
    case Tests(goal) => goal.k
    case Sleeps(goal) => goal.k
    case Joining(_, k) => k
    case _ => main.k
  }

  /** What the processor's state will be when the flush it owes, or is in, is over. */
  function Settled(j: Joint): Video.State {
    if j.phase.Owes? || j.phase.Replaying? then Synced(Video.Flush(j.video), j.phase.sync) else j.video
  }

  predicate PhaseOk(j: Joint) {
    && Posted(j.pool.main) + 1 == |j.posted| && j.posted[0].Other?
    && (j.phase.Ready? || j.phase.Owes? ==> j.pool.main.Idle?)
    && (j.phase.Owes? || j.phase.Replaying? ==> j.video.buffered != [])
    && (j.phase.Replaying? ==> j.posted[|j.posted| - 1] == Replay(j.video.buffered))
    && (j.phase.Elsewhere? ==> j.posted[|j.posted| - 1].Other?)
  }

  /** What has been posted is what has been logged, and the batch in flight. */
  predicate PostedIsLogged(j: Joint) {
    Replays(j.posted) == Batches(j.video.log) + if j.phase.Replaying? then [j.video.buffered] else []
  }

  predicate Seen(j: Joint, w: nat) {
    w < |j.seen| && w < |j.pool.ran| && j.seen[w] == Replayed(j.posted, j.pool.ran[w])
  }

  ghost predicate Holds(setup: Video.Setup, j: Joint) {
    && Inv(j.pool) && setup.workers && PhaseOk(j) && PostedIsLogged(j)
    && Video.NonEmpty(j.taken) && Settled(j) == Video.SubmitAll(setup, Video.State([], []), j.taken)
    && (forall w :: 1 <= w < j.pool.n ==> Seen(j, w))
    && j.own == Replayed(j.posted, j.pool.own)
  }

  lemma InitialHolds(setup: Video.Setup, n: nat)
    requires setup.workers
    ensures Holds(setup, Initial(n))
  {
    StartInv(n);
    assert Replays([Other]) == [];
    assert Batches([]) == [];
  }

  /** A thread inside a task is inside the last one posted, and the processor is inside parallel_run. */
  lemma InsideLast(j: Joint, w: nat)
    requires Inv(j.pool) && PhaseOk(j) && 1 <= w < j.pool.n && w < |j.pool.workers| && j.pool.workers[w].Working?
    ensures j.pool.workers[w].task == |j.posted| - 1 && (j.phase.Replaying? || j.phase.Elsewhere?)
  {
    assert WorkerOk(j.pool, w);
    assert w in All(j.pool.n);
  }

  lemma CallsLast(j: Joint)
    requires Inv(j.pool) && PhaseOk(j) && j.pool.main.Calls?
    ensures j.pool.task == |j.posted| - 1 && (j.phase.Replaying? || j.phase.Elsewhere?)
  {
  }

  lemma ReadsIsWork(j: Joint, task: nat)
    requires PhaseOk(j) && task == |j.posted| - 1 && (j.phase.Replaying? || j.phase.Elsewhere?)
    ensures Reads(j, task) == Work(j.posted, task)
  {
  }

  /** A step of the pool posts nothing and does not end a call. */
  lemma PoolStep(s: Pool, act: Act)
    requires Inv(s) && Can(s, act) && !act.StartRun? && !act.StartClose?
    ensures Posted(Do(s, act).main) == Posted(s.main) && (s.main.Idle? ==> Do(s, act).main == s.main) && Do(s, act).n == s.n
  {
  }

  /** Only a worker that leaves its task adds to what it has run. */
  lemma RanStep(s: Pool, act: Act, w: nat)
    requires Inv(s) && Can(s, act) && 1 <= w < s.n && w < |s.ran| && w < |s.workers|
    ensures w < |Do(s, act).ran|
    ensures Do(s, act).ran[w]
         == if act == WorkerStep(w) && s.workers[w].Working? then s.ran[w] + [s.workers[w].task] else s.ran[w]
  {
  }

  lemma OwnStep(s: Pool, act: Act)
    requires Can(s, act)
    ensures Do(s, act).own == if act.MainStep? && s.main.Calls? then s.own + [s.task] else s.own
  {
  }

  lemma ThreadSeen(j: Joint, act: Act, w: nat)
    requires Inv(j.pool) && PhaseOk(j) && Can(j.pool, act) && 1 <= w < j.pool.n && Seen(j, w)
    ensures Seen(AfterThread(j, act), w)
  {
    assert MainOk(j.pool);
    RanStep(j.pool, act, w);
    if act == WorkerStep(w) && j.pool.workers[w].Working? {
      InsideLast(j, w);
      ReadsIsWork(j, j.pool.workers[w].task);
      ReplayedSnoc(j.posted, j.pool.ran[w], j.pool.workers[w].task);
    }
  }

  /** What the main thread has run, before and after. */
  lemma OwnAfter(j: Joint, act: Act, k: Joint)
    requires Can(j.pool, act) && k == AfterThread(j, act)
    ensures k.posted == j.posted
    ensures k.own == if act.MainStep? && j.pool.main.Calls? then j.own + Reads(j, j.pool.task) else j.own
    ensures k.pool.own == if act.MainStep? && j.pool.main.Calls? then j.pool.own + [j.pool.task] else j.pool.own
  {
    OwnStep(j.pool, act);
  }

  lemma ThreadOwn(j: Joint, act: Act, k: Joint)
    requires Can(j.pool, act) && k == AfterThread(j, act) && j.own == Replayed(j.posted, j.pool.own)
    requires j.pool.main.Calls? ==> Reads(j, j.pool.task) == Work(j.posted, j.pool.task)
    ensures k.own == Replayed(k.posted, k.pool.own)
  {
    OwnAfter(j, act, k);
    ReplayedSnoc(j.posted, j.pool.own, j.pool.task);
  }

  lemma ThreadShape(j: Joint, act: Act, k: Joint)
    requires Can(j.pool, act) && k == AfterThread(j, act)
    ensures k.pool == Do(j.pool, act) && k == j.(pool := k.pool, seen := k.seen, own := k.own)
  {
  }

  lemma CallsReads(j: Joint)
    requires Inv(j.pool) && PhaseOk(j) && j.pool.main.Calls?
    ensures Reads(j, j.pool.task) == Work(j.posted, j.pool.task)
  {
    CallsLast(j);
    ReadsIsWork(j, j.pool.task);
  }

  lemma ThreadKeeps(setup: Video.Setup, j: Joint, act: Act)
    requires Holds(setup, j) && Enabled(j, Thread(act))
    ensures Holds(setup, AfterThread(j, act))
  {
    var k := AfterThread(j, act);
    StepKeeps(j.pool, act);
    PoolStep(j.pool, act);
    ThreadShape(j, act, k);
    if j.pool.main.Calls? { CallsReads(j); }
    ThreadOwn(j, act, k);
    ThreadsSeen(j, act, k);
    ThreadPhase(j, k);
  }

  lemma ThreadsSeen(j: Joint, act: Act, k: Joint)
    requires Inv(j.pool) && PhaseOk(j) && Can(j.pool, act) && k == AfterThread(j, act) && k.pool.n == j.pool.n
    requires forall w :: 1 <= w < j.pool.n ==> Seen(j, w)
    ensures forall w :: 1 <= w < k.pool.n ==> Seen(k, w)
  {
    forall w | 1 <= w < k.pool.n
      ensures Seen(k, w)
    {
      ThreadSeen(j, act, w);
    }
  }

  lemma ThreadPhase(j: Joint, k: Joint)
    requires PhaseOk(j) && PostedIsLogged(j) && k == j.(pool := k.pool, seen := k.seen, own := k.own)
    requires Posted(k.pool.main) == Posted(j.pool.main) && (j.pool.main.Idle? ==> k.pool.main == j.pool.main)
    ensures PhaseOk(k) && PostedIsLogged(k) && Settled(k) == Settled(j)
  {
  }

  lemma BatchesSnoc(log: seq<Video.Action>, a: Video.Action)
    ensures Batches(log + [a]) == Batches(log) + if a.Batch? then [a.commands] else []
  {
    assert (log + [a])[..|log|] == log;
  }

  lemma ReplaysSnoc(posted: seq<Post>, p: Post)
    ensures Replays(posted + [p]) == Replays(posted) + if p.Replay? then [p.commands] else []
  {
    assert (posted + [p])[..|posted|] == posted;
  }

  lemma SyncedBatches(s: Video.State, sync: bool)
    ensures Batches(Synced(s, sync).log) == Batches(s.log) && Synced(s, sync).buffered == s.buffered
  {
    if sync { BatchesSnoc(s.log, Video.SyncFull); }
  }

  lemma TakeKeeps(setup: Video.Setup, j: Joint, c: Video.Command)
    requires Holds(setup, j) && Enabled(j, Take(c))
    ensures Holds(setup, AfterTake(setup, j, c))
  {
    var k := AfterTake(setup, j, c);
    Video.SubmitAllSnoc(setup, Video.State([], []), j.taken, c);
    TakeSettles(setup, j, c);
    TakeLogs(setup, j, c);
    TakeShape(setup, j, c);
    SeenStays(j, k);
  }

  /** Only the processor's own fields changed. */
  predicate SamePool(j: Joint, k: Joint) { k == j.(video := k.video, phase := k.phase, taken := k.taken) }

  lemma SeenStays(j: Joint, k: Joint)
    requires SamePool(j, k) && forall w :: 1 <= w < j.pool.n ==> Seen(j, w)
    ensures forall w :: 1 <= w < k.pool.n ==> Seen(k, w)
  {
    forall w | 1 <= w < k.pool.n
      ensures Seen(k, w)
    {
      assert Seen(j, w);
    }
  }

  lemma TakeShape(setup: Video.Setup, j: Joint, c: Video.Command)
    requires PhaseOk(j) && j.phase.Ready? && c != []
    ensures SamePool(j, AfterTake(setup, j, c)) && PhaseOk(AfterTake(setup, j, c))
    ensures AfterTake(setup, j, c).taken == j.taken + [c]
  {
  }

  lemma TakeSettles(setup: Video.Setup, j: Joint, c: Video.Command)
    requires j.phase.Ready? && c != [] && setup.workers
    ensures Settled(AfterTake(setup, j, c)) == Video.Submit(setup, j.video, c)
  {
  }

  lemma TakeLogs(setup: Video.Setup, j: Joint, c: Video.Command)
    requires j.phase.Ready? && c != [] && PostedIsLogged(j)
    ensures PostedIsLogged(AfterTake(setup, j, c))
  {
    SyncedBatches(j.video, true);
  }

  lemma ReturnKeeps(setup: Video.Setup, j: Joint)
    requires Holds(setup, j) && Enabled(j, Return)
    ensures Holds(setup, AfterReturn(j))
  {
    ReturnLogs(j);
    ReturnShape(j);
    SeenStays(j, AfterReturn(j));
  }

  lemma ReturnLogs(j: Joint)
    requires PhaseOk(j) && PostedIsLogged(j) && Enabled(j, Return)
    ensures PostedIsLogged(AfterReturn(j))
  {
    if j.phase.Replaying? {
      BatchesSnoc(j.video.log, Video.Batch(j.video.buffered));
      SyncedBatches(Video.Flush(j.video), j.phase.sync);
    }
  }

  lemma ReturnShape(j: Joint)
    requires PhaseOk(j) && Enabled(j, Return)
    ensures SamePool(j, AfterReturn(j)) && PhaseOk(AfterReturn(j))
    ensures Settled(AfterReturn(j)) == Settled(j) && AfterReturn(j).taken == j.taken
  {
  }

  lemma WorkPrefix(posted: seq<Post>, p: Post, t: nat)
    requires t < |posted|
    ensures Work(posted + [p], t) == Work(posted, t)
  {
  }

  /** Posting a task does not change what the ones before it were. */
  lemma {:induction false} ReplayedPrefix(posted: seq<Post>, p: Post, from: nat, n: nat)
    requires n <= |posted|
    ensures Replayed(posted + [p], Tasks(from, n)) == Replayed(posted, Tasks(from, n))
  {
    if from < n {
      var k: nat := n - 1;
      ReplayedPrefix(posted, p, from, k);
      OneMoreTask(posted, posted + [p], p, from, k, n);
    }
  }

  lemma OneMoreTask(posted: seq<Post>, more: seq<Post>, p: Post, from: nat, k: nat, n: nat)
    requires from <= k < |posted| && n == k + 1 && more == posted + [p]
    requires Replayed(more, Tasks(from, k)) == Replayed(posted, Tasks(from, k))
    ensures Replayed(more, Tasks(from, n)) == Replayed(posted, Tasks(from, n))
  {
    ReplayedSnoc(more, Tasks(from, k), k);
    ReplayedSnoc(posted, Tasks(from, k), k);
    WorkPrefix(posted, p, k);
  }

  lemma PostSeen(j: Joint, p: Post, w: nat)
    requires Inv(j.pool) && PhaseOk(j) && j.pool.main.Idle? && 1 <= w < j.pool.n && Seen(j, w)
    ensures j.seen[w] == Replayed(j.posted + [p], j.pool.ran[w])
  {
    IdleRan(j.pool, w);
    ReplayedPrefix(j.posted, p, 0, |j.posted|);
  }

  lemma PostOwn(j: Joint, p: Post)
    requires Inv(j.pool) && PhaseOk(j) && j.pool.main.Idle? && j.own == Replayed(j.posted, j.pool.own)
    ensures j.own == Replayed(j.posted + [p], j.pool.own)
  {
    IdleRan(j.pool, 0);
    ReplayedPrefix(j.posted, p, 1, |j.posted|);
  }

  lemma StartedPool(s: Pool)
    requires s.main.Idle? && Can(s, StartRun)
    ensures var t := Do(s, StartRun); t.n == s.n && t.ran == s.ran && t.own == s.own && t.main == Posting(s.main.k + 1)
  {
  }

  lemma PostKeeps(setup: Video.Setup, j: Joint, e: Event, p: Post)
    requires Holds(setup, j) && Enabled(j, e) && (e.Flush? || e.Leave?)
    requires p == if e.Flush? then Replay(j.video.buffered) else Other
    ensures Holds(setup, Next(setup, j, e))
  {
    var k := Next(setup, j, e);
    StepKeeps(j.pool, StartRun);
    StartedPool(j.pool);
    PostOwn(j, p);
    PostsSeen(j, k, p);
    PostPhase(setup, j, e, k, p);
  }

  lemma PostsSeen(j: Joint, k: Joint, p: Post)
    requires Inv(j.pool) && PhaseOk(j) && j.pool.main.Idle? && k.posted == j.posted + [p] && k.seen == j.seen
    requires k.pool.n == j.pool.n && k.pool.ran == j.pool.ran && forall w :: 1 <= w < j.pool.n ==> Seen(j, w)
    ensures forall w :: 1 <= w < k.pool.n ==> Seen(k, w)
  {
    forall w | 1 <= w < k.pool.n
      ensures Seen(k, w)
    {
      assert Seen(j, w);
      PostSeen(j, p, w);
    }
  }

  lemma PostPhase(setup: Video.Setup, j: Joint, e: Event, k: Joint, p: Post)
    requires PhaseOk(j) && PostedIsLogged(j) && Enabled(j, e) && (e.Flush? || e.Leave?) && k == Next(setup, j, e)
    requires p == if e.Flush? then Replay(j.video.buffered) else Other
    ensures PhaseOk(k) && PostedIsLogged(k) && Settled(k) == Settled(j) && k.taken == j.taken
  {
    StartedPool(j.pool);
    ReplaysSnoc(j.posted, p);
  }

  lemma NextKeeps(setup: Video.Setup, j: Joint, e: Event)
    requires Holds(setup, j) && Enabled(j, e)
    ensures Holds(setup, Next(setup, j, e))
  {
    match e
    case Take(c) => TakeKeeps(setup, j, c);
    case Flush => PostKeeps(setup, j, e, Replay(j.video.buffered));
    case Leave => PostKeeps(setup, j, e, Other);
    case Return => ReturnKeeps(setup, j);
    case Thread(act) => ThreadKeeps(setup, j, act);
  }

  // ----- whole runs -----

  predicate AllEnabled(setup: Video.Setup, j: Joint, events: seq<Event>)
    decreases |events|
  {
    events == [] || (Enabled(j, events[0]) && AllEnabled(setup, Next(setup, j, events[0]), events[1..]))
  }

  function NextAll(setup: Video.Setup, j: Joint, events: seq<Event>): Joint
    requires AllEnabled(setup, j, events)
    decreases |events|
  {
    if events == [] then j else NextAll(setup, Next(setup, j, events[0]), events[1..])
  }

  lemma {:induction false} RunHolds(setup: Video.Setup, j: Joint, events: seq<Event>)
    requires Holds(setup, j) && AllEnabled(setup, j, events)
    ensures Holds(setup, NextAll(setup, j, events))
    decreases |events|
  {
    if events != [] {
      NextKeeps(setup, j, events[0]);
      RunHolds(setup, Next(setup, j, events[0]), events[1..]);
    }
  }

  /** Some interleaving of the processor and n threads, from the constructor on, leads to j. */
  ghost predicate Reached(setup: Video.Setup, n: nat, j: Joint) {
    exists events :: AllEnabled(setup, Initial(n), events) && NextAll(setup, Initial(n), events) == j
  }

  lemma ReachedHolds(setup: Video.Setup, n: nat, j: Joint)
    requires setup.workers && Reached(setup, n, j)
    ensures Holds(setup, j)
  {
    var events :| AllEnabled(setup, Initial(n), events) && NextAll(setup, Initial(n), events) == j;
    InitialHolds(setup, n);
    RunHolds(setup, Initial(n), events);
  }

  /** While the processor is between commands, and may write to the buffer, no thread is about to read it or reading it. */
  lemma BufferIsQuiet(setup: Video.Setup, n: nat, j: Joint, w: nat)
    requires setup.workers && Reached(setup, n, j) && !j.phase.Replaying? && !j.phase.Elsewhere?
    requires 1 <= w < j.pool.n && w < |j.pool.workers|
    ensures !j.pool.workers[w].Calling? && !j.pool.workers[w].Working? && !j.pool.main.Calls?
  {
    ReachedHolds(setup, n, j);
    assert WorkerOk(j.pool, w) && w in All(j.pool.n);
  }

  lemma NothingInFlight(j: Joint)
    requires PostedIsLogged(j) && !j.phase.Replaying?
    ensures Replays(j.posted) == Batches(j.video.log)
  {
  }

  lemma OwnIsLog(j: Joint, k: nat)
    requires Inv(j.pool) && PhaseOk(j) && PostedIsLogged(j) && j.phase.Ready? && k == |j.posted|
    requires j.own == Replayed(j.posted, j.pool.own)
    ensures j.own == Video.Executed(j.video.log)
  {
    IdleRan(j.pool, 0);
    NothingInFlight(j);
    JoinedBatches(j.video.log);
    EverythingReplayed(j.posted, k);
  }

  lemma SeenIsLog(j: Joint, w: nat, k: nat)
    requires Inv(j.pool) && PhaseOk(j) && PostedIsLogged(j) && j.phase.Ready? && k == |j.posted|
    requires 1 <= w < j.pool.n && Seen(j, w)
    ensures j.seen[w] == Video.Executed(j.video.log)
  {
    IdleRan(j.pool, w);
    NothingInFlight(j);
    JoinedBatches(j.video.log);
    EverythingReplayed(j.posted, k);
  }

  /**
   * Between commands every worker, the main thread as worker 0 included, has run exactly the batches of the
   * log, in order, and the log is that of the dispatched commands.
   */
  lemma EveryWorkerRanTheLog(setup: Video.Setup, n: nat, j: Joint, w: nat)
    requires setup.workers && Reached(setup, n, j) && j.phase.Ready?
    ensures Video.NonEmpty(j.taken) && j.video == Video.SubmitAll(setup, Video.State([], []), j.taken)
    ensures j.own == Video.Executed(j.video.log)
    ensures 1 <= w < j.pool.n ==> w < |j.seen| && j.seen[w] == Video.Executed(j.video.log)
  {
    ReachedHolds(setup, n, j);
    OwnIsLog(j, |j.posted|);
    if 1 <= w < j.pool.n {
      assert Seen(j, w);
      SeenIsLog(j, w, |j.posted|);
    }
  }

  /** With the buffered commands still to come, that is the decoded stream without SYNC_FULL, for every thread. */
  lemma EveryWorkerRanTheStream(setup: Video.Setup, n: nat, j: Joint, w: nat)
    requires setup.workers && Reached(setup, n, j) && j.phase.Ready?
    ensures j.own + j.video.buffered == Video.WithoutSync(j.taken)
    ensures 1 <= w < j.pool.n ==> w < |j.seen| && j.seen[w] + j.video.buffered == Video.WithoutSync(j.taken)
  {
    EveryWorkerRanTheLog(setup, n, j, w);
    Video.SubmitAllInOrder(setup, j.taken);
    Video.WorkersSeeStream(setup, j.video, j.taken);
  }
}
