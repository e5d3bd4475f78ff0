/**
 * The worker pool: a main thread hands numbered tasks to worker threads through a mutex, two condition
 * variables and a set of done bits. Task 0 is the empty task of the constructor; run k posts task k.
 *
 * One `Act` is one atomic step of one thread; any interleaving of acts is a run. A condition-variable
 * wait releases the mutex and blocks in one step, is woken by a notification or spuriously, and takes
 * the mutex again before it tests its predicate.
 */
module WorkerPool {
  import opened Words
  import opened Bits

  datatype Goal = Goal(k: nat, closing: bool)

  datatype MainPc =
    | Spawning(next: nat)      // constructor, creating threads
    | Wants(goal: Goal)        // wait(): not holding the mutex
    | Tests(goal: Goal)        // wait(): holding the mutex, about to test the predicate
    | Sleeps(goal: Goal)       // wait(): blocked on m_signal_done
    | Idle(k: nat)             // no call in progress; k tasks were run
    | Posting(k: nat)          // run(): m_task is set, start_work wants the mutex
    | Clearing(k: nat)         // run(): start_work holds the mutex
    | Calls(k: nat)            // run(): about to run the task as worker 0
    | Shutting(k: nat)         // destructor, after wait()
    | Stopping(k: nat)         // destructor: m_accept_work is false, start_work wants the mutex
    | Releasing(k: nat)        // destructor: start_work holds the mutex
    | Joining(next: nat, k: nat)
    | Closed(k: nat)

  datatype WorkerPc =
    | Unborn
    | Loop                     // at the test of m_accept_work
    | Calling                  // about to call m_task
    | Working(task: nat)       // inside the task
    | Locking                  // task finished, wants the mutex
    | Marking                  // holds the mutex, bit not set yet
    | Testing                  // holds the mutex, about to test its bit
    | Sleeping                 // blocked on m_signal_work
    | Woken                    // woken, wants the mutex
    | Gone

  datatype Mutex = Free | ByMain | ByWorker(w: nat)

  datatype Pool = Pool(
    n: nat,
    task: nat,                 // m_task
    accept: bool,              // m_accept_work
    done: set<nat>,            // bits of m_tasks_done
    mutex: Mutex,
    main: MainPc,
    workers: seq<WorkerPc>,    // index 0 is never a thread
    own: seq<nat>,             // tasks the main thread ran as worker 0
    ran: seq<seq<nat>>         // tasks each thread has finished, in order
  )

  /** m_all_tasks_done */
  function All(n: nat): set<nat> { set w | 0 <= w < n && IsThread(w) }

  /** Worker 0 is the main thread. */
  predicate IsThread(w: nat) { w >= 1 }

  /** The mask as it is computed: the low n bits without bit 0, with 64 workers treated apart. */
  function DoneMask(n: nat): nat {
    var low := if n == 64 then 0xFFFF_FFFF_FFFF_FFFF else Pow2(n) - 1;
    low - low % 2
  }

  lemma MaskIsAll(n: nat, b: nat)
    requires n <= 64
    ensures BitSet(DoneMask(n), b) <==> b in All(n)
  {
    if n == 64 {
      WordWidth();
      PowSplit(32, 32);
    }
    assert n > 0 ==> Pow2(n) == 2 * Pow2(n - 1);
    assert DoneMask(n) == if n == 0 then 0 else Pow2(n) - 2;
    if n == 0 {
      DivBetween(0, Pow2(b), 0);
    } else if b == 0 {
      assert BitSet(Pow2(n) - 2, 0) <==> (Pow2(n) - 2) % 2 == 1;
    } else if b < n {
      MiddleBit(n - b, b);
    } else {
      PowSplit(b - n, n);
      AtLeast(Pow2(b - n), Pow2(n));
      DivBetween(Pow2(n) - 2, Pow2(b), 0);
    }
  }

  lemma MiddleBit(c: nat, b: nat)
    requires c > 0 && b > 0
    ensures BitSet(Pow2(c + b) - 2, b)
  {
    PowSplit(c, b);
    OddQuotient(Pow2(c), Pow2(b), Pow2(c - 1));
  }

  lemma OddQuotient(x: nat, y: nat, h: nat)
    requires x == 2 * h && x > 0 && y >= 2
    ensures x * y >= 2 && (x * y - 2) / y % 2 == 1
  {
    OneLess(x, y);
    Bits.MulMono(1, x - 1, y);
    DivBetween(x * y - 2, y, x - 1);
  }

  lemma OneLess(x: int, y: int)
    ensures (x - 1) * y == x * y - y
  {
  }

  datatype Act = MainStep | WorkerStep(w: nat) | StartRun | StartClose | MainSpurious | WorkerSpurious(w: nat)

  predicate NeedsMutex(pc: WorkerPc) { pc.Locking? || pc.Woken? }

  predicate CanMain(s: Pool) {
    match s.main
    case Wants(_) => s.mutex.Free?
    case Posting(_) => s.mutex.Free?
    case Stopping(_) => s.mutex.Free?
    case Sleeps(_) => false
    case Idle(_) => false
    case Closed(_) => false
    case Joining(next, _) => next >= |s.workers| || s.workers[next].Gone?
    case _ => true
  }

  predicate CanWorker(s: Pool, w: nat) {
    1 <= w < |s.workers| && w < |s.ran|
    && !s.workers[w].Unborn? && !s.workers[w].Sleeping? && !s.workers[w].Gone?
    && (NeedsMutex(s.workers[w]) ==> s.mutex.Free?)
  }

  predicate Can(s: Pool, act: Act) {
    match act
    case MainStep => CanMain(s)
    case WorkerStep(w) => CanWorker(s, w)
    case StartRun => s.main.Idle? && s.accept
    case StartClose => s.main.Idle?
    case MainSpurious => s.main.Sleeps?
    case WorkerSpurious(w) => 1 <= w < |s.workers| && s.workers[w].Sleeping?
  }

  /** notify_all on m_signal_work */
  function WakeAll(ws: seq<WorkerPc>): seq<WorkerPc> {
    seq(|ws|, j requires 0 <= j < |ws| => if ws[j].Sleeping? then Woken else ws[j])
  }

  function AfterWait(goal: Goal): MainPc { if goal.closing then Shutting(goal.k) else Idle(goal.k) }

  function DoMain(s: Pool): Pool
    requires CanMain(s)
  {
    match s.main
    case Spawning(next) =>
      if 1 <= next < |s.workers| then s.(workers := s.workers[next := Loop], main := Spawning(next + 1))
      else s.(main := Wants(Goal(0, false)))
    case Wants(goal) => s.(mutex := ByMain, main := Tests(goal))
    case Tests(goal) =>
      if s.done == All(s.n) then s.(mutex := Free, main := AfterWait(goal)) else s.(mutex := Free, main := Sleeps(goal))
    case Posting(k) => s.(mutex := ByMain, main := Clearing(k))
    case Clearing(k) => s.(mutex := Free, done := {}, workers := WakeAll(s.workers), main := Calls(k))
    case Calls(k) => s.(own := s.own + [s.task], main := Wants(Goal(k, false)))
    case Shutting(k) => s.(accept := false, main := Stopping(k))
    case Stopping(k) => s.(mutex := ByMain, main := Releasing(k))
    case Releasing(k) => s.(mutex := Free, done := {}, workers := WakeAll(s.workers), main := Joining(1, k))
    case Joining(next, k) => s.(main := if next >= |s.workers| then Closed(k) else Joining(next + 1, k))
  }

  function DoWorker(s: Pool, w: nat): Pool
    requires CanWorker(s, w)
  {
    match s.workers[w]
    case Loop => s.(workers := s.workers[w := if s.accept then Calling else Gone])
    case Calling => s.(workers := s.workers[w := Working(s.task)])
    case Working(t) => s.(workers := s.workers[w := Locking], ran := s.ran[w := s.ran[w] + [t]])
    case Locking => s.(workers := s.workers[w := Marking], mutex := ByWorker(w))
    case Marking =>
      s.(workers := s.workers[w := Testing], done := s.done + {w},
         main := if s.main.Sleeps? then Wants(s.main.goal) else s.main)
    case Testing =>
      s.(workers := s.workers[w := if w in s.done then Sleeping else Loop], mutex := Free)
    case Woken => s.(workers := s.workers[w := Testing], mutex := ByWorker(w))
  }

  function Do(s: Pool, act: Act): Pool
    requires Can(s, act)
  {
    match act
    case MainStep => DoMain(s)
    case WorkerStep(w) => DoWorker(s, w)
    case StartRun => s.(task := s.main.k + 1, main := Posting(s.main.k + 1))
    case StartClose => s.(main := Wants(Goal(s.main.k, true)))
    case MainSpurious => s.(main := Wants(s.main.goal))
    case WorkerSpurious(w) => s.(workers := s.workers[w := Woken])
  }

  /** After the constructor's start_work, before any thread exists. */
  function Start(n: nat): Pool {
    Pool(n, 0, true, {}, Free, Spawning(1), seq(n, _ => Unborn), [], seq(n, _ => []))
  }

  // ----- what every interleaving keeps -----

  /** The number of the last task whose bits are being collected. */
  function Generation(main: MainPc): nat {
    match main
    case Spawning(_) => 0
    case Wants(goal) => goal.k
    case Tests(goal) => goal.k
    case Sleeps(goal) => goal.k
    case Posting(k) => if k == 0 then 0 else k - 1
    case Clearing(k) => if k == 0 then 0 else k - 1
    case Joining(_, k) => k
    case _ => main.k
  }

  /** Workers have been told to leave. */
  predicate Leaving(main: MainPc) { main.Joining? || main.Closed? }

  /** Every bit is set: nobody is working. */
  predicate AtBarrier(main: MainPc) {
    || main.Idle? || main.Posting? || main.Clearing? || main.Shutting? || main.Stopping? || main.Releasing?
    || (main.Wants? && main.goal.closing) || (main.Tests? && main.goal.closing) || (main.Sleeps? && main.goal.closing)
  }

  function Tasks(from: nat, to: nat): seq<nat>
    decreases to
  {
    if to <= from then [] else Tasks(from, to - 1) + [to - 1]
  }

  predicate MainHolds(main: MainPc) { main.Tests? || main.Clearing? || main.Releasing? }

  predicate WorkerHolds(pc: WorkerPc) { pc.Marking? || pc.Testing? }

  predicate MainOk(s: Pool) {
    && |s.workers| == s.n && |s.ran| == s.n
    && s.done <= All(s.n)
    && (AtBarrier(s.main) ==> s.done == All(s.n))
    && (s.main.Sleeps? ==> s.done != All(s.n))
    && (s.main.Posting? || s.main.Clearing? || s.main.Calls? ==> s.main.k > 0)
    && (s.main.Spawning? ==> s.main.next >= 1)
    && (Leaving(s.main) ==> s.done == {}) && (s.main.Joining? ==> s.main.next >= 1)
    && (s.accept <==> !(s.main.Stopping? || s.main.Releasing? || Leaving(s.main)))
    && (s.main.Posting? || s.main.Clearing? ==> s.task == s.main.k)
    && (!s.main.Posting? && !s.main.Clearing? ==> s.task == Generation(s.main))
    && s.own == Tasks(1, if s.main.Calls? then s.main.k else Generation(s.main) + 1)
    && (s.mutex.ByMain? <==> MainHolds(s.main))
  }

  predicate WorkerOk(s: Pool, w: nat)
    requires w < |s.workers| && w < |s.ran|
  {
    var g, pc := Generation(s.main), s.workers[w];
    && (s.mutex == ByWorker(w) <==> WorkerHolds(pc))
    && (s.main.Joining? && 1 <= w < s.main.next ==> pc.Gone?)
    && (s.main.Closed? ==> pc.Gone?)
    && (s.main.Spawning? && w >= s.main.next ==> pc.Unborn?)
    && if w in s.done then (pc.Testing? || pc.Sleeping? || pc.Woken?) && s.ran[w] == Tasks(0, g + 1)
       else match pc
         case Unborn => s.main.Spawning? && w >= s.main.next && s.ran[w] == []
         case Loop => s.ran[w] == Tasks(0, if Leaving(s.main) then g + 1 else g)
         case Calling => !Leaving(s.main) && s.ran[w] == Tasks(0, g)
         case Working(t) => !Leaving(s.main) && t == g && s.ran[w] == Tasks(0, g)
         case Locking => !Leaving(s.main) && s.ran[w] == Tasks(0, g + 1)
         case Marking => !Leaving(s.main) && s.ran[w] == Tasks(0, g + 1)
         case Sleeping => false
         case Gone => Leaving(s.main) && s.ran[w] == Tasks(0, g + 1)
         case _ => s.ran[w] == Tasks(0, if Leaving(s.main) then g + 1 else g)
  }

  predicate Inv(s: Pool) {
    && MainOk(s)
    && (forall w :: 1 <= w < s.n ==> WorkerOk(s, w))
    && (s.mutex.ByWorker? ==> 1 <= s.mutex.w < s.n)
  }

  lemma StartInv(n: nat)
    ensures Inv(Start(n))
  {
  }

  lemma MainKeepsMain(s: Pool)
    requires Inv(s) && CanMain(s)
    ensures MainOk(DoMain(s))
  {
  }

  lemma MainKeepsWorker(s: Pool, w: nat)
    requires MainOk(s) && 1 <= w < s.n && WorkerOk(s, w) && CanMain(s)
    ensures |DoMain(s).workers| == |DoMain(s).ran| == s.n && WorkerOk(DoMain(s), w)
  {
  }

  lemma MainKeeps(s: Pool)
    requires Inv(s) && CanMain(s)
    ensures Inv(DoMain(s))
  {
    MainKeepsMain(s);
    forall w | 1 <= w < s.n
      ensures WorkerOk(DoMain(s), w)
    {
      MainKeepsWorker(s, w);
    }
  }

  lemma WorkerKeepsMain(s: Pool, v: nat)
    requires MainOk(s) && CanWorker(s, v) && WorkerOk(s, v)
    ensures MainOk(DoWorker(s, v))
  {
  }

  lemma WorkerKeepsSelf(s: Pool, v: nat)
    requires MainOk(s) && CanWorker(s, v) && WorkerOk(s, v)
    ensures |DoWorker(s, v).workers| == |DoWorker(s, v).ran| == s.n && WorkerOk(DoWorker(s, v), v)
  {
  }

  lemma WorkerKeepsOther(s: Pool, v: nat, w: nat)
    requires MainOk(s) && CanWorker(s, v) && WorkerOk(s, v) && 1 <= w < s.n && WorkerOk(s, w) && w != v
    ensures |DoWorker(s, v).workers| == |DoWorker(s, v).ran| == s.n && WorkerOk(DoWorker(s, v), w)
  {
  }

  lemma WorkerKeeps(s: Pool, v: nat)
    requires Inv(s) && CanWorker(s, v)
    ensures Inv(DoWorker(s, v))
  {
    WorkerKeepsMain(s, v);
    WorkerKeepsSelf(s, v);
    forall w | 1 <= w < s.n
      ensures WorkerOk(DoWorker(s, v), w)
    {
      if w != v { WorkerKeepsOther(s, v, w); }
    }
  }

  /** Starting a call, or a spurious wake-up. */
  lemma OtherKeepsWorker(s: Pool, act: Act, w: nat)
    requires MainOk(s) && 1 <= w < s.n && WorkerOk(s, w) && Can(s, act) && !act.MainStep? && !act.WorkerStep?
    ensures |Do(s, act).workers| == |Do(s, act).ran| == s.n && WorkerOk(Do(s, act), w)
  {
  }

  lemma OtherKeepsMain(s: Pool, act: Act)
    requires Inv(s) && Can(s, act) && !act.MainStep? && !act.WorkerStep?
    ensures MainOk(Do(s, act))
  {
  }

  /** Every act of every thread keeps the invariant. */
  lemma StepKeeps(s: Pool, act: Act)
    requires Inv(s) && Can(s, act)
    ensures Inv(Do(s, act))
  {
    if act.MainStep? {
      MainKeeps(s);
    } else if act.WorkerStep? {
      WorkerKeeps(s, act.w);
    } else {
      OtherKeepsMain(s, act);
      forall w | 1 <= w < s.n
        ensures WorkerOk(Do(s, act), w)
      {
        OtherKeepsWorker(s, act, w);
      }
    }
  }

  // ----- whole runs -----

  predicate AllCan(s: Pool, acts: seq<Act>)
    decreases |acts|
  {
    acts == [] || (Can(s, acts[0]) && AllCan(Do(s, acts[0]), acts[1..]))
  }

  function DoAll(s: Pool, acts: seq<Act>): Pool
    requires AllCan(s, acts)
    decreases |acts|
  {
    if acts == [] then s else DoAll(Do(s, acts[0]), acts[1..])
  }

  lemma {:induction false} RunKeeps(s: Pool, acts: seq<Act>)
    requires Inv(s) && AllCan(s, acts)
    ensures Inv(DoAll(s, acts))
    decreases |acts|
  {
    if acts != [] {
      StepKeeps(s, acts[0]);
      RunKeeps(Do(s, acts[0]), acts[1..]);
    }
  }

  ghost predicate Reachable(n: nat, s: Pool) { exists acts :: AllCan(Start(n), acts) && DoAll(Start(n), acts) == s }

  lemma ReachableInv(n: nat, s: Pool)
    requires Reachable(n, s)
    ensures Inv(s)
  {
    var acts :| AllCan(Start(n), acts) && DoAll(Start(n), acts) == s;
    StartInv(n);
    RunKeeps(Start(n), acts);
  }

  /** At the barrier everybody has run everything. */
  lemma IdleRan(s: Pool, w: nat)
    requires Inv(s) && s.main.Idle?
    ensures s.own == Tasks(1, s.main.k + 1)
    ensures 1 <= w < s.n ==> w < |s.ran| && s.ran[w] == Tasks(0, s.main.k + 1)
  {
    assert 1 <= w < s.n ==> w in All(s.n) && WorkerOk(s, w);
  }

  /** When the constructor or the k-th run has returned, every worker has run tasks 0 to k once each, in order. */
  lemma ReturnedMeansDone(n: nat, s: Pool, w: nat)
    requires Reachable(n, s) && s.main.Idle?
    ensures s.own == Tasks(1, s.main.k + 1)
    ensures 1 <= w < s.n ==> w < |s.ran| && s.ran[w] == Tasks(0, s.main.k + 1)
  {
    ReachableInv(n, s);
    IdleRan(s, w);
  }

  /** A worker inside a task runs the posted one, and everybody has finished the task before it. */
  lemma NoOvertaking(n: nat, s: Pool, w: nat, v: nat)
    requires Reachable(n, s) && 1 <= w < s.n && 1 <= v < s.n && w < |s.workers| && s.workers[w].Working?
    ensures s.workers[w].task == s.task && v < |s.ran|
    ensures s.ran[v] == Tasks(0, s.task) || s.ran[v] == Tasks(0, s.task + 1)
  {
    ReachableInv(n, s);
    assert WorkerOk(s, w) && WorkerOk(s, v);
  }

  /** The task is replaced only while no worker is about to call it or inside it. */
  lemma TaskIsStable(n: nat, s: Pool, act: Act, w: nat)
    requires Reachable(n, s) && Can(s, act) && Do(s, act).task != s.task && 1 <= w < s.n && w < |s.workers|
    ensures !s.workers[w].Calling? && !s.workers[w].Working?
  {
    ReachableInv(n, s);
    assert WorkerOk(s, w);
    assert w in All(s.n);
  }

  /** When the destructor has returned, every thread has left and has run exactly the posted tasks. */
  lemma ShutdownRunsNothing(n: nat, s: Pool, w: nat)
    requires Reachable(n, s) && s.main.Closed?
    ensures s.own == Tasks(1, s.main.k + 1)
    ensures 1 <= w < s.n ==> w < |s.workers| && w < |s.ran| && s.workers[w].Gone? && s.ran[w] == Tasks(0, s.main.k + 1)
  {
    ReachableInv(n, s);
    assert 1 <= w < s.n ==> WorkerOk(s, w);
  }

  // ----- nothing gets stuck -----

  /** A step that needs no spurious wake-up and no new call. */
  predicate CanProgress(s: Pool, act: Act) { (act.MainStep? || act.WorkerStep?) && Can(s, act) }

  lemma HolderProgresses(s: Pool) returns (act: Act)
    requires Inv(s) && !s.mutex.Free?
    ensures CanProgress(s, act)
  {
    if s.mutex.ByMain? {
      act := MainStep;
    } else {
      assert WorkerOk(s, s.mutex.w);
      act := WorkerStep(s.mutex.w);
    }
  }

  lemma WorkerProgresses(s: Pool, w: nat) returns (act: Act)
    requires Inv(s) && 1 <= w < s.n && !s.workers[w].Unborn? && !s.workers[w].Sleeping? && !s.workers[w].Gone?
    ensures CanProgress(s, act)
  {
    if s.mutex.Free? || !NeedsMutex(s.workers[w]) {
      act := WorkerStep(w);
    } else {
      act := HolderProgresses(s);
    }
  }

  /** While a call is in progress some thread can always take a step. */
  lemma NeverStuck(s: Pool) returns (act: Act)
    requires Inv(s) && !s.main.Idle? && !s.main.Closed?
    ensures CanProgress(s, act)
  {
    if CanMain(s) {
      act := MainStep;
    } else if !s.mutex.Free? {
      act := HolderProgresses(s);
    } else if s.main.Joining? {
      assert WorkerOk(s, s.main.next);
      act := WorkerProgresses(s, s.main.next);
    } else {
      var w :| w in All(s.n) && w !in s.done;
      assert WorkerOk(s, w);
      act := WorkerProgresses(s, w);
    }
  }

  // ----- every call returns -----

  function WorkerRank(pc: WorkerPc, marked: bool): nat {
    match pc
    case Unborn => 13
    case Woken => if marked then 2 else 12
    case Testing => if marked then 1 else 11
    case Loop => 10
    case Calling => 9
    case Working(_) => 8
    case Locking => 7
    case Marking => 6
    case Sleeping => 0
    case Gone => 0
  }

  function MainRank(main: MainPc, n: nat): nat {
    match main
    case Spawning(next) => 4 + (if next < n then n - next else 0)
    case Wants(goal) => if goal.closing then 14 * n + 10 else 3
    case Tests(goal) => if goal.closing then 14 * n + 9 else 2
    case Sleeps(goal) => if goal.closing then 14 * n + 8 else 1
    case Idle(_) => 0
    case Posting(_) => 13 * n + 6
    case Clearing(_) => 13 * n + 5
    case Calls(_) => 4
    case Shutting(_) => 14 * n + 7
    case Stopping(_) => 14 * n + 6
    case Releasing(_) => 14 * n + 5
    case Joining(next, _) => 1 + (if next < n then n - next else 0)
    case Closed(_) => 0
  }

  function Ranks(ws: seq<WorkerPc>, done: set<nat>, n: nat): nat
    requires n <= |ws|
  {
    if n == 0 then 0 else Ranks(ws, done, n - 1) + WorkerRank(ws[n - 1], n - 1 in done)
  }

  function Rank(s: Pool): nat { MainRank(s.main, s.n) + Ranks(s.workers, s.done, |s.workers|) }

  /** Changing one worker changes the sum by that worker's difference. */
  lemma {:induction false} RanksUpdate(ws: seq<WorkerPc>, done: set<nat>, ws': seq<WorkerPc>, done': set<nat>, n: nat, w: nat)
    requires n <= |ws| == |ws'| && w < |ws|
    requires forall j :: 0 <= j < n && j != w ==> ws[j] == ws'[j] && (j in done <==> j in done')
    ensures Ranks(ws', done', n) == Ranks(ws, done, n)
          + (if w < n then WorkerRank(ws'[w], w in done') - WorkerRank(ws[w], w in done) else 0)
  {
    if n > 0 {
      RanksUpdate(ws, done, ws', done', n - 1, w);
    }
  }

  lemma {:induction false} RanksBound(ws: seq<WorkerPc>, done: set<nat>, n: nat)
    requires n <= |ws|
    ensures Ranks(ws, done, n) <= 13 * n
  {
    if n > 0 {
      RanksBound(ws, done, n - 1);
    }
  }

  lemma MainDescends(s: Pool)
    requires Inv(s) && CanMain(s)
    ensures Rank(DoMain(s)) < Rank(s)
  {
    var s' := DoMain(s);
    RanksBound(s'.workers, s'.done, s.n);
    if s.main.Spawning? && s.main.next < s.n {
      RanksUpdate(s.workers, s.done, s'.workers, s'.done, s.n, s.main.next);
      assert WorkerOk(s, s.main.next);
    }
  }

  lemma WorkerDescends(s: Pool, w: nat)
    requires Inv(s) && CanWorker(s, w)
    ensures Rank(DoWorker(s, w)) < Rank(s)
  {
    var s' := DoWorker(s, w);
    RanksUpdate(s.workers, s.done, s'.workers, s'.done, s.n, w);
    assert WorkerOk(s, w);
  }

  predicate Progressing(s: Pool, acts: seq<Act>)
    decreases |acts|
  {
    acts == [] || (CanProgress(s, acts[0]) && Progressing(Do(s, acts[0]), acts[1..]))
  }

  /** However the threads are scheduled, they can take only so many steps before the call in progress returns. */
  lemma {:induction false} BoundedSteps(s: Pool, acts: seq<Act>)
    requires Inv(s) && Progressing(s, acts)
    ensures |acts| <= Rank(s)
    decreases |acts|
  {
    if acts != [] {
      var act := acts[0];
      Descends(s, act);
      StepKeeps(s, act);
      BoundedSteps(Do(s, act), acts[1..]);
    }
  }

  /** A spurious wake-up costs at most two more steps. */
  lemma SpuriousCost(s: Pool, act: Act)
    requires Inv(s) && Can(s, act) && (act.MainSpurious? || act.WorkerSpurious?)
    ensures Rank(Do(s, act)) <= Rank(s) + 2
  {
    if act.WorkerSpurious? {
      RanksUpdate(s.workers, s.done, Do(s, act).workers, s.done, s.n, act.w);
      assert WorkerOk(s, act.w);
    }
  }

  predicate Finished(s: Pool, acts: seq<Act>)
    decreases |acts|
  {
    if acts == [] then s.main.Idle? || s.main.Closed?
    else CanProgress(s, acts[0]) && Finished(Do(s, acts[0]), acts[1..])
  }

  /** From every reachable state the call in progress can be finished, and no scheduling can put that off for ever. */
  lemma CallsReturn(n: nat, s: Pool) returns (acts: seq<Act>)
    requires Reachable(n, s)
    ensures Finished(s, acts)
    ensures forall others :: Progressing(s, others) ==> |others| <= Rank(s)
  {
    ReachableInv(n, s);
    acts := FinishCall(s);
    forall others | Progressing(s, others)
      ensures |others| <= Rank(s)
    {
      BoundedSteps(s, others);
    }
  }

  lemma FinishCall(s: Pool) returns (acts: seq<Act>)
    requires Inv(s)
    ensures Finished(s, acts)
    decreases Rank(s)
  {
    if s.main.Idle? || s.main.Closed? {
      acts := [];
    } else {
      var act := NeverStuck(s);
      StepKeeps(s, act);
      Descends(s, act);
      var rest := FinishCall(Do(s, act));
      acts := [act] + rest;
    }
  }

  lemma Descends(s: Pool, act: Act)
    requires Inv(s) && CanProgress(s, act)
    ensures Rank(Do(s, act)) < Rank(s)
  {
    if act.MainStep? {
      MainDescends(s);
    } else {
      WorkerDescends(s, act.w);
    }
  }
}
