/** Any number of threads around one CCheckQueue: every interleaving of their critical sections
    and checks, with lost, repeated and spurious wake-ups of the condition variables. */
module CheckQueueRuns {
  import opened CheckQueue

  /** Where a thread is in Loop. Thread 0 is the master, the only one that is ever `Away`.
      `woken` says that a notification has reached a waiting thread. */
  datatype Thread =
    | Away
    | Entering
    | Waiting(woken: bool)
    | Working(batch: seq<Job>, pos: nat, ok: bool)

  /** `inUse` says that a CCheckQueueControl exists and has not waited yet. `added` and `done`
      are history: the checks added since the last Wait, and those accounted for. */
  datatype System = System(q: Shared, threads: seq<Thread>, inUse: bool, added: seq<Job>, done: multiset<Job>)

  const START := System(NEW_QUEUE, [Away], false, [], multiset{})

  datatype Step =
    | Spawn
    | OpenControl
    | Add(jobs: seq<Job>, woken: nat)
    | CallWait
    | Begin(i: nat)
    | Exec(i: nat)
    | Finish(i: nat)
    | Resume(i: nat)

  predicate Sleeping(t: Thread) { t.Waiting? && !t.woken }

  predicate Enabled(s: System, step: Step) {
    |s.threads| > 0 &&
    match step
    case Spawn => true
    case OpenControl => !s.inUse && s.threads[0].Away?
    case Add(jobs, woken) =>
      && s.inUse && s.threads[0].Away?
      // notify_one wakes one of the sleeping workers, if there is any
      && ((exists i | 0 < i < |s.threads| :: Sleeping(s.threads[i])) ==> 0 < woken < |s.threads| && Sleeping(s.threads[woken]))
    case CallWait => s.inUse && s.threads[0].Away?
    case Begin(i) => i < |s.threads| && s.threads[i].Entering?
    case Exec(i) => i < |s.threads| && s.threads[i].Working? && s.threads[i].pos < |s.threads[i].batch|
    case Finish(i) => i < |s.threads| && s.threads[i].Working? && s.threads[i].pos == |s.threads[i].batch|
    case Resume(i) => i < |s.threads| && s.threads[i].Waiting?
  }

  function Wake(t: Thread): Thread { if t.Waiting? then Waiting(true) else t }

  function WakeAll(threads: seq<Thread>): seq<Thread>
    requires |threads| > 0
  {
    seq(|threads|, i requires 0 <= i < |threads| => if i > 0 then Wake(threads[i]) else threads[i])
  }

  /** notify_one for a single check, notify_all for more. */
  function Notify(threads: seq<Thread>, jobs: seq<Job>, woken: nat): seq<Thread>
    requires |threads| > 0
  {
    if |jobs| == 1 && 0 < woken < |threads| then threads[woken := Wake(threads[woken])]
    else if |jobs| > 1 then WakeAll(threads)
    else threads
  }

  /** The thread after its critical section. */
  function Land(o: Outcome): Thread {
    match o
    case Return(_) => Away
    case Sleep => Waiting(false)
    case Take(batch, ok) => Working(batch, 0, ok)
  }

  /** The system after thread `i` left a critical section with `q` and `o`. */
  function Leave(s: System, i: nat, q: Shared, o: Outcome): System
    requires i < |s.threads|
  {
    if o.Return? then System(q, s.threads[i := Away], false, [], multiset{})
    else s.(q := q, threads := s.threads[i := Land(o)])
  }

  /** The shared fields on entering the `while (queue.empty())` loop. */
  function Entry(s: System, step: Step): Shared
    requires Enabled(s, step) && (step.Begin? || step.Finish? || step.Resume?)
  {
    match step
    case Begin(_) => CleanUp(s.q, 0, true)
    case Finish(i) => CleanUp(s.q, |s.threads[i].batch|, s.threads[i].ok)
    case Resume(_) => s.q.(nIdle := s.q.nIdle - 1)
  }

  function OutcomeOf(s: System, step: Step, batchSize: nat): Outcome
    requires Enabled(s, step) && (step.Begin? || step.Finish? || step.Resume?)
    requires Entry(s, step).nTotal + Entry(s, step).nIdle >= 0
  {
    Decide(Entry(s, step), step.i == 0, batchSize).1
  }

  function Next(s: System, step: Step, batchSize: nat): System
    requires Enabled(s, step)
    requires step.Begin? || step.Finish? || step.Resume? ==> Entry(s, step).nTotal + Entry(s, step).nIdle >= 0
  {
    match step
    case Spawn => s.(threads := s.threads + [Entering])
    case OpenControl => s.(inUse := true)
    case Add(jobs, woken) =>
      s.(q := Added(s.q, jobs), threads := Notify(s.threads, jobs, woken), added := s.added + jobs)
    case CallWait => s.(threads := s.threads[0 := Entering])
    case Begin(i) =>
      var (q, o) := Decide(Entry(s, step), i == 0, batchSize);
      Leave(s, i, q, o)
    case Exec(i) =>
      var t := s.threads[i];
      // a check is run only while none has failed
      s.(threads := s.threads[i := Working(t.batch, t.pos + 1, t.ok && t.batch[t.pos].good)])
    case Finish(i) =>
      var t := s.threads[i];
      var (q, o) := Decide(Entry(s, step), i == 0, batchSize);
      var s1 := s.(done := s.done + multiset(t.batch),
                   threads := if TellsMaster(s.q, i == 0, |t.batch|) then s.threads[0 := Wake(s.threads[0])] else s.threads);
      Leave(s1, i, q, o)
    case Resume(i) =>
      var (q, o) := Decide(Entry(s, step), i == 0, batchSize);
      Leave(s, i, q, o)
  }

  /** A single check wakes one sleeping worker, if there is one, and no other thread; more wake them all. */
  lemma AddWakes(s: System, jobs: seq<Job>, woken: nat, batchSize: nat, i: nat)
    requires Enabled(s, Add(jobs, woken)) && 0 < i < |s.threads|
    ensures var threads' := Next(s, Add(jobs, woken), batchSize).threads;
            && |threads'| == |s.threads| && threads'[0] == s.threads[0]
            && (|jobs| > 1 ==> !Sleeping(threads'[i]))
            && (|jobs| == 1 && Sleeping(s.threads[i]) ==>
                  woken < |s.threads| && Sleeping(s.threads[woken]) && threads' == s.threads[woken := Waiting(true)])
            && (!s.threads[i].Waiting? ==> threads'[i] == s.threads[i])
  {
    assert Sleeping(s.threads[i]) ==> exists i | 0 < i < |s.threads| :: Sleeping(s.threads[i]);
  }

  // ----- sums over the threads -----

  function Sum(threads: seq<Thread>, f: Thread -> int, k: nat): int
    requires k <= |threads|
  {
    if k == 0 then 0 else Sum(threads, f, k - 1) + f(threads[k - 1])
  }

  lemma {:induction false} SumUpdate(threads: seq<Thread>, f: Thread -> int, i: nat, t: Thread, k: nat)
    requires i < |threads| && k <= |threads|
    ensures Sum(threads[i := t], f, k) == Sum(threads, f, k) + (if i < k then f(t) - f(threads[i]) else 0)
  {
    if k > 0 {
      SumUpdate(threads, f, i, t, k - 1);
    }
  }

  lemma {:induction false} SumSame(a: seq<Thread>, b: seq<Thread>, f: Thread -> int, k: nat)
    requires k <= |a| && k <= |b| && forall i | 0 <= i < k :: f(a[i]) == f(b[i])
    ensures Sum(a, f, k) == Sum(b, f, k)
  {
    if k > 0 {
      SumSame(a, b, f, k - 1);
    }
  }

  lemma {:induction false} SumAtLeast(threads: seq<Thread>, f: Thread -> int, i: nat, k: nat)
    requires k <= |threads| && forall j | 0 <= j < k :: f(threads[j]) >= 0
    ensures Sum(threads, f, k) >= 0 && (i < k ==> Sum(threads, f, k) >= f(threads[i]))
  {
    if k > 0 {
      SumAtLeast(threads, f, i, k - 1);
    }
  }

  function IdleOf(t: Thread): int { if t.Waiting? then 1 else 0 }
  function InsideOf(t: Thread): int { if t.Waiting? || t.Working? then 1 else 0 }
  function HeldOf(t: Thread): int { if t.Working? then |t.batch| else 0 }

  function IDLE(): Thread -> int { (t: Thread) => IdleOf(t) }
  function INSIDE(): Thread -> int { (t: Thread) => InsideOf(t) }
  function HELD(): Thread -> int { (t: Thread) => HeldOf(t) }

  /** How often a check occurs in a thread's own batch. */
  function CopiesOf(t: Thread, job: Job): int { if t.Working? then multiset(t.batch)[job] else 0 }

  function COPIES(job: Job): Thread -> int { (t: Thread) => CopiesOf(t, job) }

  // ----- the invariant -----

  predicate AllGood(jobs: seq<Job>) { forall j | 0 <= j < |jobs| :: jobs[j].good }

  /** What a thread knows about the checks it has run. */
  predicate ThreadOk(t: Thread, added: seq<Job>) {
    t.Working? ==>
      && 0 < |t.batch| && t.pos <= |t.batch|
      && (t.ok ==> forall j | 0 <= j < t.pos :: t.batch[j].good)
      && (!t.ok ==> !AllGood(added))
  }

  /** The counters are what they are said to count. */
  ghost predicate CountersOk(s: System) {
    var n := |s.threads|;
    && s.q.nIdle == Sum(s.threads, IDLE(), n)
    && s.q.nTotal == Sum(s.threads, INSIDE(), n)
    && s.q.nTodo == |s.q.queue| + Sum(s.threads, HELD(), n)
  }

  function Copies(s: System, job: Job): int {
    multiset(s.q.queue)[job] + Sum(s.threads, COPIES(job), |s.threads|) + s.done[job]
  }

  /** Every check is in exactly one place: queued, in one thread's batch, or accounted for. */
  ghost predicate JobsOk(s: System) {
    forall job :: multiset(s.added)[job] == Copies(s, job)
  }

  ghost predicate ResultOk(s: System) {
    && (s.q.allOk ==> forall j | j in s.done :: j.good)
    && (!s.q.allOk ==> !AllGood(s.added))
    && forall i | 0 <= i < |s.threads| :: ThreadOk(s.threads[i], s.added)
  }

  ghost predicate MasterOk(s: System) {
    && |s.threads| > 0
    && (forall i | 0 < i < |s.threads| :: !s.threads[i].Away?)
    && (!s.threads[0].Away? ==> s.inUse)
    // the master sleeps only while some worker still holds checks
    && (s.threads[0].Waiting? ==> s.q.queue == [])
    && (Sleeping(s.threads[0]) ==> s.q.nTodo > 0)
    && (!s.inUse ==> s.added == [])
  }

  ghost predicate Inv(s: System) {
    CountersOk(s) && JobsOk(s) && ResultOk(s) && MasterOk(s)
  }

  // ----- inside a critical section -----

  /** Thread `i` holds the lock, at the head of the `while (queue.empty())` loop: it is counted
      in nTotal but holds nothing. */
  ghost predicate MidOk(s: System, i: nat) {
    var n := |s.threads|;
    && i < n && s.threads[i] == Entering
    && s.q.nIdle == Sum(s.threads, IDLE(), n)
    && s.q.nTotal == Sum(s.threads, INSIDE(), n) + 1
    && s.q.nTodo == |s.q.queue| + Sum(s.threads, HELD(), n)
    && JobsOk(s) && ResultOk(s) && MasterOk(s)
  }

  /** `s` with thread `i` at that point. */
  function AtLoop(s: System, i: nat, q: Shared, done: multiset<Job>): System
    requires i < |s.threads|
  {
    s.(q := q, done := done, threads := s.threads[i := Entering])
  }

  lemma SumsUpdate(threads: seq<Thread>, i: nat, t: Thread)
    requires i < |threads|
    ensures var n, u := |threads|, threads[i := t];
            && Sum(u, IDLE(), n) == Sum(threads, IDLE(), n) + IdleOf(t) - IdleOf(threads[i])
            && Sum(u, INSIDE(), n) == Sum(threads, INSIDE(), n) + InsideOf(t) - InsideOf(threads[i])
            && Sum(u, HELD(), n) == Sum(threads, HELD(), n) + HeldOf(t) - HeldOf(threads[i])
            && forall job :: Sum(u, COPIES(job), n) == Sum(threads, COPIES(job), n) + CopiesOf(t, job) - CopiesOf(threads[i], job)
  {
    var n, u := |threads|, threads[i := t];
    SumUpdate(threads, IDLE(), i, t, n);
    SumUpdate(threads, INSIDE(), i, t, n);
    SumUpdate(threads, HELD(), i, t, n);
    forall job
      ensures Sum(u, COPIES(job), n) == Sum(threads, COPIES(job), n) + CopiesOf(t, job) - CopiesOf(threads[i], job)
    {
      SumUpdate(threads, COPIES(job), i, t, n);
    }
  }

  lemma SumsSame(a: seq<Thread>, b: seq<Thread>)
    requires |a| == |b| && forall i | 0 <= i < |a| :: a[i] == b[i] || (a[i].Waiting? && b[i].Waiting?)
    ensures var n := |a|;
            && Sum(b, IDLE(), n) == Sum(a, IDLE(), n) && Sum(b, INSIDE(), n) == Sum(a, INSIDE(), n)
            && Sum(b, HELD(), n) == Sum(a, HELD(), n)
            && forall job :: Sum(b, COPIES(job), n) == Sum(a, COPIES(job), n)
  {
    var n := |a|;
    SumSame(a, b, IDLE(), n);
    SumSame(a, b, INSIDE(), n);
    SumSame(a, b, HELD(), n);
    forall job
      ensures Sum(b, COPIES(job), n) == Sum(a, COPIES(job), n)
    {
      SumSame(a, b, COPIES(job), n);
    }
  }

  lemma SumsNotNegative(threads: seq<Thread>, i: nat)
    requires i < |threads|
    ensures var n := |threads|;
            && Sum(threads, IDLE(), n) >= IdleOf(threads[i]) && Sum(threads, INSIDE(), n) >= InsideOf(threads[i])
            && Sum(threads, HELD(), n) >= HeldOf(threads[i])
  {
    SumAtLeast(threads, IDLE(), i, |threads|);
    SumAtLeast(threads, INSIDE(), i, |threads|);
    SumAtLeast(threads, HELD(), i, |threads|);
  }

  lemma BeginReachesLoop(s: System, i: nat)
    requires Inv(s) && Enabled(s, Begin(i))
    ensures MidOk(AtLoop(s, i, Entry(s, Begin(i)), s.done), i)
  {
    assert s.threads[i := Entering] == s.threads;
  }

  lemma ResumeReachesLoop(s: System, i: nat)
    requires Inv(s) && Enabled(s, Resume(i))
    ensures MidOk(AtLoop(s, i, Entry(s, Resume(i)), s.done), i)
  {
    hide Sum, COPIES, IDLE, INSIDE, HELD, AllGood;
    SumsUpdate(s.threads, i, Entering);
  }

  /** Finish, before the loop is entered: the batch is accounted for, and the master is told
      when it was the last one. */
  function Accounted(s: System, i: nat): System
    requires Enabled(s, Finish(i))
  {
    var t := s.threads[i];
    s.(done := s.done + multiset(t.batch),
       threads := if TellsMaster(s.q, i == 0, |t.batch|) then s.threads[0 := Wake(s.threads[0])] else s.threads)
  }

  lemma FinishReachesLoop(s: System, i: nat)
    requires Inv(s) && Enabled(s, Finish(i))
    ensures MidOk(AtLoop(Accounted(s, i), i, Entry(s, Finish(i)), Accounted(s, i).done), i)
  {
    hide Sum, COPIES, IDLE, INSIDE, HELD;
    var t, a := s.threads[i], Accounted(s, i);
    SumsUpdate(s.threads, 0, Wake(s.threads[0]));
    SumsUpdate(a.threads, i, Entering);
    SumsNotNegative(s.threads, i);
    assert a.threads[i] == t;
    assert ThreadOk(t, s.added);
  }

  // ----- leaving it -----

  lemma ReturnKeepsInv(s: System)
    requires MidOk(s, 0) && s.q.queue == [] && s.q.nTodo == 0
    ensures s.q.allOk == AllGood(s.added) && s.done == multiset(s.added)
    ensures Inv(Leave(s, 0, s.q.(nTotal := s.q.nTotal - 1, allOk := true), Return(s.q.allOk)))
  {
    hide Sum, COPIES, IDLE, INSIDE, HELD;
    var n := |s.threads|;
    forall i | 0 <= i < n
      ensures !s.threads[i].Working?
    {
      SumsNotNegative(s.threads, i);
      assert ThreadOk(s.threads[i], s.added);
    }
    forall job
      ensures multiset(s.added)[job] == s.done[job] && Sum(s.threads, COPIES(job), n) == 0
    {
      NoCopies(s.threads, n, job);
    }
    assert multiset(s.added) == s.done;
    SumsUpdate(s.threads, 0, Away);
    forall j | 0 <= j < |s.added|
      ensures s.added[j] in s.done
    {
    }
  }

  lemma {:induction false} NoCopies(threads: seq<Thread>, k: nat, job: Job)
    requires k <= |threads| && forall i | 0 <= i < k :: !threads[i].Working?
    ensures Sum(threads, COPIES(job), k) == 0
  {
    if k > 0 {
      NoCopies(threads, k - 1, job);
    }
  }

  lemma SleepKeepsInv(s: System, i: nat)
    requires MidOk(s, i) && s.q.queue == [] && (i == 0 ==> s.q.nTodo > 0)
    ensures Inv(Leave(s, i, s.q.(nIdle := s.q.nIdle + 1), Sleep))
  {
    hide Sum, COPIES, IDLE, INSIDE, HELD, AllGood;
    SumsUpdate(s.threads, i, Waiting(false));
  }

  lemma TakeKeepsInv(s: System, i: nat, n: nat)
    requires MidOk(s, i) && 0 < n <= |s.q.queue|
    ensures Inv(Leave(s, i, s.q.(queue := s.q.queue[..|s.q.queue| - n]), Take(LastFirst(s.q.queue, n), s.q.allOk)))
  {
    hide Sum, COPIES, IDLE, INSIDE, HELD, AllGood;
    SumsUpdate(s.threads, i, Working(LastFirst(s.q.queue, n), 0, s.q.allOk));
    LastFirstIsTail(s.q.queue, n);
  }

  lemma DecideKeepsInv(s: System, i: nat, batchSize: nat)
    requires MidOk(s, i)
    ensures s.q.nTotal + s.q.nIdle >= 0
    ensures var (q, o) := Decide(s.q, i == 0, batchSize);
            && Inv(Leave(s, i, q, o))
            && (o.Return? ==> i == 0 && o.result == AllGood(s.added) && s.done == multiset(s.added))
  {
    hide Sum, COPIES, IDLE, INSIDE, HELD, AllGood, Inv, JobsOk, ResultOk;
    SumsNotNegative(s.threads, i);
    assert s.q.nTodo >= 0;
    if s.q.queue != [] {
      TakeKeepsInv(s, i, BatchOf(s.q, batchSize));
    } else if i == 0 && s.q.nTodo == 0 {
      ReturnKeepsInv(s);
    } else {
      SleepKeepsInv(s, i);
    }
  }

  // ----- every step -----

  /** Each step that takes the lock goes through the loop head. */
  function ThroughLoop(s: System, step: Step): System
    requires Enabled(s, step) && (step.Begin? || step.Finish? || step.Resume?)
  {
    var a := if step.Finish? then Accounted(s, step.i) else s;
    AtLoop(a, step.i, Entry(s, step), a.done)
  }

  lemma LeaveForgets(s: System, i: nat, q0: Shared, done: multiset<Job>, q: Shared, o: Outcome)
    requires i < |s.threads|
    ensures Leave(AtLoop(s, i, q0, done), i, q, o) == Leave(s.(done := done), i, q, o)
  {
    assert s.threads[i := Entering][i := Land(o)] == s.threads[i := Land(o)];
    assert s.threads[i := Entering][i := Away] == s.threads[i := Away];
  }

  lemma ReachesLoop(s: System, step: Step)
    requires Inv(s) && Enabled(s, step) && (step.Begin? || step.Finish? || step.Resume?)
    ensures MidOk(ThroughLoop(s, step), step.i) && ThroughLoop(s, step).q == Entry(s, step)
  {
    hide Inv, MidOk, Entry, Accounted;
    if step.Begin? {
      BeginReachesLoop(s, step.i);
    } else if step.Finish? {
      FinishReachesLoop(s, step.i);
    } else {
      ResumeReachesLoop(s, step.i);
    }
  }

  lemma LockStep(s: System, step: Step, batchSize: nat)
    requires Inv(s) && Enabled(s, step) && (step.Begin? || step.Finish? || step.Resume?)
    ensures MidOk(ThroughLoop(s, step), step.i)
    ensures Entry(s, step).nTotal + Entry(s, step).nIdle >= 0
    ensures var mid := ThroughLoop(s, step);
            var (q, o) := Decide(mid.q, step.i == 0, batchSize);
            Next(s, step, batchSize) == Leave(mid, step.i, q, o) && o == OutcomeOf(s, step, batchSize)
  {
    hide Inv, MidOk, Decide, Leave, AtLoop, Entry;
    ReachesLoop(s, step);
    var mid := ThroughLoop(s, step);
    DecideKeepsInv(mid, step.i, batchSize);
    var (q, o) := Decide(mid.q, step.i == 0, batchSize);
    var a := if step.Finish? then Accounted(s, step.i) else s;
    assert a.(done := a.done) == a;
    LeaveForgets(a, step.i, Entry(s, step), a.done, q, o);
  }

  lemma AddKeepsInv(s: System, jobs: seq<Job>, woken: nat, batchSize: nat)
    requires Inv(s) && Enabled(s, Add(jobs, woken))
    ensures Inv(Next(s, Add(jobs, woken), batchSize))
  {
    hide Sum, COPIES, IDLE, INSIDE, HELD;
    var s', n := Next(s, Add(jobs, woken), batchSize), |s.threads|;
    assert |s'.threads| == n && s'.threads[0] == s.threads[0];
    assert forall i | 0 <= i < n :: s'.threads[i] == s.threads[i] || s'.threads[i] == Wake(s.threads[i]);
    SumsSame(s.threads, s'.threads);
    assert forall j | 0 <= j < |s.added| :: s'.added[j] == s.added[j];
    forall i | 0 <= i < n
      ensures ThreadOk(s'.threads[i], s'.added)
    {
      assert ThreadOk(s.threads[i], s.added);
    }
  }

  lemma ExecKeepsInv(s: System, i: nat, batchSize: nat)
    requires Inv(s) && Enabled(s, Exec(i))
    ensures Inv(Next(s, Exec(i), batchSize))
  {
    hide Sum, COPIES, IDLE, INSIDE, HELD;
    var t := s.threads[i];
    var t' := Working(t.batch, t.pos + 1, t.ok && t.batch[t.pos].good);
    SumsUpdate(s.threads, i, t');
    assert ThreadOk(t, s.added);
    if t.ok && !t.batch[t.pos].good {
      HeldIsAdded(s, i, t.batch[t.pos]);
    }
  }

  lemma HeldIsAdded(s: System, i: nat, job: Job)
    requires JobsOk(s) && i < |s.threads| && s.threads[i].Working? && job in s.threads[i].batch
    ensures job in s.added
  {
    SumAtLeast(s.threads, COPIES(job), i, |s.threads|);
    assert multiset(s.added)[job] == Copies(s, job) > 0;
  }

  lemma SumsGrow(threads: seq<Thread>)
    ensures var n, u := |threads|, threads + [Entering];
            && Sum(u, IDLE(), n + 1) == Sum(threads, IDLE(), n) && Sum(u, INSIDE(), n + 1) == Sum(threads, INSIDE(), n)
            && Sum(u, HELD(), n + 1) == Sum(threads, HELD(), n)
            && forall job :: Sum(u, COPIES(job), n + 1) == Sum(threads, COPIES(job), n)
  {
    var n, u := |threads|, threads + [Entering];
    SumSame(threads, u, IDLE(), n);
    SumSame(threads, u, INSIDE(), n);
    SumSame(threads, u, HELD(), n);
    forall job
      ensures Sum(u, COPIES(job), n + 1) == Sum(threads, COPIES(job), n)
    {
      SumSame(threads, u, COPIES(job), n);
    }
  }

  lemma OtherKeepsInv(s: System, step: Step, batchSize: nat)
    requires Inv(s) && Enabled(s, step) && (step.Spawn? || step.OpenControl? || step.CallWait?)
    ensures Inv(Next(s, step, batchSize))
  {
    hide AllGood;
    var s', n := Next(s, step, batchSize), |s.threads|;
    if step.Spawn? {
      SumsGrow(s.threads);
    } else if step.CallWait? {
      hide Sum, COPIES, IDLE, INSIDE, HELD;
      SumsUpdate(s.threads, 0, Entering);
    }
  }

  /** The invariant is kept by every step of every thread. */
  lemma StepKeepsInv(s: System, step: Step, batchSize: nat)
    requires Inv(s) && Enabled(s, step)
    ensures step.Begin? || step.Finish? || step.Resume? ==> Entry(s, step).nTotal + Entry(s, step).nIdle >= 0
    ensures Inv(Next(s, step, batchSize))
  {
    hide Inv, MidOk, Decide, Entry;
    if step.Begin? || step.Finish? || step.Resume? {
      LockStep(s, step, batchSize);
      DecideKeepsInv(ThroughLoop(s, step), step.i, batchSize);
    } else if step.Add? {
      AddKeepsInv(s, step.jobs, step.woken, batchSize);
    } else if step.Exec? {
      ExecKeepsInv(s, step.i, batchSize);
    } else {
      OtherKeepsInv(s, step, batchSize);
    }
  }

  // ----- runs -----

  /** `s'` is reached from `s` by a schedule. */
  ghost predicate Reaches(s: System, schedule: seq<Step>, s': System, batchSize: nat)
    decreases |schedule|
  {
    if schedule == [] then s' == s
    else
      var step := schedule[0];
      && Enabled(s, step)
      && (step.Begin? || step.Finish? || step.Resume? ==> Entry(s, step).nTotal + Entry(s, step).nIdle >= 0)
      && Reaches(Next(s, step, batchSize), schedule[1..], s', batchSize)
  }

  lemma {:induction false} RunKeepsInv(s: System, schedule: seq<Step>, s': System, batchSize: nat)
    requires Inv(s) && Reaches(s, schedule, s', batchSize)
    ensures Inv(s')
    decreases |schedule|
  {
    hide Inv, Enabled, Next, Entry;
    if schedule != [] {
      StepKeepsInv(s, schedule[0], batchSize);
      RunKeepsInv(Next(s, schedule[0], batchSize), schedule[1..], s', batchSize);
    }
  }

  lemma StartInv()
    ensures Inv(START)
  {
    forall job
      ensures multiset(START.added)[job] == Copies(START, job)
    {
      NoCopies(START.threads, 1, job);
    }
  }

  /** Every Wait returns the conjunction of all checks added since the previous one, after
      each of them has been accounted for exactly once: on every schedule of every number of
      threads. */
  lemma WaitReturnsConjunction(schedule: seq<Step>, s: System, step: Step, batchSize: nat)
    requires Reaches(START, schedule, s, batchSize)
    requires Enabled(s, step) && (step.Begin? || step.Finish? || step.Resume?)
    ensures Entry(s, step).nTotal + Entry(s, step).nIdle >= 0
    ensures var o := OutcomeOf(s, step, batchSize);
            o.Return? ==> step.i == 0 && o.result == AllGood(s.added) && ThroughLoop(s, step).done == multiset(s.added)
  {
    hide Inv, MidOk, Decide, Leave, Reaches, AllGood;
    StartInv();
    RunKeepsInv(START, schedule, s, batchSize);
    LockStep(s, step, batchSize);
    DecideKeepsInv(ThroughLoop(s, step), step.i, batchSize);
  }

  lemma QueuedIsAdded(s: System, job: Job)
    requires JobsOk(s) && job in s.q.queue && s.done[job] >= 0
    ensures job in s.added
  {
    hide Sum, COPIES;
    CopiesNotNegative(s.threads, job);
    SumAtLeast(s.threads, COPIES(job), 0, |s.threads|);
    assert job in multiset(s.q.queue) && multiset(s.added)[job] == Copies(s, job);
  }

  /** A new controller always finds the queue idle. */
  lemma NextControllerFindsIdle(schedule: seq<Step>, s: System, batchSize: nat)
    requires Reaches(START, schedule, s, batchSize) && Enabled(s, OpenControl)
    ensures s.q.nTotal == s.q.nIdle && s.q.nTodo == 0 && s.q.allOk && s.q.queue == []
  {
    hide Reaches, Sum, IDLE, INSIDE, HELD, COPIES;
    StartInv();
    RunKeepsInv(START, schedule, s, batchSize);
    var n := |s.threads|;
    if s.q.queue != [] {
      QueuedIsAdded(s, s.q.queue[0]);
      assert false;
    }
    forall i | 0 <= i < n
      ensures !s.threads[i].Working?
    {
      if s.threads[i].Working? {
        assert ThreadOk(s.threads[i], s.added);
        HeldIsAdded(s, i, s.threads[i].batch[0]);
        assert false;
      }
    }
    AllInsideAreIdle(s.threads, n);
  }

  lemma CopiesNotNegative(threads: seq<Thread>, job: Job)
    ensures forall i | 0 <= i < |threads| :: COPIES(job)(threads[i]) >= 0
  {
  }

  lemma {:induction false} AllInsideAreIdle(threads: seq<Thread>, k: nat)
    requires k <= |threads| && forall i | 0 <= i < k :: !threads[i].Working?
    ensures Sum(threads, IDLE(), k) == Sum(threads, INSIDE(), k) && Sum(threads, HELD(), k) == 0
  {
    if k > 0 {
      AllInsideAreIdle(threads, k - 1);
    }
  }

  // ----- no deadlock, and an end -----

  /** A step a thread can take on its own, without a spurious wake-up. */
  predicate Productive(s: System, step: Step) {
    && Enabled(s, step)
    && (step.Begin? || step.Exec? || step.Finish? || (step.Resume? && s.threads[step.i].woken))
  }

  /** While the master is in Wait, some thread can always go on. */
  lemma NoDeadlock(s: System) returns (step: Step)
    requires Inv(s) && !s.threads[0].Away?
    ensures Productive(s, step)
  {
    hide Sum, IDLE, INSIDE, HELD, COPIES, AllGood;
    var t := s.threads[0];
    if t.Entering? {
      step := Begin(0);
    } else if t.Waiting? && t.woken {
      step := Resume(0);
    } else if t.Working? {
      assert ThreadOk(t, s.added);
      step := if t.pos < |t.batch| then Exec(0) else Finish(0);
    } else {
      var i := SomeoneWorks(s.threads, |s.threads|);
      assert ThreadOk(s.threads[i], s.added);
      step := if s.threads[i].pos < |s.threads[i].batch| then Exec(i) else Finish(i);
    }
  }

  lemma {:induction false} SomeoneWorks(threads: seq<Thread>, k: nat) returns (i: nat)
    requires k <= |threads| && Sum(threads, HELD(), k) > 0
    ensures i < k && threads[i].Working?
  {
    if threads[k - 1].Working? {
      i := k - 1;
    } else {
      i := SomeoneWorks(threads, k - 1);
    }
  }

  function LoadOf(t: Thread): int {
    match t
    case Away => 0
    case Entering => 1
    case Waiting(woken) => if woken then 1 else 0
    case Working(batch, pos, _) => |batch| - pos + 3
  }

  function LOAD(): Thread -> int { (t: Thread) => LoadOf(t) }

  /** What is left to do. */
  function Work(s: System): int { 5 * |s.q.queue| + Sum(s.threads, LOAD(), |s.threads|) }

  lemma WorkAfter(s: System, i: nat, t: Thread, q: Shared)
    requires i < |s.threads|
    ensures Work(s.(q := q, threads := s.threads[i := t]))
              == Work(s) - 5 * |s.q.queue| + 5 * |q.queue| + LoadOf(t) - LoadOf(s.threads[i])
  {
    SumUpdate(s.threads, LOAD(), i, t, |s.threads|);
  }

  lemma WorkNotNegative(s: System)
    requires Inv(s)
    ensures Work(s) >= 0
  {
    hide Sum;
    forall i | 0 <= i < |s.threads|
      ensures LOAD()(s.threads[i]) >= 0
    {
      assert ThreadOk(s.threads[i], s.added);
    }
    SumAtLeast(s.threads, LOAD(), 0, |s.threads|);
  }

  lemma DecideLessens(s: Shared, master: bool, batchSize: nat)
    requires s.nTotal + s.nIdle >= 0
    ensures var (q, o) := Decide(s, master, batchSize);
            5 * |q.queue| + LoadOf(Land(o)) <= 5 * |s.queue| && (o.Take? ==> 5 * |q.queue| + LoadOf(Land(o)) < 5 * |s.queue|)
  {
  }

  lemma LockLessens(s: System, step: Step, batchSize: nat)
    requires Inv(s) && Productive(s, step) && !step.Exec?
    requires Entry(s, step).nTotal + Entry(s, step).nIdle >= 0
    ensures Work(Next(s, step, batchSize)) < Work(s)
  {
    hide Inv, Sum, LOAD, Decide;
    var i := step.i;
    var (q, o) := Decide(Entry(s, step), i == 0, batchSize);
    DecideLessens(Entry(s, step), i == 0, batchSize);
    if step.Finish? {
      var a := Accounted(s, i);
      SumUpdate(s.threads, LOAD(), 0, Wake(s.threads[0]), |s.threads|);
      SumUpdate(a.threads, LOAD(), i, Land(o), |s.threads|);
      LoadIs(s.threads[0]);
      LoadIs(Wake(s.threads[0]));
    } else {
      SumUpdate(s.threads, LOAD(), i, Land(o), |s.threads|);
    }
    LoadIs(s.threads[i]);
    LoadIs(Land(o));
  }

  lemma LoadIs(t: Thread)
    ensures LOAD()(t) == LoadOf(t)
  {
  }

  /** Going on always leaves less to do. */
  lemma ProductiveStepsEnd(s: System, step: Step, batchSize: nat)
    requires Inv(s) && Productive(s, step)
    ensures step.Begin? || step.Finish? || step.Resume? ==> Entry(s, step).nTotal + Entry(s, step).nIdle >= 0
    ensures Inv(Next(s, step, batchSize))
    ensures 0 <= Work(Next(s, step, batchSize)) < Work(s)
  {
    hide Inv, Sum, LOAD, Entry;
    StepKeepsInv(s, step, batchSize);
    WorkNotNegative(Next(s, step, batchSize));
    if step.Exec? {
      var t := s.threads[step.i];
      var t' := Working(t.batch, t.pos + 1, t.ok && t.batch[t.pos].good);
      SumUpdate(s.threads, LOAD(), step.i, t', |s.threads|);
      LoadIs(t);
      LoadIs(t');
    } else {
      LockLessens(s, step, batchSize);
    }
  }

  /** Every step of the schedule is productive. */
  ghost predicate AllProductive(s: System, schedule: seq<Step>, batchSize: nat)
    decreases |schedule|
  {
    schedule == [] ||
    var step := schedule[0];
    && Productive(s, step)
    && (step.Begin? || step.Finish? || step.Resume? ==> Entry(s, step).nTotal + Entry(s, step).nIdle >= 0)
    && AllProductive(Next(s, step, batchSize), schedule[1..], batchSize)
  }

  /** Wait comes to an end: however the threads are scheduled, after at most `Work(s)`
      productive steps none is left, and the master has returned. */
  lemma {:induction false} WaitEnds(s: System, schedule: seq<Step>, s': System, batchSize: nat)
    requires Inv(s) && AllProductive(s, schedule, batchSize) && Reaches(s, schedule, s', batchSize)
    ensures |schedule| <= Work(s)
    ensures Inv(s') && |s'.threads| > 0
    ensures (forall step :: !Productive(s', step)) ==> s'.threads[0].Away?
    decreases |schedule|
  {
    hide Inv, Next, Work, Entry, Productive;
    WorkNotNegative(s);
    if schedule == [] {
      MasterExists(s);
      if !s.threads[0].Away? {
        var step := NoDeadlock(s);
      }
    } else {
      ProductiveStepsEnd(s, schedule[0], batchSize);
      WaitEnds(Next(s, schedule[0], batchSize), schedule[1..], s', batchSize);
    }
  }

  lemma MasterExists(s: System)
    requires Inv(s)
    ensures |s.threads| > 0
  {
  }
}
