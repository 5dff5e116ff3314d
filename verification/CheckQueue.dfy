/** CCheckQueue (src/checkqueue.h): the queue on which block validation puts its script checks.

    Every access to the shared fields happens under one mutex, so a run is an interleaving of
    whole critical sections. They are given first as functions of the shared fields, then as
    the methods of a class with those fields; module CheckQueueRuns puts any number of
    threads around them. */
module CheckQueue {

  /** A check to be made: running it gives `good`. */
  datatype Job = Job(id: nat, good: bool)

  datatype Shared = Shared(queue: seq<Job>, nIdle: int, nTotal: int, allOk: bool, nTodo: int)

  const NEW_QUEUE := Shared([], 0, 0, true, 0)

  /** Where a critical section of Loop leaves its thread: returning, in cond.wait, or outside
      the lock with a batch to run. */
  datatype Outcome = Return(result: bool) | Sleep | Take(batch: seq<Job>, ok: bool)

  /** The clean-up of the previous round, or the first entry when `nNow` is 0. */
  function CleanUp(s: Shared, nNow: nat, ok: bool): Shared {
    if nNow > 0 then s.(allOk := s.allOk && ok, nTodo := s.nTodo - nNow)
    else s.(nTotal := s.nTotal + 1)
  }

  /** Whether the clean-up tells the master that everything is done. */
  predicate TellsMaster(s: Shared, master: bool, nNow: nat) { nNow > 0 && s.nTodo == nNow && !master }

  /** How many checks to take: at least one, at most the batch size, fewer the more threads
      there are to share with. */
  function BatchOf(s: Shared, batchSize: nat): (n: nat)
    requires s.nTotal + s.nIdle >= 0
    ensures n >= 1
    ensures |s.queue| > 0 ==> n <= |s.queue|
  {
    var share := |s.queue| / (s.nTotal + s.nIdle + 1);
    var capped := if batchSize < share then batchSize else share;
    if capped < 1 then 1 else capped
  }

  function LastFirst(queue: seq<Job>, n: nat): (batch: seq<Job>)
    requires n <= |queue|
    ensures |batch| == n
  {
    seq(n, i requires 0 <= i < n => queue[|queue| - 1 - i])
  }

  /** From the head of `while (queue.empty())` to the next release of the lock. */
  function Decide(s: Shared, master: bool, batchSize: nat): (Shared, Outcome)
    requires s.nTotal + s.nIdle >= 0
  {
    if s.queue == [] then
      if master && s.nTodo == 0
      then (s.(nTotal := s.nTotal - 1, allOk := true), Return(s.allOk))
      else (s.(nIdle := s.nIdle + 1), Sleep)
    else
      var n := BatchOf(s, batchSize);
      (s.(queue := s.queue[..|s.queue| - n]), Take(LastFirst(s.queue, n), s.allOk))
  }

  function Added(s: Shared, jobs: seq<Job>): Shared {
    s.(queue := s.queue + jobs, nTodo := s.nTodo + |jobs|)
  }

  lemma {:induction false} LastFirstIsTail(queue: seq<Job>, n: nat)
    requires n <= |queue|
    ensures multiset(queue) == multiset(queue[..|queue| - n]) + multiset(LastFirst(queue, n))
  {
    if n == 0 {
      assert queue[..|queue|] == queue;
    } else {
      var top := |queue| - n;
      LastFirstIsTail(queue, n - 1);
      assert queue[..top + 1] == queue[..top] + [queue[top]];
      assert LastFirst(queue, n) == LastFirst(queue, n - 1) + [queue[top]];
    }
  }

  /** A share of `size` among `threads` others and oneself. */
  lemma ShareBounds(size: nat, threads: nat, n: nat)
    ensures n <= size / (threads + 1) <==> n * (threads + 1) <= size
  {
    var share := size / (threads + 1);
    assert share * (threads + 1) <= size < share * (threads + 1) + threads + 1;
    if n <= share {
      Stretch(n, share, threads + 1);
    } else {
      Stretch(share + 1, n, threads + 1);
      assert (share + 1) * (threads + 1) == share * (threads + 1) + threads + 1;
    }
  }

  lemma Stretch(a: nat, b: nat, k: nat)
    requires a <= b
    ensures a * k <= b * k
  {
  }

  /** How many checks a thread takes away. Beyond one, it is no more than a batch and leaves as many for
      every other thread, and it is never fewer than that. A batch size of zero counts as one. */
  lemma BatchBounds(s: Shared, batchSize: nat)
    requires s.nTotal >= 0 && s.nIdle >= 0 && s.queue != []
    ensures var n, threads := BatchOf(s, batchSize), s.nTotal + s.nIdle + 1;
            && 1 <= n <= |s.queue|
            && (n > 1 ==> n <= batchSize && n * threads <= |s.queue|)
            && (n < batchSize ==> (n + 1) * threads > |s.queue|)
  {
    var n := BatchOf(s, batchSize);
    ShareBounds(|s.queue|, s.nTotal + s.nIdle, n);
    ShareBounds(|s.queue|, s.nTotal + s.nIdle, n + 1);
  }

  /** The checks taken are those at the end of the queue, the last one first, and the others stay. */
  lemma TakesTheLast(s: Shared, master: bool, batchSize: nat, i: nat)
    requires s.nTotal >= 0 && s.nIdle >= 0 && s.queue != [] && i < BatchOf(s, batchSize)
    ensures var n := BatchOf(s, batchSize);
            && Decide(s, master, batchSize).0 == s.(queue := s.queue[..|s.queue| - n])
            && Decide(s, master, batchSize).1.Take? && Decide(s, master, batchSize).1.ok == s.allOk
            && |Decide(s, master, batchSize).1.batch| == n
            && Decide(s, master, batchSize).1.batch[i] == s.queue[|s.queue| - 1 - i]
  {
    hide BatchOf;
  }

  class CCheckQueue {
    var queue: seq<Job>
    var nIdle: int
    var nTotal: int
    var allOk: bool
    var nTodo: int
    const nBatchSize: nat

    ghost function State(): Shared reads this { Shared(queue, nIdle, nTotal, allOk, nTodo) }

    constructor (nBatchSize: nat)
      ensures State() == NEW_QUEUE && this.nBatchSize == nBatchSize
    {
      queue, nIdle, nTotal, allOk, nTodo := [], 0, 0, true, 0;
      this.nBatchSize := nBatchSize;
    }

    /** The critical section at the start of every round of Loop. */
    method BeginRound(master: bool, nNow: nat, ok: bool) returns (o: Outcome, tellsMaster: bool)
      requires nTotal >= 0 && nIdle >= 0
      modifies this
      ensures (State(), o) == Decide(CleanUp(old(State()), nNow, ok), master, nBatchSize)
      ensures tellsMaster == TellsMaster(old(State()), master, nNow)
    {
      tellsMaster := false;
      if nNow > 0 {
        allOk := allOk && ok;
        nTodo := nTodo - nNow;
        if nTodo == 0 && !master {
          tellsMaster := true;
        }
      } else {
        nTotal := nTotal + 1;
      }
      o := ReturnSleepOrTake(master);
    }

    /** Woken up in cond.wait: the loop condition is looked at again. */
    method Resume(master: bool) returns (o: Outcome)
      requires nTotal >= 0 && nIdle >= 1
      modifies this
      ensures (State(), o) == Decide(old(State()).(nIdle := old(nIdle) - 1), master, nBatchSize)
    {
      nIdle := nIdle - 1;
      o := ReturnSleepOrTake(master);
    }

    method ReturnSleepOrTake(master: bool) returns (o: Outcome)
      requires nTotal >= 0 && nIdle >= 0
      modifies this
      ensures (State(), o) == Decide(old(State()), master, nBatchSize)
    {
      if |queue| == 0 {
        if master && nTodo == 0 {
          nTotal := nTotal - 1;
          var result := allOk;
          allOk := true;
          return Return(result);
        }
        nIdle := nIdle + 1;
        return Sleep;
      }
      var share := |queue| / (nTotal + nIdle + 1);
      var nNow := if nBatchSize < share then nBatchSize else share;
      if nNow < 1 {
        nNow := 1;
      }
      ghost var all := queue;
      assert nNow == BatchOf(old(State()), nBatchSize);
      var batch := [];
      for i := 0 to nNow
        invariant queue == all[..|all| - i]
        invariant batch == LastFirst(all, i)
        invariant State() == old(State()).(queue := queue)
      {
        batch := batch + [queue[|queue| - 1]];
        queue := queue[..|queue| - 1];
      }
      return Take(batch, allOk);
    }

    method Add(jobs: seq<Job>)
      modifies this
      ensures State() == Added(old(State()), jobs)
    {
      for i := 0 to |jobs|
        invariant queue == old(queue) + jobs[..i]
        invariant State() == old(State()).(queue := queue)
      {
        queue := queue + [jobs[i]];
      }
      nTodo := nTodo + |jobs|;
    }

    method IsIdle() returns (idle: bool)
      ensures idle <==> nTotal == nIdle && nTodo == 0 && allOk
    {
      idle := nTotal == nIdle && nTodo == 0 && allOk;
    }
  }
}
