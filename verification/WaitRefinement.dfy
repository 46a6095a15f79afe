/**
 The wait queues of kernel/thread.c and the waiters of mutexes, semaphores and events: what the
 scheduler does to one wait queue is what Waiters.dfy says.
 */
module WaitRefinement {
  import opened Clock
  import opened Common
  import opened Scheduler
  import opened Scheduling
  import opened Waiters
  import opened Waiting

  /** q describes wait queue w: the same threads in the same order; and those that have left it and have
      not yet returned from their wait will find the result that q has for them. */
  ghost predicate Matches(s: State, w: Qid, q: Waiters) {
    && w in s.waits && SameThreads(s.waits[w].list, q.queue)
    && (forall t :: t in q.granted ==> Released(s, t, NO_ERROR))
    && (forall t :: t in q.timedOut ==> Released(s, t, ERR_TIMED_OUT))
  }

  ghost predicate SameThreads(list: seq<Tid>, queue: seq<Ticket>) {
    |list| == |queue| && forall i :: 0 <= i < |list| ==> list[i] == queue[i].thread
  }

  /** A step of the scheduler, with the timeout that a thread that blocks has passed; or the return of a
      thread from wait_queue_block, which is no critical section. */
  datatype Step = Section(op: Op, timeout: Time32) | Returns(t: Tid)

  /** Wakes are with NO_ERROR; and a thread does not block before it has returned from its last wait. */
  ghost predicate Proper(s: State, w: Qid, q: Waiters, step: Step)
    requires s.Inv()
  {
    step.Section? ==>
      && Enabled(s, step.op)
      && (step.op.WakeOne? || step.op.WakeAll? ==> step.op.w == w ==> step.op.code == NO_ERROR)
      && forall t :: t in q.granted || t in q.timedOut ==> !Blocks(s, step.op, t)
  }

  ghost function SchedulerAfter(s: State, step: Step): (r: State)
    requires s.Inv() && (step.Section? ==> Enabled(s, step.op))
    ensures r.Inv()
  {
    if step.Section? then After(s, step.op) else s
  }

  /** The step as wait queue w sees it. */
  ghost function QueueAfter(s: State, w: Qid, q: Waiters, step: Step): (r: Waiters)
    requires s.Inv() && q.Valid() && Matches(s, w, q) && Proper(s, w, q, step)
    ensures r.Valid()
  {
    match step
    case Returns(t) => q.Return(t)
    case Section(op, timeout) =>
      match op
      case Block(cpu, x) =>
        if x == w then
          NotInside(s, w, q, cpu);
          q.Join(s.current[cpu], timeout)
        else q
      case WakeOne(_, x, _, _) => if x == w then q.WakeOne() else q
      case WakeAll(_, x, _, _) => if x == w then q.WakeAll() else q
      case Timeout(t) => q.Timeout(t)
      case _ => q
  }

  lemma NotInside(s: State, w: Qid, q: Waiters, cpu: Cpu)
    requires s.Inv() && q.Valid() && Matches(s, w, q) && Enabled(s, Block(cpu, w))
    requires forall t :: t in q.granted || t in q.timedOut ==> !Blocks(s, Block(cpu, w), t)
    ensures !q.Inside(s.current[cpu])
  {
    CurrentRuns(s, cpu);
    Placement(s, s.current[cpu]);
    forall i | 0 <= i < |q.queue|
      ensures q.queue[i].thread != s.current[cpu]
    {
      assert s.waits[w].list[i] in s.waits[w].list;
    }
  }

  lemma {:induction false} SamePlace(list: seq<Tid>, queue: seq<Ticket>, t: Tid)
    requires SameThreads(list, queue) && t in list
    ensures (exists i :: 0 <= i < |queue| && queue[i].thread == t) && IndexOf(list, t) == Place(queue, t)
    decreases |list|
  {
    assert queue[IndexOf(list, t)].thread == t;
    if list[0] != t {
      assert list[1..][IndexOf(list, t) - 1] == t;
      SamePlace(list[1..], queue[1..], t);
    }
  }

  lemma Listed(list: seq<Tid>, q: Waiters, t: Tid)
    requires SameThreads(list, q.queue)
    ensures q.Waits(t) <==> t in list
  {
    if t in list {
      SamePlace(list, q.queue, t);
    }
  }

  lemma SameWithout(list: seq<Tid>, queue: seq<Ticket>, i: nat)
    requires SameThreads(list, queue) && i < |list|
    ensures SameThreads(Without(list, i), Without(queue, i))
  {
  }

  lemma {:induction false} TimedOutQueue(list: seq<Tid>, q: Waiters, t: Tid)
    requires q.Valid() && SameThreads(list, q.queue)
    ensures SameThreads(if t in list then Without(list, IndexOf(list, t)) else list, q.Timeout(t).queue)
  {
    Listed(list, q, t);
    if t in list {
      SamePlace(list, q.queue, t);
      SameWithout(list, q.queue, IndexOf(list, t));
      assert q.Timeout(t).queue == Without(q.queue, IndexOf(list, t));
    }
  }

  /** The queue itself. */
  lemma SameQueue(s: State, w: Qid, q: Waiters, op: Op, timeout: Time32)
    requires s.Inv() && q.Valid() && Matches(s, w, q) && Proper(s, w, q, Section(op, timeout))
    ensures SameThreads(ListAfter(s, op, w), QueueAfter(s, w, q, Section(op, timeout)).queue)
  {
    if op.Timeout? {
      TimedOutQueue(s.waits[w].list, q, op.t);
    }
  }

  /** Who has left it before, stays as he is. */
  lemma StillReleased(s: State, w: Qid, q: Waiters, op: Op, timeout: Time32, t: Tid, v: Code)
    requires s.Inv() && q.Valid() && Matches(s, w, q) && Proper(s, w, q, Section(op, timeout))
    requires (t in q.granted && v == NO_ERROR) || (t in q.timedOut && v == ERR_TIMED_OUT)
    ensures Released(After(s, op), t, v)
  {
    assert Released(s, t, v);
    WaitStep(s, op, t);
  }

  /** Who leaves it now, leaves it with the code of the step. */
  lemma NowReleased(s: State, w: Qid, op: Op, t: Tid)
    requires s.Inv() && Enabled(s, op) && w in s.waits && t in s.waits[w].list && Ends(s, op, t).Some?
    ensures Released(After(s, op), t, Ends(s, op, t).value)
  {
    Queued(s, w, t);
    WaitStep(s, op, t);
  }

  lemma SectionMatches(s: State, w: Qid, q: Waiters, op: Op, timeout: Time32)
    requires s.Inv() && q.Valid() && Matches(s, w, q) && Proper(s, w, q, Section(op, timeout))
    ensures Matches(After(s, op), w, QueueAfter(s, w, q, Section(op, timeout)))
  {
    var s', q' := After(s, op), QueueAfter(s, w, q, Section(op, timeout));
    ListStep(s, op, w);
    SameQueue(s, w, q, op, timeout);
    var list := s.waits[w].list;
    forall t | t in q'.granted
      ensures Released(s', t, NO_ERROR)
    {
      if t in q.granted {
        StillReleased(s, w, q, op, timeout, t, NO_ERROR);
      } else {
        assert t in list;
        NowReleased(s, w, op, t);
      }
    }
    forall t | t in q'.timedOut
      ensures Released(s', t, ERR_TIMED_OUT)
    {
      if t in q.timedOut {
        StillReleased(s, w, q, op, timeout, t, ERR_TIMED_OUT);
      } else {
        Listed(list, q, t);
        NowReleased(s, w, op, t);
      }
    }
  }

  /** A thread that returns finds the result that the queue has for it. */
  lemma ReturnMatches(s: State, w: Qid, q: Waiters, t: Tid)
    requires s.Inv() && q.Valid() && Matches(s, w, q)
    ensures Matches(s, w, q.Return(t))
    ensures t in q.granted ==> t in s.threads && s.threads[t].blockRet == NO_ERROR
    ensures t in q.timedOut ==> t in s.threads && s.threads[t].blockRet == ERR_TIMED_OUT
  {
  }

  // ---- whole runs -------------------------------------------------------------------------------------

  ghost predicate CanStep(s: State, w: Qid, q: Waiters, steps: seq<Step>)
    requires s.Inv() && q.Valid() && Matches(s, w, q)
    decreases |steps|
  {
    steps != [] ==>
      && Proper(s, w, q, steps[0])
      && (StepMatches(s, w, q, steps[0]);
          CanStep(SchedulerAfter(s, steps[0]), w, QueueAfter(s, w, q, steps[0]), steps[1..]))
  }

  lemma StepMatches(s: State, w: Qid, q: Waiters, step: Step)
    requires s.Inv() && q.Valid() && Matches(s, w, q) && Proper(s, w, q, step)
    ensures Matches(SchedulerAfter(s, step), w, QueueAfter(s, w, q, step))
  {
    match step
    case Section(op, timeout) => SectionMatches(s, w, q, op, timeout);
    case Returns(t) => ReturnMatches(s, w, q, t);
  }

  /** The run of the scheduler. */
  function Sections(steps: seq<Step>): seq<Op> {
    if steps == [] then [] else (if steps[0].Section? then [steps[0].op] else []) + Sections(steps[1..])
  }

  ghost function QueueRun(s: State, w: Qid, q: Waiters, steps: seq<Step>): (r: Waiters)
    requires s.Inv() && q.Valid() && Matches(s, w, q) && CanStep(s, w, q, steps)
    ensures r.Valid()
    decreases |steps|
  {
    if steps == [] then q
    else
      StepMatches(s, w, q, steps[0]);
      QueueRun(SchedulerAfter(s, steps[0]), w, QueueAfter(s, w, q, steps[0]), steps[1..])
  }

  /** Whatever the threads do, with other wait queues as well: through any run of the scheduler, one of its
      wait queues goes through a run of joins, wakes, timeouts and returns, and describes it throughout. */
  lemma {:induction false} Refines(s: State, w: Qid, q: Waiters, steps: seq<Step>)
    requires s.Inv() && q.Valid() && Matches(s, w, q) && CanStep(s, w, q, steps)
    ensures CanRun(s, Sections(steps)) && Matches(Run(s, Sections(steps)), w, QueueRun(s, w, q, steps))
    decreases |steps|
  {
    if steps != [] {
      StepMatches(s, w, q, steps[0]);
      Refines(SchedulerAfter(s, steps[0]), w, QueueAfter(s, w, q, steps[0]), steps[1..]);
      var rest := Sections(steps[1..]);
      assert if steps[0].Section? then Sections(steps)[0] == steps[0].op && Sections(steps)[1..] == rest else Sections(steps) == rest;
    }
  }

  /** Every run begins so. */
  lemma AtBoot(cpus: nat, queues: set<Qid>, w: Qid)
    requires w in queues
    ensures Matches(Booted(cpus, queues), w, Waiters([], {}, {}, 0, []))
  {
  }
}
