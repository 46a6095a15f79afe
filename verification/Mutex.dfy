/**
 kernel/mutex.c: a mutex that is handed over to the thread that has waited longest, with timeouts.
 */
module Mutex {
  import opened Clock
  import opened Common
  import opened Waiters

  datatype State = State(count: int, holder: Option<Tid>, wait: Waiters) {

    /** The mutex belongs to its holder, or to the thread that it was handed to and that has not yet
        run to become the holder. */
    function Owners(): set<Tid> {
      (if holder.Some? then {holder.value} else {}) + wait.granted
    }

    /** At most one thread owns the mutex, and the count is made up of the owner, the threads in the
        queue, and those that timed out and have not yet run to take themselves off the count. */
    ghost predicate Valid() {
      && wait.Valid()
      && |Owners()| <= 1
      && (holder.Some? ==> wait.granted == {} && !wait.Inside(holder.value))
      && count == |Owners()| + |wait.queue| + |wait.timedOut|
    }

    /** Nobody owns the mutex, nobody waits for it, and nobody who timed out has yet to say so. */
    predicate Free() {
      Owners() == {} && wait.queue == [] && wait.timedOut == {}
    }

    /** Threads wait although nobody owns the mutex and so nobody will release it. */
    predicate Stranded() {
      Owners() == {} && wait.queue != []
    }
  }

  /** t calls mutex_acquire_timeout; runs again inside it; calls mutex_release; its timeout fires. */
  datatype Op = Acquire(t: Tid, timeout: Time32) | Resume(t: Tid) | Release(t: Tid) | Timeout(t: Tid)

  predicate Enabled(s: State, op: Op) {
    match op
    case Acquire(t, _) => !s.wait.Inside(t) && s.holder != Some(t)
    case Resume(t) => t in s.wait.granted || t in s.wait.timedOut
    case Release(t) => s.holder == Some(t)
    case Timeout(t) => s.wait.MayTimeOut(t)
  }

  /** mutex_acquire_timeout: it succeeds, fails at once because the timeout is zero, or blocks. */
  function Acquired(s: State, t: Tid, timeout: Time32): (r: State)
    requires s.Valid() && Enabled(s, Acquire(t, timeout))
    ensures r.Valid()
  {
    if s.count + 1 > 1 then
      if timeout == 0 then s else s.(count := s.count + 1, wait := s.wait.Join(t, timeout))
    else
      s.(count := s.count + 1, holder := Some(t))
  }

  /** The rest of it, when the thread runs again: it becomes the holder, or leaves the count. */
  function Resumed(s: State, t: Tid): (r: State)
    requires s.Valid() && Enabled(s, Resume(t))
    ensures r.Valid()
  {
    if t in s.wait.timedOut then
      assert s.wait.Return(t).granted == s.wait.granted;
      s.(count := s.count - 1, wait := s.wait.Return(t))
    else
      SoleOwner(s, t);
      assert s.wait.Return(t).timedOut == s.wait.timedOut;
      s.(holder := Some(t), wait := s.wait.Return(t))
  }

  lemma SoleOwner(s: State, t: Tid)
    requires s.Valid() && t in s.wait.granted
    ensures s.wait.granted == {t} == s.Owners() && s.holder.None? && !s.wait.Waits(t)
  {
    assert s.Owners() == s.wait.granted;
    Singleton(s.wait.granted, t);
    forall i: nat | i < |s.wait.queue|
      ensures s.wait.queue[i].thread != t
    {
      assert s.wait.Queued(i);
    }
  }

  lemma Singleton<T>(s: set<T>, x: T)
    requires x in s && |s| <= 1
    ensures s == {x}
  {
    var rest := s - {x};
    assert |rest| == |s| - 1;
  }

  lemma ResumedHolder(s: State, t: Tid)
    requires s.Valid() && Enabled(s, Resume(t))
    ensures Resumed(s, t).holder == Some(t) <==> t !in s.wait.timedOut
  {
    assert s.holder != Some(t);
  }

  /** mutex_release: the mutex goes to the first in the queue, if any. */
  function Released(s: State, t: Tid): (r: State)
    requires s.Valid() && Enabled(s, Release(t))
    ensures r.Valid()
  {
    assert s.Owners() == {t};
    var r := s.(count := s.count - 1, holder := None);
    if r.count >= 1 then
      assert s.wait.queue != [] ==> s.wait.WakeOne().granted == {s.wait.queue[0].thread};
      r.(wait := s.wait.WakeOne())
    else r
  }

  function TimedOut(s: State, t: Tid): (r: State)
    requires s.Valid()
    ensures r.Valid()
  {
    s.(wait := s.wait.Timeout(t))
  }

  function After(s: State, op: Op): (r: State)
    requires s.Valid() && Enabled(s, op)
    ensures r.Valid()
  {
    match op
    case Acquire(t, timeout) => Acquired(s, t, timeout)
    case Resume(t) => Resumed(s, t)
    case Release(t) => Released(s, t)
    case Timeout(t) => TimedOut(s, t)
  }

  const INITIAL := State(0, None, Waiters([], {}, {}, 0, []))

  ghost predicate CanRun(s: State, ops: seq<Op>)
    requires s.Valid()
    decreases |ops|
  {
    ops != [] ==> Enabled(s, ops[0]) && CanRun(After(s, ops[0]), ops[1..])
  }

  ghost function Run(s: State, ops: seq<Op>): (r: State)
    requires s.Valid() && CanRun(s, ops)
    ensures r.Valid()
    decreases |ops|
  {
    if ops == [] then s else Run(After(s, ops[0]), ops[1..])
  }

  // ---- properties of all runs ---------------------------------------------------------------------

  /** Mutual exclusion in every run, through hand-overs: any two owners are the same thread. */
  lemma MutualExclusion(ops: seq<Op>, a: Tid, b: Tid)
    requires INITIAL.Valid() && CanRun(INITIAL, ops)
    requires a in Run(INITIAL, ops).Owners() && b in Run(INITIAL, ops).Owners()
    ensures a == b
  {
    Singleton(Run(INITIAL, ops).Owners(), a);
  }

  /** Threads that had to wait are granted the mutex in the order in which they began to wait, and
      before all that still wait. */
  lemma ArrivalOrder(ops: seq<Op>, i: nat, j: nat)
    requires INITIAL.Valid() && CanRun(INITIAL, ops)
    ensures var w := Run(INITIAL, ops).wait;
      && (i < j < |w.grants| ==> w.grants[i] < w.grants[j])
      && (i < |w.grants| && j < |w.queue| ==> w.grants[i] < w.queue[j].number)
      && (i < j < |w.queue| ==> w.queue[i].number < w.queue[j].number)
  {
    Run(INITIAL, ops).wait.Order(i, j);
  }

  // ---- single calls -------------------------------------------------------------------------------

  /** Whatever its timeout, a call acquires the mutex if and only if it is free; else it fails and changes
      nothing if the timeout is zero, and blocks behind all others if not. */
  lemma AcquiresIff(s: State, t: Tid, timeout: Time32)
    requires s.Valid() && Enabled(s, Acquire(t, timeout))
    ensures var r := After(s, Acquire(t, timeout));
      if s.Free() then r.holder == Some(t) && r.Owners() == {t} && r.wait == s.wait
      else if timeout == 0 then r == s
      else
        && r.holder == s.holder && r.Owners() == s.Owners() && r.wait.timedOut == s.wait.timedOut
        && r.wait.queue == s.wait.queue + [Ticket(t, s.wait.next, timeout)]
  {
  }

  /** Releasing hands the mutex to the thread that has waited longest, or leaves it without an owner. */
  lemma HandsOver(s: State, t: Tid)
    requires s.Valid() && Enabled(s, Release(t))
    ensures var r, q := After(s, Release(t)), s.wait.queue;
      && r.Owners() == (if q == [] then {} else {q[0].thread}) && r.wait.queue == (if q == [] then [] else q[1..])
      && r.wait.timedOut == s.wait.timedOut
  {
    assert s.Owners() == {t};
  }

  /** A thread that runs again, after it was granted the mutex or timed out, holds it or has left. */
  lemma Finishes(s: State, t: Tid)
    requires s.Valid() && Enabled(s, Resume(t))
    ensures var r := After(s, Resume(t));
      && r.Owners() == s.Owners() && r.wait.queue == s.wait.queue && !r.wait.Inside(t)
      && (r.holder == Some(t) <==> t in s.wait.granted)
      && r.wait.timedOut == s.wait.timedOut - {t}
  {
    s.wait.HasLeft(t);
    if t in s.wait.granted {
      SoleOwner(s, t);
    }
  }

  // ---- stranded waiters ---------------------------------------------------------------------------

  /** Waiters get stranded in exactly one way: a thread that is willing to wait arrives while the mutex
      is free and a thread that timed out has not yet run. */
  lemma StrandsIff(s: State, op: Op)
    requires s.Valid() && Enabled(s, op) && !s.Stranded()
    ensures After(s, op).Stranded() <==>
      op.Acquire? && op.timeout != 0 && s.Owners() == {} && s.wait.timedOut != {}
  {
    if op.Release? {
      assert s.Owners() == {op.t};
    }
    if op.Resume? && op.t in s.wait.timedOut {
      assert s.wait.Return(op.t).granted == s.wait.granted;
    }
  }

  /** Once that has happened, nothing that anybody does ever frees a waiter: nobody can acquire the mutex,
      not even a thread that arrives later, and each waiter stays until its own timeout fires, which for
      one without a limit is forever. */
  lemma {:induction false} StrandedForever(s: State, ops: seq<Op>, k: Ticket)
    requires s.Valid() && CanRun(s, ops) && s.Stranded() && k in s.wait.queue
    requires k.timeout == INFINITE_TIME || Op.Timeout(k.thread) !in ops
    ensures Run(s, ops).Stranded() && k in Run(s, ops).wait.queue
    decreases |ops|
  {
    if ops != [] {
      assert ops[0] in ops;
      StrandedStep(s, ops[0], k);
      StrandedForever(After(s, ops[0]), ops[1..], k);
    }
  }

  lemma StrandedStep(s: State, op: Op, k: Ticket)
    requires s.Valid() && Enabled(s, op) && s.Stranded() && k in s.wait.queue
    requires k.timeout == INFINITE_TIME || op != Op.Timeout(k.thread)
    ensures After(s, op).Stranded() && k in After(s, op).wait.queue
  {
    assert s.wait.granted == {};
    if op.Timeout? {
      s.wait.TimeoutLeaves(op.t, k);
    }
  }

  /** Five calls and a timeout lead there, and no continuation of the run leads out: thread 3 waits without
      a limit for a mutex that nobody owns, and never gets it. */
  lemma StrandedRun(more: seq<Op>)
    ensures var ops := [Acquire(1, INFINITE_TIME), Acquire(2, 5), Timeout(2), Release(1), Acquire(3, INFINITE_TIME)];
      INITIAL.Valid() && CanRun(INITIAL, ops) &&
      var s, k := Run(INITIAL, ops), Ticket(3, 1, INFINITE_TIME);
      && s.Stranded() && k in s.wait.queue
      && (CanRun(s, more) ==> Run(s, more).Stranded() && k in Run(s, more).wait.queue)
  {
    var ops := [Acquire(1, INFINITE_TIME), Acquire(2, 5), Timeout(2), Release(1), Acquire(3, INFINITE_TIME)];
    var s1, s2 := After(INITIAL, ops[0]), State(2, Some(1), Waiters([Ticket(2, 0, 5)], {}, {}, 1, []));
    assert After(s1, ops[1]) == s2;
    FirstTimesOut();
    RunStep(INITIAL, ops);
    RunStep(s1, ops[1..]);
    assert ops[1..][1..] == [Timeout(2), Release(1), Acquire(3, INFINITE_TIME)];
    var s, k := Run(INITIAL, ops), Ticket(3, 1, INFINITE_TIME);
    if CanRun(s, more) {
      StrandedForever(s, more, k);
    }
  }

  lemma FirstTimesOut()
    ensures var s := State(2, Some(1), Waiters([Ticket(2, 0, 5)], {}, {}, 1, []));
      var ops := [Timeout(2), Release(1), Acquire(3, INFINITE_TIME)];
      s.Valid() && CanRun(s, ops) && Run(s, ops).Stranded() && Run(s, ops).wait.queue == [Ticket(3, 1, INFINITE_TIME)]
  {
    var s := State(2, Some(1), Waiters([Ticket(2, 0, 5)], {}, {}, 1, []));
    var s1 := State(2, Some(1), Waiters([], {}, {2}, 1, []));
    var ops := [Timeout(2), Release(1), Acquire(3, INFINITE_TIME)];
    assert s.wait.queue[0].thread == 2;
    assert After(s, ops[0]) == s1;
    NewcomerBlocks();
    RunStep(s, ops);
    assert ops[1..] == [Release(1), Acquire(3, INFINITE_TIME)];
  }

  lemma NewcomerBlocks()
    ensures var s := State(2, Some(1), Waiters([], {}, {2}, 1, []));
      var ops := [Release(1), Acquire(3, INFINITE_TIME)];
      s.Valid() && CanRun(s, ops) && Run(s, ops).Stranded() && Run(s, ops).wait.queue == [Ticket(3, 1, INFINITE_TIME)]
  {
    var s := State(2, Some(1), Waiters([], {}, {2}, 1, []));
    var s1 := State(1, None, Waiters([], {}, {2}, 1, []));
    var ops := [Release(1), Acquire(3, INFINITE_TIME)];
    assert After(s, ops[0]) == s1;
    RunStep(s, ops);
    RunStep(s1, ops[1..]);
  }

  lemma RunStep(s: State, ops: seq<Op>)
    requires s.Valid() && ops != [] && Enabled(s, ops[0])
    ensures CanRun(After(s, ops[0]), ops[1..]) ==> CanRun(s, ops) && Run(s, ops) == Run(After(s, ops[0]), ops[1..])
  {
  }

  /** Every thread either does not wait or waits without a limit. */
  predicate NoLimits(ops: seq<Op>) {
    forall op :: op in ops && op.Acquire? ==> op.timeout == 0 || op.timeout == INFINITE_TIME
  }

  /** As long as nobody passes a timeout other than zero and no limit, nobody is ever stranded. */
  lemma {:induction false} NoLimitsNoStranding(s: State, ops: seq<Op>)
    requires s.Valid() && CanRun(s, ops) && NoLimits(ops)
    requires !s.Stranded() && s.wait.timedOut == {} && s.wait.Unlimited()
    ensures !Run(s, ops).Stranded() && Run(s, ops).wait.timedOut == {} && Run(s, ops).wait.Unlimited()
    decreases |ops|
  {
    if ops != [] {
      assert ops[0] in ops;
      NoLimitsStep(s, ops[0]);
      NoLimitsNoStranding(After(s, ops[0]), ops[1..]);
    }
  }

  lemma NoLimitsStep(s: State, op: Op)
    requires s.Valid() && Enabled(s, op) && NoLimits([op])
    requires !s.Stranded() && s.wait.timedOut == {} && s.wait.Unlimited()
    ensures !After(s, op).Stranded() && After(s, op).wait.timedOut == {} && After(s, op).wait.Unlimited()
  {
    assert op in [op];
    StrandsIff(s, op);
    s.wait.StaysUnlimited();
  }

  // ---- the code -----------------------------------------------------------------------------------

  class Mutex {
    var count: int
    var holder: Option<Tid>
    var wait: Waiters

    ghost function Now(): State
      reads this
    {
      State(count, holder, wait)
    }

    /** mutex_init. */
    constructor ()
      ensures Now() == INITIAL && Now().Valid()
    {
      count, holder, wait := 0, None, Waiters([], {}, {}, 0, []);
    }

    /** mutex_acquire_timeout, up to the point where it may block. */
    method AcquireTimeout(t: Tid, timeout: Time32) returns (r: Option<Code>)
      requires Now().Valid() && Enabled(Now(), Acquire(t, timeout))
      modifies this
      ensures Now() == Acquired(old(Now()), t, timeout)
      ensures r == if old(Now()).Free() then Some(NO_ERROR) else if timeout == 0 then Some(ERR_TIMED_OUT) else None
      ensures r == Some(NO_ERROR) <==> Now().holder == Some(t)
      ensures r == None <==> Now().wait.Waits(t)
      ensures r == Some(ERR_TIMED_OUT) <==> Now() == old(Now())
    {
      count := count + 1;
      if count > 1 {
        if timeout == 0 {
          count := count - 1;
          return Some(ERR_TIMED_OUT);
        }
        wait := wait.Join(t, timeout);
        assert wait.queue[|wait.queue| - 1].thread == t;
        return None;
      }
      holder := Some(t);
      return Some(NO_ERROR);
    }

    /** The rest of mutex_acquire_timeout, once wait_queue_block has returned. */
    method FinishAcquire(t: Tid) returns (r: Code)
      requires Now().Valid() && Enabled(Now(), Resume(t))
      modifies this
      ensures Now() == Resumed(old(Now()), t)
      ensures r == if t in old(wait).granted then NO_ERROR else ERR_TIMED_OUT
      ensures r == NO_ERROR <==> Now().holder == Some(t)
    {
      ResumedHolder(Now(), t);
      r := if t in wait.timedOut then ERR_TIMED_OUT else NO_ERROR;
      wait := wait.Return(t);
      if r < NO_ERROR {
        if r == ERR_TIMED_OUT {
          count := count - 1;
        }
        return r;
      }
      holder := Some(t);
    }

    method Release(t: Tid)
      requires Now().Valid() && Enabled(Now(), Op.Release(t))
      modifies this
      ensures Now() == Released(old(Now()), t)
    {
      holder := None;
      count := count - 1;
      if count >= 1 {
        wait := wait.WakeOne();
      }
    }
  }
}
