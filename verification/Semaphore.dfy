/**
 kernel/semaphore.c: a counting semaphore with timeouts.
 */
module Semaphore {
  import opened Clock
  import opened Common
  import opened Waiters

  /** `initial`, `posts` and `taken` record history: the initial count, the calls of sem_post, and the
      waits that succeeded at once. Those that were granted after blocking are in wait.grants. */
  datatype State = State(count: int, wait: Waiters, initial: nat, posts: nat, taken: nat) {

    /** All waits that succeeded. */
    function Successes(): nat {
      taken + |wait.grants|
    }

    /** Tokens that are there and promised to nobody. */
    function Spare(): int {
      count + |wait.queue| + |wait.timedOut|
    }

    /** Tokens are conserved: the count is what came in, less what went out, less one for each thread in
        the queue and for each that timed out and has not yet run. It is never overdrawn. */
    ghost predicate Valid() {
      && wait.Valid()
      && count == initial + posts - Successes() - |wait.queue| - |wait.timedOut|
      && Spare() >= 0
    }

    /** Threads wait although a token is there. */
    predicate Stranded() {
      wait.queue != [] && Spare() > 0
    }
  }

  datatype Op = Wait(t: Tid) | TryWait(t: Tid) | TimedWait(t: Tid, timeout: Time32) | Resume(t: Tid) | Post | Timeout(t: Tid)

  predicate Enabled(s: State, op: Op) {
    match op
    case Wait(t) => !s.wait.Inside(t)
    case TryWait(t) => !s.wait.Inside(t)
    case TimedWait(t, _) => !s.wait.Inside(t)
    case Resume(t) => t in s.wait.granted || t in s.wait.timedOut
    case Post => true
    case Timeout(t) => s.wait.MayTimeOut(t)
  }

  /** Take a token or join the queue. */
  function Waited(s: State, t: Tid, timeout: Time32): (r: State)
    requires s.Valid() && !s.wait.Inside(t)
    ensures r.Valid()
  {
    if s.count - 1 < 0 then s.(count := s.count - 1, wait := s.wait.Join(t, timeout))
    else s.(count := s.count - 1, taken := s.taken + 1)
  }

  function Posted(s: State): (r: State)
    requires s.Valid()
    ensures r.Valid()
  {
    var r := s.(count := s.count + 1, posts := s.posts + 1);
    if r.count <= 0 then r.(wait := s.wait.WakeOne()) else r
  }

  function Resumed(s: State, t: Tid): (r: State)
    requires s.Valid() && (t in s.wait.granted || t in s.wait.timedOut)
    ensures r.Valid()
  {
    if t in s.wait.timedOut then s.(count := s.count + 1, wait := s.wait.Return(t))
    else
      assert s.wait.Return(t).timedOut == s.wait.timedOut;
      s.(wait := s.wait.Return(t))
  }

  function After(s: State, op: Op): (r: State)
    requires s.Valid() && Enabled(s, op)
    ensures r.Valid()
  {
    match op
    case Wait(t) => Waited(s, t, INFINITE_TIME)
    case TryWait(t) => if s.count <= 0 then s else Waited(s, t, 0)
    case TimedWait(t, timeout) => if timeout == 0 && s.count <= 0 then s else Waited(s, t, timeout)
    case Resume(t) => Resumed(s, t)
    case Post => Posted(s)
    case Timeout(t) => s.(wait := s.wait.Timeout(t))
  }

  function Initial(count: nat): (s: State)
    ensures s.Valid()
  {
    State(count, Waiters([], {}, {}, 0, []), count, 0, 0)
  }

  ghost predicate CanRun(s: State, ops: seq<Op>)
    requires s.Valid()
    decreases |ops|
  {
    ops != [] ==> Enabled(s, ops[0]) && CanRun(After(s, ops[0]), ops[1..])
  }

  ghost function Run(s: State, ops: seq<Op>): (r: State)
    requires s.Valid() && CanRun(s, ops)
    ensures r.Valid()
    decreases |ops|
  {
    if ops == [] then s else Run(After(s, ops[0]), ops[1..])
  }

  function Posts(ops: seq<Op>): nat {
    if ops == [] then 0 else (if ops[0].Post? then 1 else 0) + Posts(ops[1..])
  }

  /** Through any run, with timeouts: never more successful waits than the initial count and the posts,
      and the count is exactly what these leave, less the waiters and the late. */
  lemma {:induction false} Conservation(s: State, ops: seq<Op>)
    requires s.Valid() && CanRun(s, ops)
    ensures var r := Run(s, ops);
      && r.initial == s.initial && r.posts == s.posts + Posts(ops)
      && r.count == r.initial + s.posts + Posts(ops) - r.Successes() - |r.wait.queue| - |r.wait.timedOut|
      && r.Successes() <= r.initial + s.posts + Posts(ops)
    decreases |ops|
  {
    if ops != [] {
      Conservation(After(s, ops[0]), ops[1..]);
    }
  }

  /** What a wait with the given result has done: taken a token, nothing, or joined the queue, where it
      counts as a token that is owed. */
  predicate Took(s: State, s': State, t: Tid, timeout: Time32, r: Option<Code>) {
    if r == Some(NO_ERROR) then s'.count == s.count - 1 && s'.wait == s.wait && s'.Successes() == s.Successes() + 1
    else if r == Some(ERR_TIMED_OUT) then s' == s
    else
      && s'.count == s.count - 1 && s'.Successes() == s.Successes()
      && s'.wait.queue == s.wait.queue + [Ticket(t, s.wait.next, timeout)]
      && s'.wait.granted == s.wait.granted && s'.wait.timedOut == s.wait.timedOut
  }

  /** Every wait, whatever its timeout, succeeds at once if and only if the count is positive; else it fails
      without a trace if it does not wait, and joins the queue if it does. */
  lemma TakesIff(s: State, op: Op)
    requires s.Valid() && Enabled(s, op) && (op.Wait? || op.TryWait? || op.TimedWait?)
    ensures var timeout := if op.Wait? then INFINITE_TIME else if op.TryWait? then 0 else op.timeout;
      Took(s, After(s, op), op.t, timeout,
           if s.count > 0 then Some(NO_ERROR) else if timeout == 0 then Some(ERR_TIMED_OUT) else None)
  {
  }

  // ---- stranded waiters ---------------------------------------------------------------------------

  predicate IsWait(op: Op) {
    op.Wait? || (op.TimedWait? && op.timeout != 0)
  }

  /** Waiters get stranded in exactly one way: a thread that is willing to wait finds the count at or
      below zero only because of threads that timed out and have not yet run. */
  lemma StrandsIff(s: State, op: Op)
    requires s.Valid() && Enabled(s, op) && !s.Stranded()
    ensures After(s, op).Stranded() <==> IsWait(op) && s.count <= 0 < s.Spare()
  {
    if op.Timeout? && s.wait.Waits(op.t) {
      assert After(s, op).Spare() == s.Spare();
    }
  }

  /** Once the late threads have run, the count is not negative and no number of posts wakes those who
      are stranded. */
  lemma {:induction false} PostsDoNotHelp(s: State, n: nat)
    requires s.Valid() && s.wait.queue != [] && s.count >= 0
    ensures s.Stranded()
    ensures var ops := seq(n, _ => Post); CanRun(s, ops) && Run(s, ops).wait == s.wait && Run(s, ops).count == s.count + n
    decreases n
  {
    if n > 0 {
      var ops := seq(n, _ => Post);
      assert ops[1..] == seq(n - 1, _ => Post);
      PostsDoNotHelp(After(s, Post), n - 1);
    }
  }

  /** Five steps lead there: a wait times out, a post comes before the late thread has run, another thread
      waits without a limit, and only then does the late thread take itself off the count. That thread
      then waits, and no number of posts wakes it. */
  lemma StrandedRun(n: nat)
    ensures var ops := [TimedWait(1, 5), Timeout(1), Post, Wait(2), Resume(1)];
      CanRun(Initial(0), ops) &&
      var s, posts := Run(Initial(0), ops), seq(n, _ => Post);
      && s.Stranded() && s.count == 0 && s.wait.queue == [Ticket(2, 1, INFINITE_TIME)]
      && CanRun(s, posts) && Run(s, posts).wait == s.wait && Run(s, posts).count == n
  {
    var ops := [TimedWait(1, 5), Timeout(1), Post, Wait(2), Resume(1)];
    var s1 := State(-1, Waiters([Ticket(1, 0, 5)], {}, {}, 1, []), 0, 0, 0);
    var s2 := State(-1, Waiters([], {}, {1}, 1, []), 0, 0, 0);
    assert After(Initial(0), ops[0]) == s1;
    assert s1.wait.queue[0].thread == 1;
    assert After(s1, ops[1]) == s2;
    PostTooEarly();
    RunStep(Initial(0), ops);
    RunStep(s1, ops[1..]);
    assert ops[1..][1..] == [Post, Wait(2), Resume(1)];
    PostsDoNotHelp(Run(Initial(0), ops), n);
  }

  lemma PostTooEarly()
    ensures var s := State(-1, Waiters([], {}, {1}, 1, []), 0, 0, 0);
      var ops := [Post, Wait(2), Resume(1)];
      && s.Valid() && CanRun(s, ops)
      && Run(s, ops).count == 0 && Run(s, ops).wait.queue == [Ticket(2, 1, INFINITE_TIME)]
  {
    var s := State(-1, Waiters([], {}, {1}, 1, []), 0, 0, 0);
    var s1 := State(0, Waiters([], {}, {1}, 1, []), 0, 1, 0);
    var s2 := State(-1, Waiters([Ticket(2, 1, INFINITE_TIME)], {}, {1}, 2, []), 0, 1, 0);
    var ops := [Post, Wait(2), Resume(1)];
    assert After(s, ops[0]) == s1 && After(s1, ops[1]) == s2;
    RunStep(s, ops);
    RunStep(s1, ops[1..]);
    RunStep(s2, ops[1..][1..]);
  }

  lemma RunStep(s: State, ops: seq<Op>)
    requires s.Valid() && ops != [] && Enabled(s, ops[0])
    ensures CanRun(After(s, ops[0]), ops[1..]) ==> CanRun(s, ops) && Run(s, ops) == Run(After(s, ops[0]), ops[1..])
  {
  }

  /** Every thread either does not wait or waits without a limit. */
  predicate NoLimits(ops: seq<Op>) {
    forall op :: op in ops && op.TimedWait? ==> op.timeout == 0 || op.timeout == INFINITE_TIME
  }

  /** As long as nobody passes a timeout other than zero and no limit, nobody is ever stranded. */
  lemma {:induction false} NoLimitsNoStranding(s: State, ops: seq<Op>)
    requires s.Valid() && CanRun(s, ops) && NoLimits(ops)
    requires !s.Stranded() && s.wait.timedOut == {} && s.wait.Unlimited()
    ensures !Run(s, ops).Stranded() && Run(s, ops).wait.timedOut == {} && Run(s, ops).wait.Unlimited()
    decreases |ops|
  {
    if ops != [] {
      assert ops[0] in ops;
      NoLimitsStep(s, ops[0]);
      NoLimitsNoStranding(After(s, ops[0]), ops[1..]);
    }
  }

  lemma NoLimitsStep(s: State, op: Op)
    requires s.Valid() && Enabled(s, op) && NoLimits([op])
    requires !s.Stranded() && s.wait.timedOut == {} && s.wait.Unlimited()
    ensures !After(s, op).Stranded() && After(s, op).wait.timedOut == {} && After(s, op).wait.Unlimited()
  {
    assert op in [op];
    StrandsIff(s, op);
    s.wait.StaysUnlimited();
  }

  // ---- the code -----------------------------------------------------------------------------------

  class Semaphore {
    var count: int
    var wait: Waiters
    ghost var initial: nat
    ghost var posts: nat
    ghost var taken: nat

    ghost function Now(): State
      reads this
    {
      State(count, wait, initial, posts, taken)
    }

    constructor (value: nat)
      ensures Now() == Initial(value)
    {
      count, wait := value, Waiters([], {}, {}, 0, []);
      initial, posts, taken := value, 0, 0;
    }

    /** sem_post: how many threads it released, at most one. */
    method SemPost() returns (woken: nat)
      requires Now().Valid()
      modifies this
      ensures Now() == After(old(Now()), Post)
      ensures woken == |wait.grants| - |old(wait).grants| <= 1
      ensures woken == 1 <==> old(count) < 0 && old(wait).queue != []
      ensures count == old(count) + 1 && (woken == 1 ==> old(wait).queue[0].thread in wait.granted && wait.queue == old(wait).queue[1..])
      ensures woken == 0 ==> wait == old(wait)
    {
      woken := 0;
      count := count + 1;
      posts := posts + 1;
      if count <= 0 {
        woken := wait.WokenByOne();
        wait := wait.WakeOne();
      }
    }

    /** sem_wait, up to the point where it may block. */
    method SemWait(t: Tid) returns (r: Option<Code>)
      requires Now().Valid() && Enabled(Now(), Wait(t))
      modifies this
      ensures Now() == After(old(Now()), Wait(t))
      ensures r == if old(count) > 0 then Some(NO_ERROR) else None
      ensures Took(old(Now()), Now(), t, INFINITE_TIME, r)
    {
      count := count - 1;
      if count < 0 {
        wait := wait.Join(t, INFINITE_TIME);
        return None;
      }
      taken := taken + 1;
      return Some(NO_ERROR);
    }

    method SemTryWait(t: Tid) returns (r: Code)
      requires Now().Valid() && Enabled(Now(), TryWait(t))
      modifies this
      ensures Now() == After(old(Now()), TryWait(t))
      ensures r == if old(count) > 0 then NO_ERROR else ERR_NOT_READY
      ensures Took(old(Now()), Now(), t, 0, if r == NO_ERROR then Some(NO_ERROR) else Some(ERR_TIMED_OUT))
    {
      if count <= 0 {
        return ERR_NOT_READY;
      }
      count := count - 1;
      taken := taken + 1;
      return NO_ERROR;
    }

    /** sem_timedwait, up to the point where it may block. */
    method SemTimedWait(t: Tid, timeout: Time32) returns (r: Option<Code>)
      requires Now().Valid() && Enabled(Now(), TimedWait(t, timeout))
      modifies this
      ensures Now() == After(old(Now()), TimedWait(t, timeout))
      ensures r == if old(count) > 0 then Some(NO_ERROR) else if timeout == 0 then Some(ERR_TIMED_OUT) else None
      ensures Took(old(Now()), Now(), t, timeout, r)
    {
      count := count - 1;
      if count < 0 {
        if timeout == 0 {
          count := count + 1;
          return Some(ERR_TIMED_OUT);
        }
        wait := wait.Join(t, timeout);
        return None;
      }
      taken := taken + 1;
      return Some(NO_ERROR);
    }

    /** The rest of sem_timedwait or sem_wait, once wait_queue_block has returned. */
    method FinishWait(t: Tid) returns (r: Code)
      requires Now().Valid() && Enabled(Now(), Resume(t))
      modifies this
      ensures Now() == After(old(Now()), Resume(t))
      ensures r == if t in old(wait).timedOut then ERR_TIMED_OUT else NO_ERROR
      ensures count == old(count) + (if r == NO_ERROR then 0 else 1) && !wait.Inside(t) && wait.queue == old(wait).queue
    {
      wait.HasLeft(t);
      r := if t in wait.timedOut then ERR_TIMED_OUT else NO_ERROR;
      wait := wait.Return(t);
      if r < NO_ERROR {
        if r == ERR_TIMED_OUT {
          count := count + 1;
        }
      }
    }
  }
}
