/**
 The threads in and around the wait queue of a mutex, semaphore or event. A thread that was woken or
 timed out has left the queue (kernel/thread.c) but goes on only when it next runs; the object's
 counter is corrected no sooner than that.
 */
module Waiters {
  import opened Clock
  import opened Common

  /** A thread in the queue, numbered in the order of arrival, and how long it is willing to wait. */
  datatype Ticket = Ticket(thread: Tid, number: nat, timeout: Time32)

  /** `granted` and `timedOut` have left the queue with NO_ERROR and ERR_TIMED_OUT and not yet run.
      `next` and `grants` record history: the next number, and the numbers granted so far. */
  datatype Waiters = Waiters(queue: seq<Ticket>, granted: set<Tid>, timedOut: set<Tid>, next: nat, grants: seq<nat>) {

    predicate Waits(t: Tid) {
      exists i :: 0 <= i < |queue| && queue[i].thread == t
    }

    /** t is between the two halves of a blocking call. */
    predicate Inside(t: Tid) {
      Waits(t) || t in granted || t in timedOut
    }

    /** A timer is set only for a wait with a limit; it may fire when that wait is over, to no effect. */
    predicate MayTimeOut(t: Tid) {
      forall k :: k in queue && k.thread == t ==> k.timeout != INFINITE_TIME
    }

    predicate Unlimited() {
      forall k :: k in queue ==> k.timeout == INFINITE_TIME
    }

    ghost predicate Valid() {
      && (forall i: nat, j: nat {:trigger InOrder(i, j)} :: i < j < |queue| ==> InOrder(i, j))
      && (forall i: nat {:trigger Queued(i)} :: i < |queue| ==> Queued(i))
      && granted !! timedOut
      && (forall i: nat, j: nat {:trigger Granted(i, j)} :: i < j < |grants| ==> Granted(i, j))
      && (grants != [] ==> grants[|grants| - 1] < next)
    }

    ghost predicate Granted(i: nat, j: nat)
      requires i < j < |grants|
    {
      grants[i] < grants[j]
    }

    /** Threads are granted in the order in which they arrived, and before all that still wait. */
    lemma Order(i: nat, j: nat)
      requires Valid()
      ensures i < j < |grants| ==> grants[i] < grants[j]
      ensures i < |grants| && j < |queue| ==> grants[i] < queue[j].number
      ensures i < j < |queue| ==> queue[i].number < queue[j].number
    {
      if j < |queue| {
        assert Queued(j);
        assert i < j ==> InOrder(i, j);
        assert i < |grants| - 1 ==> Granted(i, |grants| - 1);
      }
      assert i < j < |grants| ==> Granted(i, j);
    }

    ghost predicate InOrder(i: nat, j: nat)
      requires i < j < |queue|
    {
      queue[i].number < queue[j].number && queue[i].thread != queue[j].thread
    }

    ghost predicate Queued(i: nat)
      requires i < |queue|
    {
      && queue[i].number < next && queue[i].thread !in granted && queue[i].thread !in timedOut
      && (grants != [] ==> grants[|grants| - 1] < queue[i].number)
    }

    /** The first half of wait_queue_block, with a timeout that is not zero. */
    function Join(t: Tid, timeout: Time32): (r: Waiters)
      requires Valid() && !Inside(t)
      ensures r.Valid()
    {
      var r := this.(queue := queue + [Ticket(t, next, timeout)], next := next + 1);
      JoinValid(t, timeout, r);
      r
    }

    lemma JoinValid(t: Tid, timeout: Time32, r: Waiters)
      requires Valid() && !Inside(t) && r == this.(queue := queue + [Ticket(t, next, timeout)], next := next + 1)
      ensures r.Valid()
    {
      forall i: nat, j: nat | i < j < |r.grants|
        ensures r.Granted(i, j)
      {
        assert Granted(i, j);
      }
      forall i: nat | i < |r.queue|
        ensures r.Queued(i)
      {
        assert i < |queue| ==> Queued(i);
      }
      forall i: nat, j: nat | i < j < |r.queue|
        ensures r.InOrder(i, j)
      {
        assert j < |queue| ==> InOrder(i, j);
        assert Queued(i);
      }
    }

    /** wait_queue_wake_one with NO_ERROR: the thread that has waited longest, if any. */
    function WakeOne(): (r: Waiters)
      requires Valid()
      ensures r.Valid()
    {
      if queue == [] then this
      else
        var r := this.(queue := queue[1..], granted := granted + {queue[0].thread}, grants := grants + [queue[0].number]);
        WakeOneValid(r);
        r
    }

    /** What wait_queue_wake_one returns: how many it woke. */
    function WokenByOne(): nat {
      if queue == [] then 0 else 1
    }

    lemma WakeOneValid(r: Waiters)
      requires Valid() && queue != []
      requires r == this.(queue := queue[1..], granted := granted + {queue[0].thread}, grants := grants + [queue[0].number])
      ensures r.Valid()
    {
      assert Queued(0);
      forall i: nat | i < |r.queue|
        ensures r.Queued(i)
      {
        assert Queued(i + 1) && InOrder(0, i + 1);
      }
      forall i: nat, j: nat | i < j < |r.grants|
        ensures r.Granted(i, j)
      {
        assert j < |grants| ==> Granted(i, j);
        assert j == |grants| && i < j - 1 ==> Granted(i, j - 1);
      }
      forall i: nat, j: nat | i < j < |r.queue|
        ensures r.InOrder(i, j)
      {
        assert InOrder(i + 1, j + 1);
      }
    }

    /** wait_queue_wake_all with NO_ERROR. */
    function WakeAll(): (r: Waiters)
      requires Valid()
      ensures r.Valid()
      ensures r.queue == [] && r.timedOut == timedOut && |r.grants| == |grants| + |queue|
      ensures forall t :: t in r.granted <==> t in granted || Waits(t)
      decreases |queue|
    {
      if queue == [] then this else WakeOne().WakeAll()
    }

    /** wait_queue_timeout_handler: nothing happens if the thread is no longer waiting. */
    function Timeout(t: Tid): (r: Waiters)
      requires Valid()
      ensures r.Valid()
      ensures Waits(t) ==> |r.timedOut| == |timedOut| + 1 && !r.Waits(t)
    {
      if Waits(t) then
        var i := Place(queue, t);
        var r := this.(queue := Without(queue, i), timedOut := timedOut + {t});
        TimeoutValid(t, i, r);
        r
      else this
    }

    /** A waiter without a limit stays, whoever times out; so does anyone whose own time is not up. */
    lemma TimeoutLeaves(t: Tid, k: Ticket)
      requires Valid() && k in queue && MayTimeOut(t) && (k.timeout == INFINITE_TIME || k.thread != t)
      ensures k in Timeout(t).queue
    {
      if Waits(t) {
        var i, j := Place(queue, t), IndexOf(queue, k);
        var r := Without(queue, i);
        assert queue[i] in queue && i != j;
        assert r[if j < i then j else j - 1] == k;
      }
    }

    /** No wake and no timeout brings a limit in; and without limits no timer has an effect. */
    lemma StaysUnlimited()
      requires Valid() && Unlimited()
      ensures WakeOne().Unlimited() && WakeAll().Unlimited()
      ensures forall t :: MayTimeOut(t) ==> Timeout(t) == this
      ensures forall t :: Return(t).Unlimited()
      ensures forall t :: !Inside(t) ==> Join(t, INFINITE_TIME).Unlimited()
    {
      forall t | MayTimeOut(t)
        ensures Timeout(t) == this
      {
        forall i: nat | i < |queue|
          ensures queue[i].thread != t
        {
          assert queue[i] in queue;
        }
      }
    }

    lemma TimeoutValid(t: Tid, i: nat, r: Waiters)
      requires Valid() && i < |queue| && queue[i].thread == t
      requires r == this.(queue := Without(queue, i), timedOut := timedOut + {t})
      ensures r.Valid() && t !in timedOut && !r.Waits(t)
    {
      forall i: nat, j: nat | i < j < |r.grants|
        ensures r.Granted(i, j)
      {
        assert Granted(i, j);
      }
      assert Queued(i);
      forall j: nat | j < |r.queue|
        ensures r.Queued(j) && r.queue[j].thread != t
      {
        assert Queued(if j < i then j else j + 1);
        assert if j < i then InOrder(j, i) else InOrder(i, j + 1);
      }
      forall j: nat, k: nat | j < k < |r.queue|
        ensures r.InOrder(j, k)
      {
        assert InOrder(if j < i then j else j + 1, if k < i then k else k + 1);
      }
    }

    /** The second half of wait_queue_block: the thread runs again and returns. */
    function Return(t: Tid): (r: Waiters)
      requires Valid()
      ensures r.Valid() && r.queue == queue && r.next == next && r.grants == grants
      ensures forall u :: r.Inside(u) <==> Inside(u) && (u != t || Waits(t))
      ensures forall u :: u != t ==> (u in r.granted <==> u in granted) && (u in r.timedOut <==> u in timedOut)
    {
      var r := this.(granted := granted - {t}, timedOut := timedOut - {t});
      ReturnValid(r, t);
      r
    }

    lemma HasLeft(t: Tid)
      requires Valid() && (t in granted || t in timedOut)
      ensures !Waits(t) && !(t in granted && t in timedOut)
    {
      forall i: nat | i < |queue|
        ensures queue[i].thread != t
      {
        assert Queued(i);
      }
    }

    lemma ReturnValid(r: Waiters, t: Tid)
      requires Valid() && r == this.(granted := granted - {t}, timedOut := timedOut - {t})
      ensures r.Valid()
    {
      forall i: nat, j: nat | i < j < |r.grants|
        ensures r.Granted(i, j)
      {
        assert Granted(i, j);
      }
      forall i: nat | i < |r.queue|
        ensures r.Queued(i)
      {
        assert Queued(i);
      }
      forall i: nat, j: nat | i < j < |r.queue|
        ensures r.InOrder(i, j)
      {
        assert InOrder(i, j);
      }
    }
  }

  function Place(q: seq<Ticket>, t: Tid): (i: nat)
    requires exists i :: 0 <= i < |q| && q[i].thread == t
    ensures i < |q| && q[i].thread == t
  {
    if q[0].thread == t then 0 else 1 + Place(q[1..], t)
  }
}
