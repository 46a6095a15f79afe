/**
 Time slices (kernel/thread.c): threads of one priority take turns on a processor.
 */
module RoundRobin {
  import opened Common
  import opened Policy
  import opened Scheduler
  import opened Scheduling

  function Iterate(tick: State -> State, s: State, n: nat): State
    decreases n
  {
    if n == 0 then s else Iterate(tick, tick(s), n - 1)
  }

  /** A tick on the only processor. */
  ghost function OneTick(s: State): State {
    if s.Inv() && |s.current| == 1 then Ticked(s, 0) else s
  }

  /** n ticks of the preemption timer, and nothing else. */
  ghost function Ticks(s: State, n: nat): State {
    Iterate(OneTick, s, n)
  }

  /** On the only processor runs a thread of priority p that is subject to time slices, as are the
      threads of that priority that wait for it; nothing of higher priority is ready. */
  ghost predicate Sharing(s: State, p: Prio) {
    && s.Inv() && |s.current| == 1
    && Shares(s, p, s.current[0])
    && (forall t :: t in s.run[p] ==> Shares(s, p, t))
    && forall q: Prio :: q > p ==> s.run[q] == []
  }

  ghost predicate Shares(s: State, p: Prio, t: Tid) {
    t in s.threads && !s.threads[t].realTime && !s.threads[t].idle && s.threads[t].priority == p && s.threads[t].Eligible(0)
  }

  function Slice(s: State): int
    requires |s.current| == 1 && s.current[0] in s.threads
  {
    s.threads[s.current[0]].quantum
  }

  /** A tick within the slice only shortens it. */
  lemma TickWithin(s: State, p: Prio)
    requires Sharing(s, p) && Slice(s) > 1
    ensures var s' := Ticked(s, 0);
      Sharing(s', p) && s'.run[p] == s.run[p] && s'.current == s.current && Slice(s') == Slice(s) - 1
  {
    CurrentRuns(s, 0);
    var t := s.current[0];
    Adjusts(s, 0, s.threads[t].quantum - 1, s.threads[t].priority);
    var s' := s.Update(t, s.threads[t].(quantum := s.threads[t].quantum - 1));
    forall u | u in s'.run[p]
      ensures Shares(s', p, u)
    {
      assert Shares(s, p, u);
    }
  }

  /** With the first of queue p ready to run and nothing above, that one is next. */
  lemma Passes(s: State, p: Prio)
    requires s.Leaving(0) && |s.current| == 1 && s.run[p] != []
    requires s.run[p][0] in s.threads && s.threads[s.run[p][0]].Eligible(0)
    requires forall q: Prio :: q > p ==> s.run[q] == []
    ensures s.QueuesKnown() && 0 < |s.idle| && s.idle[0] in s.threads && s.current[0] in s.threads
    ensures s.GetTop(0) == (s.Dequeue(p, 0), s.run[p][0])
  {
    Rescheds(s, 0);
    EligibleAt(s, p, 0, 0);
    assert forall q: Prio :: q > p ==> !s.HasEligible(q, 0);
  }

  /** The thread that runs, at the end of its queue because its slice is over. */
  ghost function Requeued(s: State): State
    requires s.Inv() && |s.current| == 1
    requires s.current[0] in s.threads
  {
    var t := s.current[0];
    s.MakeReady(t, Tail).Update(t, s.threads[t].(state := Ready, quantum := s.threads[t].quantum - 1))
  }

  lemma SliceEnds(s: State, p: Prio)
    requires Sharing(s, p) && Slice(s) <= 1
    ensures Requeued(s).Leaving(0) && Requeued(s).QueuesKnown()
    ensures 0 < |s.idle| && s.idle[0] in s.threads
    ensures Ticked(s, 0) == Requeued(s).Resched(0)
  {
    CurrentRuns(s, 0);
    var t := s.current[0];
    var s1 := Shortened(s, 0);
    GivesUp(s1, 0, Tail);
    GoesToTheEnd(s, s1);
    Rescheds(Requeued(s), 0);
  }

  lemma GoesToTheEnd(s: State, s1: State)
    requires s.Inv() && |s.current| == 1 && s.current[0] in s.threads && !s.threads[s.current[0]].idle
    requires s1 == s.Update(s.current[0], s.threads[s.current[0]].(quantum := s.threads[s.current[0]].quantum - 1))
    ensures s1.GiveUp(s.current[0], Tail) == Requeued(s)
  {
    assert s1.GiveUp(s.current[0], Tail).threads == Requeued(s).threads;
  }

  /** What a switch leaves of a thread. */
  ghost predicate SameRank(s: State, s': State, t: Tid) {
    && t in s.threads && t in s'.threads
    && (s'.threads[t].realTime, s'.threads[t].idle, s'.threads[t].priority, s'.threads[t].pinnedCpu) ==
       (s.threads[t].realTime, s.threads[t].idle, s.threads[t].priority, s.threads[t].pinnedCpu)
  }

  /** The first of what is then the queue takes over. */
  lemma FirstTakesOver(s: State, p: Prio)
    requires Sharing(s, p) && Slice(s) <= 1
    ensures s.current[0] in s.threads && Requeued(s).run == s.run[p := s.run[p] + [s.current[0]]]
    ensures var q, s2 := s.run[p] + [s.current[0]], Requeued(s);
      && q[0] in s2.threads && s2.current == s.current
      && Ticked(s, 0) == s2.Dequeue(p, 0).SwitchTo(0, q[0])
  {
    SliceEnds(s, p);
    var q := s.run[p] + [s.current[0]];
    assert Requeued(s).run[p] == q;
    assert q[0] in q && (s.run[p] != [] ==> q[0] == s.run[p][0] && q[0] in s.run[p]);
    assert Shares(s, p, q[0]);
    Passes(Requeued(s), p);
  }

  /** It has a new slice unless it is the thread that ran before. */
  lemma TakenOver(s: State, p: Prio, s': State)
    requires Sharing(s, p) && Requeued(s).run == s.run[p := s.run[p] + [s.current[0]]]
    requires (s.run[p] + [s.current[0]])[0] in s.threads
    requires s' == Requeued(s).Dequeue(p, 0).SwitchTo(0, (s.run[p] + [s.current[0]])[0])
    ensures var q := s.run[p] + [s.current[0]];
      && s'.current == [q[0]] && s'.run == s.run[p := q[1..]]
      && (forall u :: u in s.threads ==> SameRank(s, s', u))
      && (q[0] == s.current[0] ==> Slice(s') == Slice(s) - 1) && (q[0] != s.current[0] ==> Slice(s') >= 1)
  {
    var q := s.run[p] + [s.current[0]];
    assert Without(q, 0) == q[1..];
  }

  lemma NextShares(s: State, s': State, p: Prio)
    requires Sharing(s, p) && s'.Inv() && s.run[p] != []
    requires s'.current == [s.run[p][0]] && s'.run == s.run[p := s.run[p][1..] + [s.current[0]]]
    requires forall u :: u in s.threads ==> SameRank(s, s', u)
    ensures Sharing(s', p)
  {
    assert s.run[p][0] in s.run[p];
    forall u | u in s'.run[p] || u == s.run[p][0]
      ensures Shares(s', p, u)
    {
      assert u in s.run[p] || u == s.current[0];
      assert Shares(s, p, u) && SameRank(s, s', u);
    }
  }

  /** A tick at the end of the slice passes the processor to the first in the queue, with a slice of its
      own, and sends the thread that ran to the end of the queue. */
  lemma TickOver(s: State, p: Prio)
    requires Sharing(s, p) && Slice(s) <= 1 && s.run[p] != []
    ensures var s' := Ticked(s, 0);
      Sharing(s', p) && s'.run[p] == s.run[p][1..] + [s.current[0]] && s'.current == [s.run[p][0]] && 1 <= Slice(s') <= QUANTUM
  {
    var next, s' := s.run[p][0], Ticked(s, 0);
    FirstTakesOver(s, p);
    TakenOver(s, p, s');
    NewSlice(s, s', p);
    NextShares(s, s', p);
  }

  lemma NewSlice(s: State, s': State, p: Prio)
    requires Sharing(s, p) && s'.Inv() && s.run[p] != [] && |s'.current| == 1
    ensures s.run[p][0] != s.current[0]
    ensures s'.current[0] in s'.threads && Slice(s') <= QUANTUM
    ensures (s.run[p] + [s.current[0]])[1..] == s.run[p][1..] + [s.current[0]]
  {
    CurrentRuns(s, 0);
    CurrentRuns(s', 0);
    assert s.run[p][0] in s.run[p];
    assert Shares(s, p, s.run[p][0]);
    Placement(s, s.run[p][0]);
  }

  lemma AloneOnce(s: State, p: Prio)
    requires Sharing(s, p) && s.run[p] == []
    ensures var s' := Ticked(s, 0);
      Sharing(s', p) && s'.run[p] == [] && s'.current == s.current && Slice(s') == Slice(s) - 1
  {
    if Slice(s) > 1 {
      TickWithin(s, p);
    } else {
      FirstTakesOver(s, p);
      TakenOver(s, p, Ticked(s, 0));
      assert Shares(s, p, s.current[0]);
    }
  }

  /** What one tick does: the slice gets shorter, the turn passes, or, for a thread alone at its
      priority, the quantum falls on. */
  ghost predicate Passed(s: State, s': State, p: Prio)
    requires Sharing(s, p)
  {
    Sharing(s', p) &&
    if Slice(s) > 1 || s.run[p] == [] then
      s'.run[p] == s.run[p] && s'.current == s.current && Slice(s') == Slice(s) - 1
    else
      s'.run[p] == s.run[p][1..] + [s.current[0]] && s'.current == [s.run[p][0]] && 1 <= Slice(s') <= QUANTUM
  }

  ghost predicate Rotates(tick: State -> State) {
    forall s: State, p: Prio {:trigger tick(s), Sharing(s, p)} :: Sharing(s, p) ==> Passed(s, tick(s), p)
  }

  lemma TicksRotate()
    ensures Rotates(OneTick)
  {
    forall s: State, p: Prio | Sharing(s, p)
      ensures Passed(s, OneTick(s), p)
    {
      TickPasses(s, p);
    }
  }

  lemma TickPasses(s: State, p: Prio)
    requires Sharing(s, p)
    ensures Passed(s, Ticked(s, 0), p)
  {
    if Slice(s) > 1 {
      TickWithin(s, p);
    } else if s.run[p] == [] {
      AloneOnce(s, p);
    } else {
      TickOver(s, p);
    }
  }

  /** The most ticks until the thread at position i runs. */
  function TicksUntil(slice: int, i: nat): nat {
    QUANTUM * i + if slice < 1 then 1 else slice
  }

  lemma {:induction false} Turn(tick: State -> State, s: State, p: Prio, i: nat) returns (n: nat)
    requires Rotates(tick) && Sharing(s, p) && i < |s.run[p]|
    ensures 1 <= n <= TicksUntil(Slice(s), i)
    ensures Iterate(tick, s, n).current == [s.run[p][i]]
    decreases i, Slice(s)
  {
    var s' := tick(s);
    assert Passed(s, s', p);
    if Slice(s) > 1 {
      var k := Turn(tick, s', p, i);
      n := k + 1;
    } else if i > 0 {
      var k := Turn(tick, s', p, i - 1);
      n := k + 1;
    } else {
      n := 1;
      assert Iterate(tick, s', 0) == s';
    }
  }

  /** The thread at position i of the run queue becomes current within five ticks for each of those
      before it and the rest of the slice of the one that runs. */
  lemma TurnComes(s: State, p: Prio, i: nat) returns (n: nat)
    requires Sharing(s, p) && i < |s.run[p]|
    ensures 1 <= n <= TicksUntil(Slice(s), i) <= QUANTUM * (i + 1)
    ensures Ticks(s, n).current == [s.run[p][i]]
  {
    CurrentRuns(s, 0);
    TicksRotate();
    n := Turn(OneTick, s, p, i);
  }

  lemma {:induction false} Falls(tick: State -> State, s: State, p: Prio, n: nat)
    requires Rotates(tick) && Sharing(s, p) && s.run[p] == []
    ensures var s' := Iterate(tick, s, n);
      Sharing(s', p) && s'.run[p] == [] && s'.current == s.current && Slice(s') == Slice(s) - n
    decreases n
  {
    if n > 0 {
      assert Passed(s, tick(s), p);
      Falls(tick, tick(s), p, n - 1);
    }
  }

  /** On any number of processors: a tick that ends a slice leaves the processor to a thread without a
      quantum if and only if nothing of the same or a higher priority is ready for it. The early return
      of thread_resched comes before the refill. */
  lemma NotRenewedIff(s: State, cpu: Cpu)
    requires s.Inv() && Busy(s, cpu) && SliceOver(s, cpu)
    ensures var s' := Ticked(s, cpu);
      && s'.current[cpu] in s'.threads
      && (s'.threads[s'.current[cpu]].quantum <= 0 <==> NothingAbove(s, cpu, s.threads[s.current[cpu]].priority, true))
  {
    CurrentRuns(s, cpu);
    var t, s1 := s.current[cpu], Shortened(s, cpu);
    KeepsIff(s1, cpu, Tail);
    RenewsIff(s1.GiveUp(t, Tail), cpu);
    forall u
      ensures Contends(s1, cpu, u) <==> Contends(s, cpu, u)
    {
    }
    assert NothingAbove(s1, cpu, s.threads[t].priority, true) <==> NothingAbove(s, cpu, s.threads[t].priority, true);
  }

  /** A thread alone at its priority is never given a new slice: the early return of thread_resched
      comes before the refill, so its remaining_quantum goes on falling, without a lower bound. */
  lemma AloneItFalls(s: State, p: Prio, n: nat)
    requires Sharing(s, p) && s.run[p] == []
    ensures var s' := Ticks(s, n);
      Sharing(s', p) && s'.run[p] == [] && s'.current == s.current && Slice(s') == Slice(s) - n
  {
    TicksRotate();
    Falls(OneTick, s, p, n);
  }

  /** The idle thread yields to the first thread there is. */
  lemma FirstThreadRuns(s: State)
    requires s.Inv() && s.current == [0] && 0 in s.threads && s.threads[0].idle
    requires 1 in s.threads && s.threads[1] == Thread(16, Ready, 0, false, false, None, None, None, NO_ERROR)
    requires |s.run| == NUM_PRIORITIES && s.run[16] == [1] && forall q: Prio :: q != 16 ==> s.run[q] == []
    ensures var s' := Yielded(s, 0);
      Sharing(s', 16) && s'.run[16] == [] && s'.current == [1] && Slice(s') == QUANTUM
  {
    CurrentRuns(s, 0);
    Adjusts(s, 0, 0, s.threads[0].priority);
    var s1 := s.Update(0, s.threads[0].(quantum := 0));
    GivesUp(s1, 0, Tail);
    var s2 := s1.GiveUp(0, Tail);
    assert s2.run == s.run && s2.current == [0];
    Passes(s2, 16);
    assert Yielded(s, 0) == s2.Resched(0) == s2.Dequeue(16, 0).SwitchTo(0, 1);
    assert Without(s2.run[16], 0) == [];
  }

  /** A thread of the default priority is created on one processor, resumed, and yielded to. */
  ghost function FirstThread(): (s: State)
    ensures s.Inv()
  {
    var s0 := Booted(1, {});
    assert 1 !in s0.threads;
    Yielded(Resumed(Created(s0, 1, 16, None), 1), 0)
  }

  /** It happens to the first thread that is created: after n ticks its remaining quantum is 5 - n. */
  lemma FirstThreadFalls(n: nat)
    ensures var s := FirstThread();
      && Sharing(s, 16) && s.run[16] == [] && s.current == [1]
      && Sharing(Ticks(s, n), 16) && Ticks(s, n).current == [1] && Slice(Ticks(s, n)) == QUANTUM - n
  {
    var s0 := Booted(1, {});
    var s1 := Created(s0, 1, 16, None);
    var s2 := Resumed(s1, 1);
    assert s1.threads[1].state == Suspended && s2.run[16] == [1];
    FirstThreadRuns(s2);
    AloneItFalls(FirstThread(), 16, n);
  }
}
