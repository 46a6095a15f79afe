/**
 Who runs next (kernel/thread.c): what the documentation of thread_yield, thread_preempt and the wake
 functions promises about the order in which threads get the processor.
 */
module Policy {
  import opened Common
  import opened Scheduler
  import opened Scheduling

  /** u is ready to run on the processor. */
  predicate Contends(s: State, cpu: Cpu, u: Tid) {
    u in s.threads && s.threads[u].state == Ready && !s.threads[u].idle && s.threads[u].Eligible(cpu)
  }

  /** The head of queue p is chosen if it may run and nothing of higher priority contends. */
  lemma HeadIsChosen(s: State, cpu: Cpu, t: Tid)
    requires s.Leaving(cpu) && Contends(s, cpu, t)
    requires s.run[s.threads[t].priority] != [] && s.run[s.threads[t].priority][0] == t
    requires forall u :: Contends(s, cpu, u) ==> s.threads[u].priority <= s.threads[t].priority
    ensures s.QueuesKnown() && cpu < |s.idle| && s.idle[cpu] in s.threads && s.current[cpu] in s.threads
    ensures s.GetTop(cpu) == (s.Dequeue(s.threads[t].priority, 0), t)
    ensures s.Resched(cpu).current[cpu] == t
  {
    Rescheds(s, cpu);
    var p := s.threads[t].priority;
    EligibleAt(s, p, cpu, 0);
    forall q: Prio | q > p
      ensures !s.HasEligible(q, cpu)
    {
      if s.HasEligible(q, cpu) {
        assert s.RunOk(q);
        assert Contends(s, cpu, s.run[q][s.FirstEligible(s.run[q], cpu)]);
        assert false;
      }
    }
  }

  /** Nothing that is ready for the processor has a priority above p, or, if that is not enough, at p. */
  ghost predicate NothingAbove(s: State, cpu: Cpu, p: Prio, orAt: bool) {
    forall u :: Contends(s, cpu, u) ==> s.threads[u].priority < p || (!orAt && s.threads[u].priority == p)
  }

  /** If t is chosen, nothing above it contends, nor, if t is at the end of its queue, beside it. */
  lemma ChosenIsBest(s: State, cpu: Cpu, t: Tid, u: Tid)
    requires s.Leaving(cpu) && s.QueuesKnown() && Contends(s, cpu, u) && u != t && t in s.threads
    requires cpu < |s.idle| && s.idle[cpu] in s.threads && s.current[cpu] in s.threads && s.Resched(cpu).current[cpu] == t
    ensures s.threads[u].priority <= s.threads[t].priority
    ensures var q := s.run[s.threads[t].priority]; q != [] && q[|q| - 1] == t ==> s.threads[u].priority < s.threads[t].priority
  {
    PicksTheBest(s, cpu, u);
    var q := s.run[s.threads[u].priority];
    assert s.RunOk(s.threads[u].priority) && s.RunOk(s.threads[t].priority);
    LastPlace(q, t, u);
  }

  lemma LastPlace(q: seq<Tid>, t: Tid, u: Tid)
    requires Distinct(q) && u in q && u != t
    ensures q[|q| - 1] == t ==> IndexOf(q, u) < IndexOf(q, t)
  {
    if q[|q| - 1] == t {
      FirstPlace(q, |q| - 1);
      assert q[IndexOf(q, u)] == u;
    }
  }

  /** t is chosen if nothing else contends at or above its priority. */
  lemma OnlyChoice(s: State, cpu: Cpu, t: Tid)
    requires s.Leaving(cpu) && s.QueuesKnown() && Contends(s, cpu, t)
    requires forall u :: Contends(s, cpu, u) && u != t ==> s.threads[u].priority < s.threads[t].priority
    ensures cpu < |s.idle| && s.idle[cpu] in s.threads && s.current[cpu] in s.threads
    ensures s.Resched(cpu).current[cpu] == t
  {
    PicksTheBest(s, cpu, t);
    assert Contends(s, cpu, s.Resched(cpu).current[cpu]);
  }

  /** A wake that reschedules: the thread that is woken runs at once if and only if it may run on this
      processor, the caller has no higher priority, and nothing of higher priority is ready. */
  lemma WokenRunsAtOnce(s: State, cpu: Cpu, w: Qid, v: Code)
    requires s.Inv() && w in s.waits && Busy(s, cpu) && s.waits[w].list != []
    ensures s.waits[w].list[0] in s.threads
    ensures var t := s.waits[w].list[0];
      WokenOne(s, cpu, w, true, v).current[cpu] == t <==>
        && s.threads[t].Eligible(cpu)
        && s.threads[s.current[cpu]].priority <= s.threads[t].priority
        && NothingAbove(s, cpu, s.threads[t].priority, false)
  {
    var t := s.waits[w].list[0];
    assert s.WaitOk(w);
    assert s.ThreadOk(t);
    CurrentRuns(s, cpu);
    var s1 := StepAside(s, cpu, true);
    WakeKeepsWaking(s1, cpu, true, w, 0, v);
    var s2 := s1.Wake(w, 0, v);
    Rescheds(s2, cpu);
    forall u
      ensures u != t ==> (Contends(s2, cpu, u) <==> Contends(s, cpu, u) || u == s.current[cpu])
    {
    }
    if s2.Resched(cpu).current[cpu] == t {
      s2.TopIsReady(cpu);
      forall u | Contends(s, cpu, u) || u == s.current[cpu]
        ensures s.threads[u].priority <= s.threads[t].priority
      {
        ChosenIsBest(s2, cpu, t, u);
      }
    } else if s.threads[t].Eligible(cpu) && s.threads[s.current[cpu]].priority <= s.threads[t].priority
      && NothingAbove(s, cpu, s.threads[t].priority, false) {
      HeadIsChosen(s2, cpu, t);
      assert false;
    }
  }

  /** A thread that goes to the head of its run queue keeps the processor if and only if nothing of higher
      priority is ready for it, one that goes to the tail, if and only if nothing of the same either. */
  lemma KeepsIff(s: State, cpu: Cpu, end: End)
    requires s.Inv() && Busy(s, cpu)
    ensures s.GiveUp(s.current[cpu], end).Leaving(cpu) && s.GiveUp(s.current[cpu], end).QueuesKnown()
    ensures cpu < |s.idle| && s.idle[cpu] in s.threads
    ensures s.GiveUp(s.current[cpu], end).Resched(cpu).current[cpu] == s.current[cpu] <==>
      NothingAbove(s, cpu, s.threads[s.current[cpu]].priority, end.Tail?)
  {
    CurrentRuns(s, cpu);
    GivesUp(s, cpu, end);
    var t, s1 := s.current[cpu], s.GiveUp(s.current[cpu], end);
    Rescheds(s1, cpu);
    forall u
      ensures u != t ==> (Contends(s1, cpu, u) <==> Contends(s, cpu, u))
    {
    }
    assert Contends(s1, cpu, t);
    if s1.Resched(cpu).current[cpu] == t {
      forall u | Contends(s, cpu, u)
        ensures s.threads[u].priority < s.threads[t].priority || (end.Head? && s.threads[u].priority == s.threads[t].priority)
      {
        ChosenIsBest(s1, cpu, t, u);
      }
    } else if NothingAbove(s, cpu, s.threads[t].priority, end.Tail?) {
      if end.Head? {
        HeadIsChosen(s1, cpu, t);
      } else {
        OnlyChoice(s1, cpu, t);
      }
      assert false;
    }
  }

  /** thread_preempt: a thread with time left keeps the processor if and only if nothing of higher priority
      is ready, and the run queues then stay as they are; one without, only if nothing of the same is. */
  lemma PreemptionResumes(s: State, cpu: Cpu)
    requires s.Inv() && Busy(s, cpu)
    ensures var t := s.current[cpu];
      && (Preempted(s, cpu).current[cpu] == t <==> NothingAbove(s, cpu, s.threads[t].priority, s.threads[t].quantum <= 0))
      && (Preempted(s, cpu).current[cpu] == t && s.threads[t].quantum > 0 ==> Preempted(s, cpu).run == s.run)
  {
    CurrentRuns(s, cpu);
    var t := s.current[cpu];
    var end := if s.threads[t].quantum > 0 then Head else Tail;
    KeepsIff(s, cpu, end);
    if NothingAbove(s, cpu, s.threads[t].priority, false) && end.Head? {
      QueuesUnchanged(s, cpu);
    }
  }

  lemma QueuesUnchanged(s: State, cpu: Cpu)
    requires s.Inv() && Busy(s, cpu) && NothingAbove(s, cpu, s.threads[s.current[cpu]].priority, false)
    ensures s.GiveUp(s.current[cpu], Head).Leaving(cpu) && s.GiveUp(s.current[cpu], Head).QueuesKnown()
    ensures cpu < |s.idle| && s.idle[cpu] in s.threads
    ensures s.GiveUp(s.current[cpu], Head).Resched(cpu).run == s.run
  {
    CurrentRuns(s, cpu);
    GivesUp(s, cpu, Head);
    var t, s1 := s.current[cpu], s.GiveUp(s.current[cpu], Head);
    forall u | Contends(s1, cpu, u)
      ensures s1.threads[u].priority <= s1.threads[t].priority
    {
      assert u != t ==> Contends(s, cpu, u);
    }
    HeadIsChosen(s1, cpu, t);
    assert Without(s1.run[s.threads[t].priority], 0) == s.run[s.threads[t].priority];
    assert s1.Dequeue(s.threads[t].priority, 0).run == s.run;
  }

  /** thread_yield: the caller loses the processor if and only if a thread of the same or a higher priority
      is ready for it. */
  lemma YieldPasses(s: State, cpu: Cpu)
    requires s.Inv() && Busy(s, cpu)
    ensures Yielded(s, cpu).current[cpu] != s.current[cpu] <==>
      exists u :: Contends(s, cpu, u) && s.threads[u].priority >= s.threads[s.current[cpu]].priority
  {
    CurrentRuns(s, cpu);
    var t := s.current[cpu];
    Adjusts(s, cpu, 0, s.threads[t].priority);
    var s1 := s.Update(t, s.threads[t].(quantum := 0));
    KeepsIff(s1, cpu, Tail);
    forall u
      ensures Contends(s1, cpu, u) <==> Contends(s, cpu, u)
    {
    }
    assert NothingAbove(s1, cpu, s.threads[t].priority, true) <==> NothingAbove(s, cpu, s.threads[t].priority, true);
  }

  // ---- waking all -----------------------------------------------------------------------------------

  function OfPriority(s: State, list: seq<Tid>, p: Prio): seq<Tid>
    requires forall t :: t in list ==> t in s.threads
  {
    if list == [] then []
    else (if s.threads[list[0]].priority == p then [list[0]] else []) + OfPriority(s, list[1..], p)
  }

  function Reversed<T>(s: seq<T>): seq<T> {
    if s == [] then [] else Reversed(s[1..]) + [s[0]]
  }

  lemma SamePriorities(s: State, s': State, list: seq<Tid>, p: Prio)
    requires forall t :: t in list ==> t in s.threads && t in s'.threads && s'.threads[t].priority == s.threads[t].priority
    ensures OfPriority(s', list, p) == OfPriority(s, list, p)
  {
  }

  /** wait_queue_wake_all puts each thread in turn at the head of its run queue: those of one priority end
      up before all that were there, and in the reverse of the order in which they had waited. */
  lemma {:induction false} WakeAllReverses(s: State, cpu: Cpu, leaving: bool, w: Qid, v: Code, p: Prio)
    requires Waking(s, cpu, leaving) && w in s.waits
    ensures |s.run| == NUM_PRIORITIES && forall t :: t in s.waits[w].list ==> t in s.threads
    ensures |WakeList(s, cpu, leaving, w, v).run| == NUM_PRIORITIES
    ensures WakeList(s, cpu, leaving, w, v).run[p] == Reversed(OfPriority(s, s.waits[w].list, p)) + s.run[p]
    decreases |s.waits[w].list|
  {
    assert s.WaitOk(w);
    var list := s.waits[w].list;
    if list != [] {
      WakeKeepsWaking(s, cpu, leaving, w, 0, v);
      var s1 := s.Wake(w, 0, v);
      assert s1.waits[w].list == list[1..];
      WakeAllReverses(s1, cpu, leaving, w, v, p);
      SamePriorities(s, s1, list[1..], p);
      OneWoken(s, w, v, p);
      Turned(if s.threads[list[0]].priority == p then [list[0]] else [], OfPriority(s, list[1..], p), s.run[p]);
      assert WakeList(s, cpu, leaving, w, v) == WakeList(s1, cpu, leaving, w, v);
    }
  }

  lemma OneWoken(s: State, w: Qid, v: Code, p: Prio)
    requires |s.run| == NUM_PRIORITIES && w in s.waits && s.waits[w].list != [] && s.waits[w].list[0] in s.threads
    ensures s.Wake(w, 0, v).run[p] == (if s.threads[s.waits[w].list[0]].priority == p then [s.waits[w].list[0]] else []) + s.run[p]
  {
  }

  lemma Turned(first: seq<Tid>, rest: seq<Tid>, before: seq<Tid>)
    requires |first| <= 1
    ensures Reversed(rest) + (first + before) == Reversed(first + rest) + before
  {
    if first == [] {
      assert first + rest == rest && first + before == before;
    } else {
      assert (first + rest)[0] == first[0] && (first + rest)[1..] == rest;
      assert [first[0]] == first;
    }
  }
}
