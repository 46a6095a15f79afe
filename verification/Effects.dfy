/**
 What each critical section of kernel/thread.c does to the threads, to the run queues and to the processors,
 in terms of the state before it: a table of the sections, beside the steps that they are made of.
 */
module Effects {
  import opened Common
  import opened Policy
  import opened Scheduler
  import opened Scheduling

  /** The processor whose thread gives way, if the section ends in a choice. */
  function Chooses(s: State, op: Op): Option<Cpu>
    requires s.Inv() && Enabled(s, op)
  {
    match op
    case Yield(cpu) => Some(cpu)
    case Preempt(cpu) => Some(cpu)
    case Tick(cpu) => CurrentRuns(s, cpu); if Sliced(s, cpu) && s.threads[s.current[cpu]].quantum <= 1 then Some(cpu) else None
    case SetPriority(cpu, _) => Some(cpu)
    case Sleep(cpu) => Some(cpu)
    case Block(cpu, _) => Some(cpu)
    case WakeOne(cpu, w, reschedule, _) => if reschedule && s.waits[w].list != [] then Some(cpu) else None
    case WakeAll(cpu, w, reschedule, _) => if reschedule && s.waits[w].list != [] then Some(cpu) else None
    case _ => None
  }

  /** The current thread has time slices. */
  predicate Sliced(s: State, cpu: Cpu)
    requires s.Inv() && cpu < |s.current|
  {
    CurrentRuns(s, cpu);
    !s.threads[s.current[cpu]].realTime && !s.threads[s.current[cpu]].idle
  }

  /** The result of the wait that the section ends for t. */
  function WokenWith(s: State, op: Op, t: Tid): Option<Code>
    requires s.Inv() && Enabled(s, op)
  {
    match op
    case WakeOne(_, w, _, v) => if s.waits[w].list != [] && s.waits[w].list[0] == t then Some(v) else None
    case WakeAll(_, w, _, v) => if t in s.waits[w].list then Some(v) else None
    case Timeout(u) => if u == t && s.threads[t].state == Blocked then Some(ERR_TIMED_OUT) else None
    case _ => None
  }

  /** Thread t before the choice. */
  function Prepared(s: State, op: Op, t: Tid): Thread
    requires s.Inv() && Enabled(s, op) && (t in s.threads || op.Create?)
  {
    if op.Create? then
      if t == op.t || t !in s.threads then Thread(op.initial, Suspended, 0, false, false, None, op.pinned, None, NO_ERROR)
      else s.threads[t]
    else
      var th := s.threads[t];
      if WokenWith(s, op, t).Some? then th.(state := Ready, waitingOn := None, blockRet := WokenWith(s, op, t).value)
      else
        match op
        case SetRealTime(u) => if t == u then th.(realTime := true) else th
        case Resume(u) => if t == u && th.state == Suspended then th.(state := Ready) else th
        case SleepOver(u) => if t == u then th.(state := Ready) else th
        case Tick(cpu) =>
          if t == s.current[cpu] && Sliced(s, cpu) then
            th.(quantum := th.quantum - 1, state := if th.quantum <= 1 then Ready else Running)
          else th
        case Yield(cpu) => if t == s.current[cpu] then th.(state := Ready, quantum := 0) else th
        case SetPriority(cpu, p) =>
          if t == s.current[cpu] then th.(state := Ready, priority := if p < 1 then 1 else if p > 31 then 31 else p) else th
        case Sleep(cpu) => if t == s.current[cpu] then th.(state := Sleeping) else th
        case Block(cpu, w) => if t == s.current[cpu] then th.(state := Blocked, waitingOn := Some(w), blockRet := NO_ERROR) else th
        case Preempt(cpu) => if t == s.current[cpu] then th.(state := Ready) else th
        case WakeOne(cpu, w, reschedule, _) =>
          if reschedule && s.waits[w].list != [] && t == s.current[cpu] then th.(state := Ready) else th
        case WakeAll(cpu, w, reschedule, _) =>
          if reschedule && s.waits[w].list != [] && t == s.current[cpu] then th.(state := Ready) else th
        case _ => th
  }

  /** t, if it is to stand in run queue p. */
  function At(s: State, t: Tid, p: Prio): seq<Tid>
    requires t in s.threads
  {
    if s.threads[t].priority == p then [t] else []
  }

  lemma InLists(s: State)
    requires s.Inv()
    ensures forall w, t :: w in s.waits && t in s.waits[w].list ==> t in s.threads
    ensures forall cpu: Cpu :: cpu < |s.current| ==> s.current[cpu] in s.threads
    ensures |s.run| == NUM_PRIORITIES
  {
    forall w, t | w in s.waits && t in s.waits[w].list
      ensures t in s.threads
    {
      assert s.WaitOk(w);
    }
    forall cpu: Cpu | cpu < |s.current|
      ensures s.current[cpu] in s.threads
    {
      CurrentRuns(s, cpu);
    }
  }

  /** Those that enter run queue p at its head, in their order there. */
  function Front(s: State, op: Op, p: Prio): seq<Tid>
    requires s.Inv() && Enabled(s, op)
  {
    InLists(s);
    match op
    case Resume(t) => if s.threads[t].state == Suspended then At(s, t, p) else []
    case SleepOver(t) => At(s, t, p)
    case Timeout(t) => if s.threads[t].state == Blocked then At(s, t, p) else []
    case Preempt(cpu) =>
      if !s.threads[s.current[cpu]].idle && s.threads[s.current[cpu]].quantum > 0 then At(s, s.current[cpu], p) else []
    case SetPriority(cpu, n) => if p == (if n < 1 then 1 else if n > 31 then 31 else n) then [s.current[cpu]] else []
    case WakeOne(cpu, w, reschedule, _) =>
      if s.waits[w].list == [] then []
      else At(s, s.waits[w].list[0], p) + if reschedule then At(s, s.current[cpu], p) else []
    case WakeAll(cpu, w, reschedule, _) =>
      Reversed(OfPriority(s, s.waits[w].list, p)) + if reschedule && s.waits[w].list != [] then At(s, s.current[cpu], p) else []
    case _ => []
  }

  /** Those that enter it at its tail. */
  function Back(s: State, op: Op, p: Prio): seq<Tid>
    requires s.Inv() && Enabled(s, op)
  {
    InLists(s);
    match op
    case Yield(cpu) => if !s.threads[s.current[cpu]].idle then At(s, s.current[cpu], p) else []
    case Preempt(cpu) =>
      if !s.threads[s.current[cpu]].idle && s.threads[s.current[cpu]].quantum <= 0 then At(s, s.current[cpu], p) else []
    case Tick(cpu) => if Chooses(s, op).Some? then At(s, s.current[cpu], p) else []
    case _ => []
  }

  /** Run queue p before the choice. */
  function Lined(s: State, op: Op, p: Prio): seq<Tid>
    requires s.Inv() && Enabled(s, op)
  {
    InLists(s);
    Front(s, op, p) + s.run[p] + Back(s, op, p)
  }

  // ---- the choice ---------------------------------------------------------------------------------

  /** q without x. */
  function Except(q: seq<Tid>, x: Tid): seq<Tid> {
    if x in q then Without(q, IndexOf(q, x)) else q
  }

  /** Thread t, prepared as th, when `next` takes over from `prev`: a quantum is renewed for a thread that takes
      over and has none left. */
  function Switched(th: Thread, t: Tid, cpu: Cpu, prev: Tid, next: Tid): Thread {
    if t == next then
      th.(state := Running, quantum := if next != prev && th.quantum <= 0 then 5 else th.quantum, currCpu := Some(cpu))
    else if t == prev then th.(currCpu := None)
    else th
  }

  /** The choice itself: the first eligible of the highest priority that has one, or the idle thread. */
  ghost predicate FirstOf(run: seq<seq<Tid>>, threads: map<Tid, Thread>, cpu: Cpu, idle: Tid, next: Tid) {
    && |run| == NUM_PRIORITIES
    && (next == idle || exists q: Prio :: next in run[q])
    && forall p: Prio, i: nat {:trigger Candidate(run, threads, cpu, p, i)} :: Candidate(run, threads, cpu, p, i) ==>
         exists q: Prio :: q >= p && next in run[q] && (q == p ==> IndexOf(run[q], next) <= i)
  }

  predicate Candidate(run: seq<seq<Tid>>, threads: map<Tid, Thread>, cpu: Cpu, p: Prio, i: nat) {
    |run| == NUM_PRIORITIES && i < |run[p]| && run[p][i] in threads && threads[run[p][i]].Eligible(cpu)
  }

  /** thread_resched, for every thread and every queue. */
  lemma ReschedThread(s: State, cpu: Cpu, t: Tid)
    requires s.Leaving(cpu) && t in s.threads
    ensures s.QueuesKnown() && cpu < |s.idle| && s.idle[cpu] in s.threads && s.current[cpu] in s.threads
    ensures var s', next := s.Resched(cpu), s.Resched(cpu).current[cpu];
      && s'.threads.Keys == s.threads.Keys && next in s.threads
      && s'.threads[t] == Switched(s.threads[t], t, cpu, s.current[cpu], next)
      && s'.current == s.current[cpu := next] && s'.idle == s.idle
  {
    Rescheds(s, cpu);
    s.TopIsReady(cpu);
    assert s.CpuOk(cpu);
  }

  lemma ReschedQueue(s: State, cpu: Cpu, p: Prio)
    requires s.Leaving(cpu)
    ensures s.QueuesKnown() && cpu < |s.idle| && s.idle[cpu] in s.threads && s.current[cpu] in s.threads
    ensures s.Resched(cpu).run[p] == Except(s.run[p], s.Resched(cpu).current[cpu])
  {
    Rescheds(s, cpu);
    s.TopIsReady(cpu);
    var next, top := s.GetTop(cpu).1, s.TopPriority(cpu, NUM_PRIORITIES);
    assert s.RunOk(p);
    if top.Some? {
      assert s.RunOk(top.value);
      FirstPlace(s.run[top.value], s.FirstEligible(s.run[top.value], cpu));
    } else {
      assert s.CpuOk(cpu);
    }
  }

  lemma ReschedChoice(s: State, cpu: Cpu)
    requires s.Leaving(cpu)
    ensures s.QueuesKnown() && cpu < |s.idle| && s.idle[cpu] in s.threads && s.current[cpu] in s.threads
    ensures FirstOf(s.run, s.threads, cpu, s.idle[cpu], s.Resched(cpu).current[cpu])
  {
    Rescheds(s, cpu);
    s.TopIsReady(cpu);
    var next, top := s.GetTop(cpu).1, s.TopPriority(cpu, NUM_PRIORITIES);
    forall p: Prio, i: nat | Candidate(s.run, s.threads, cpu, p, i)
      ensures exists q: Prio :: q >= p && next in s.run[q] && (q == p ==> IndexOf(s.run[q], next) <= i)
    {
      EligibleAt(s, p, cpu, i);
      assert s.RunOk(top.value);
      FirstPlace(s.run[top.value], s.FirstEligible(s.run[top.value], cpu));
      assert top.value >= p && next in s.run[top.value];
    }
  }

  // ---- the sections -------------------------------------------------------------------------------

  /** s1 is the state of the section just before the choice. */
  ghost predicate Staged(s: State, op: Op, s1: State)
    requires s.Inv() && Enabled(s, op)
  {
    && s1.current == s.current && s1.idle == s.idle && |s1.run| == NUM_PRIORITIES
    && s1.threads.Keys == s.threads.Keys + (if op.Create? then {op.t} else {})
    && (forall t :: t in s1.threads ==> s1.threads[t] == Prepared(s, op, t))
    && (forall p: Prio :: s1.run[p] == Lined(s, op, p))
  }

  lemma StageYield(s: State, cpu: Cpu) returns (s1: State)
    requires s.Inv() && cpu < |s.current|
    ensures s1.Leaving(cpu) && Staged(s, Yield(cpu), s1)
    ensures s1.QueuesKnown() && cpu < |s1.idle| && s1.idle[cpu] in s1.threads && s1.current[cpu] in s1.threads
    ensures Yielded(s, cpu) == s1.Resched(cpu)
  {
    CurrentRuns(s, cpu);
    var t := s.current[cpu];
    var s0 := s.Update(t, s.threads[t].(quantum := 0));
    Adjusts(s, cpu, 0, s.threads[t].priority);
    GivesUp(s0, cpu, Tail);
    s1 := s0.GiveUp(t, Tail);
    Rescheds(s1, cpu);
    forall p: Prio
      ensures s1.run[p] == Lined(s, Yield(cpu), p)
    {
    }
  }

  lemma StagePreempt(s: State, cpu: Cpu) returns (s1: State)
    requires s.Inv() && cpu < |s.current|
    ensures s1.Leaving(cpu) && Staged(s, Preempt(cpu), s1)
    ensures s1.QueuesKnown() && cpu < |s1.idle| && s1.idle[cpu] in s1.threads && s1.current[cpu] in s1.threads
    ensures Preempted(s, cpu) == s1.Resched(cpu)
  {
    CurrentRuns(s, cpu);
    var t := s.current[cpu];
    var end := if s.threads[t].quantum > 0 then Head else Tail;
    GivesUp(s, cpu, end);
    s1 := s.GiveUp(t, end);
    Rescheds(s1, cpu);
    forall p: Prio
      ensures s1.run[p] == Lined(s, Preempt(cpu), p)
    {
    }
  }

  /** The end of a slice is a preemption with the quantum used up. */
  lemma TickAsPreempt(s: State, cpu: Cpu, t: Tid, p: Prio)
    requires s.Inv() && cpu < |s.current| && Chooses(s, Tick(cpu)).Some? && t in s.threads
    ensures Prepared(Shortened(s, cpu), Preempt(cpu), t) == Prepared(s, Tick(cpu), t)
    ensures Lined(Shortened(s, cpu), Preempt(cpu), p) == Lined(s, Tick(cpu), p)
  {
    CurrentRuns(s, cpu);
  }

  lemma StageTickOver(s: State, cpu: Cpu) returns (s1: State)
    requires s.Inv() && cpu < |s.current| && Chooses(s, Tick(cpu)).Some?
    ensures s1.Leaving(cpu) && Staged(s, Tick(cpu), s1)
    ensures s1.QueuesKnown() && cpu < |s1.idle| && s1.idle[cpu] in s1.threads && s1.current[cpu] in s1.threads
    ensures Ticked(s, cpu) == s1.Resched(cpu)
  {
    var s0 := Shortened(s, cpu);
    CurrentRuns(s, cpu);
    s1 := StagePreempt(s0, cpu);
    forall u | u in s1.threads
      ensures s1.threads[u] == Prepared(s, Tick(cpu), u)
    {
      TickAsPreempt(s, cpu, u, 0);
    }
    forall p: Prio
      ensures s1.run[p] == Lined(s, Tick(cpu), p)
    {
      TickAsPreempt(s, cpu, s.current[cpu], p);
    }
  }

  lemma StageTickWithin(s: State, cpu: Cpu)
    requires s.Inv() && cpu < |s.current| && Chooses(s, Tick(cpu)).None?
    ensures Staged(s, Tick(cpu), Ticked(s, cpu))
  {
    CurrentRuns(s, cpu);
    assert Ticked(s, cpu) == Shortened(s, cpu);
    forall p: Prio
      ensures Ticked(s, cpu).run[p] == Lined(s, Tick(cpu), p)
    {
    }
  }

  /** The current thread, once it has its new priority, in its new queue. */
  function Requeued(s: State, cpu: Cpu, n: int): State
    requires s.Inv() && Busy(s, cpu)
  {
    CurrentRuns(s, cpu);
    var t := s.current[cpu];
    s.Update(t, s.threads[t].(priority := Clamped(n))).MakeReady(t, Head)
  }

  lemma RequeuedThread(s: State, cpu: Cpu, n: int, t: Tid)
    requires s.Inv() && Busy(s, cpu) && t in s.threads
    ensures t in Requeued(s, cpu, n).threads && Requeued(s, cpu, n).threads[t] == Prepared(s, SetPriority(cpu, n), t)
  {
  }

  lemma RequeuedQueue(s: State, cpu: Cpu, n: int, p: Prio)
    requires s.Inv() && Busy(s, cpu)
    ensures Requeued(s, cpu, n).run[p] == Lined(s, SetPriority(cpu, n), p)
  {
  }

  lemma StageSetPriority(s: State, cpu: Cpu, n: int) returns (s1: State)
    requires s.Inv() && Busy(s, cpu)
    ensures s1.Leaving(cpu) && Staged(s, SetPriority(cpu, n), s1)
    ensures s1.QueuesKnown() && cpu < |s1.idle| && s1.idle[cpu] in s1.threads && s1.current[cpu] in s1.threads
    ensures Reprioritised(s, cpu, n) == s1.Resched(cpu)
  {
    CurrentRuns(s, cpu);
    Adjusts(s, cpu, s.threads[s.current[cpu]].quantum, Clamped(n));
    s1 := Requeued(s, cpu, n);
    GivesUp(s.Update(s.current[cpu], s.threads[s.current[cpu]].(priority := Clamped(n))), cpu, Head);
    Rescheds(s1, cpu);
    forall t | t in s1.threads
      ensures s1.threads[t] == Prepared(s, SetPriority(cpu, n), t)
    {
      RequeuedThread(s, cpu, n, t);
    }
    forall p: Prio
      ensures s1.run[p] == Lined(s, SetPriority(cpu, n), p)
    {
      RequeuedQueue(s, cpu, n, p);
    }
  }

  lemma StageSleep(s: State, cpu: Cpu) returns (s1: State)
    requires s.Inv() && Busy(s, cpu)
    ensures s1.Leaving(cpu) && Staged(s, Sleep(cpu), s1)
    ensures s1.QueuesKnown() && cpu < |s1.idle| && s1.idle[cpu] in s1.threads && s1.current[cpu] in s1.threads
    ensures FellAsleep(s, cpu) == s1.Resched(cpu)
  {
    CurrentRuns(s, cpu);
    var t := s.current[cpu];
    s1 := s.Update(t, s.threads[t].(state := Sleeping));
    s.UpdateKeeps(t, s.threads[t].(state := Sleeping));
    StartsLeaving(s, s1, cpu);
    Rescheds(s1, cpu);
    assert forall p: Prio :: s1.run[p] == Lined(s, Sleep(cpu), p);
  }

  lemma StageBlock(s: State, cpu: Cpu, w: Qid) returns (s1: State)
    requires s.Inv() && Busy(s, cpu) && w in s.waits
    ensures s1.Leaving(cpu) && Staged(s, Block(cpu, w), s1)
    ensures s1.QueuesKnown() && cpu < |s1.idle| && s1.idle[cpu] in s1.threads && s1.current[cpu] in s1.threads
    ensures WentToWait(s, cpu, w) == s1.Resched(cpu)
  {
    CurrentRuns(s, cpu);
    var t := s.current[cpu];
    s.JoinWaitKeeps(t, w);
    s1 := s.JoinWait(t, w);
    StartsLeaving(s, s1, cpu);
    Rescheds(s1, cpu);
    assert forall p: Prio :: s1.run[p] == Lined(s, Block(cpu, w), p);
  }

  // ---- wakes ----------------------------------------------------------------------------------------

  lemma WakeOneQueue(s: State, cpu: Cpu, w: Qid, reschedule: bool, v: Code, p: Prio)
    requires s.Inv() && Enabled(s, WakeOne(cpu, w, reschedule, v)) && s.waits[w].list != []
    ensures s.waits[w].list[0] in StepAside(s, cpu, reschedule).threads && |StepAside(s, cpu, reschedule).run| == NUM_PRIORITIES
    ensures StepAside(s, cpu, reschedule).Wake(w, 0, v).run[p] == Lined(s, WakeOne(cpu, w, reschedule, v), p)
  {
    InLists(s);
  }

  lemma StageWakeOne(s: State, cpu: Cpu, w: Qid, reschedule: bool, v: Code) returns (s1: State)
    requires s.Inv() && Enabled(s, WakeOne(cpu, w, reschedule, v)) && s.waits[w].list != []
    ensures Staged(s, WakeOne(cpu, w, reschedule, v), s1) && Waking(s1, cpu, reschedule)
    ensures WokenOne(s, cpu, w, reschedule, v) == Settle(s1, cpu, reschedule)
  {
    assert s.WaitOk(w);
    CurrentRuns(s, cpu);
    var s0 := StepAside(s, cpu, reschedule);
    WakeKeepsWaking(s0, cpu, reschedule, w, 0, v);
    s1 := s0.Wake(w, 0, v);
    forall p: Prio
      ensures s1.run[p] == Lined(s, WakeOne(cpu, w, reschedule, v), p)
    {
      WakeOneQueue(s, cpu, w, reschedule, v, p);
    }
  }

  /** The loop of wait_queue_wake_all, for each thread. */
  lemma {:induction false} WakeListThread(s: State, cpu: Cpu, leaving: bool, w: Qid, v: Code, t: Tid)
    requires Waking(s, cpu, leaving) && w in s.waits && t in s.threads
    ensures var s' := WakeList(s, cpu, leaving, w, v);
      && s'.threads.Keys == s.threads.Keys && s'.idle == s.idle
      && s'.threads[t] == if t in s.waits[w].list then s.threads[t].(state := Ready, waitingOn := None, blockRet := v) else s.threads[t]
    decreases |s.waits[w].list|
  {
    var list := s.waits[w].list;
    assert s.WaitOk(w);
    if list != [] {
      WakeKeepsWaking(s, cpu, leaving, w, 0, v);
      WithoutMember(list, 0, t);
      WakeListThread(s.Wake(w, 0, v), cpu, leaving, w, v, t);
    }
  }

  lemma WakeAllQueue(s: State, cpu: Cpu, w: Qid, reschedule: bool, v: Code, p: Prio)
    requires s.Inv() && Enabled(s, WakeAll(cpu, w, reschedule, v))
    ensures var leaving := reschedule && s.waits[w].list != [];
      |WakeList(StepAside(s, cpu, leaving), cpu, leaving, w, v).run| == NUM_PRIORITIES
      && WakeList(StepAside(s, cpu, leaving), cpu, leaving, w, v).run[p] == Lined(s, WakeAll(cpu, w, reschedule, v), p)
  {
    var list := s.waits[w].list;
    var leaving := reschedule && list != [];
    InLists(s);
    var s0 := StepAside(s, cpu, leaving);
    WakeAllReverses(s0, cpu, leaving, w, v, p);
    SamePriorities(s, s0, list, p);
    assert s0.run[p] == (if leaving then At(s, s.current[cpu], p) else []) + s.run[p];
    Regroup(Reversed(OfPriority(s, list, p)), if leaving then At(s, s.current[cpu], p) else [], s.run[p]);
  }

  lemma StageWakeAll(s: State, cpu: Cpu, w: Qid, reschedule: bool, v: Code) returns (s1: State)
    requires s.Inv() && Enabled(s, WakeAll(cpu, w, reschedule, v))
    ensures Staged(s, WakeAll(cpu, w, reschedule, v), s1) && Waking(s1, cpu, reschedule && s.waits[w].list != [])
    ensures WokenAll(s, cpu, w, reschedule, v) == Settle(s1, cpu, reschedule && s.waits[w].list != [])
  {
    assert s.WaitOk(w);
    CurrentRuns(s, cpu);
    var leaving := reschedule && s.waits[w].list != [];
    var s0 := StepAside(s, cpu, leaving);
    s1 := WakeList(s0, cpu, leaving, w, v);
    WakeListThread(s0, cpu, leaving, w, v, s.current[cpu]);
    forall t | t in s1.threads
      ensures s1.threads[t] == Prepared(s, WakeAll(cpu, w, reschedule, v), t)
    {
      WakeListThread(s0, cpu, leaving, w, v, t);
    }
    forall p: Prio
      ensures |s1.run| == NUM_PRIORITIES && s1.run[p] == Lined(s, WakeAll(cpu, w, reschedule, v), p)
    {
      WakeAllQueue(s, cpu, w, reschedule, v, p);
    }
  }

  lemma Regroup(a: seq<Tid>, b: seq<Tid>, c: seq<Tid>)
    ensures a + (b + c) == a + b + c + []
  {
  }

  lemma StageOther(s: State, op: Op)
    requires s.Inv() && Enabled(s, op) && (op.Create? || op.SetRealTime? || op.Resume? || op.SleepOver? || op.Timeout?)
    ensures Staged(s, op, After(s, op))
  {
    InLists(s);
    if op.Timeout? && s.threads[op.t].state == Blocked {
      assert s.ThreadOk(op.t);
    }
    forall p: Prio
      ensures After(s, op).run[p] == Lined(s, op, p)
    {
    }
  }

  // ---- the effect -----------------------------------------------------------------------------------

  /** The state before the choice, if the section ends in one, or else the state that it leads to. */
  lemma Stage(s: State, op: Op) returns (s1: State)
    requires s.Inv() && Enabled(s, op)
    ensures Staged(s, op, s1)
    ensures Chooses(s, op).None? ==> After(s, op) == s1
    ensures Chooses(s, op).Some? ==>
      var cpu := Chooses(s, op).value;
      && s1.Leaving(cpu) && s1.QueuesKnown() && cpu < |s1.idle| && s1.idle[cpu] in s1.threads && s1.current[cpu] in s1.threads
      && After(s, op) == s1.Resched(cpu)
  {
    match op
    case Yield(cpu) => s1 := StageYield(s, cpu);
    case Preempt(cpu) => s1 := StagePreempt(s, cpu);
    case Tick(cpu) =>
      if Chooses(s, op).Some? {
        s1 := StageTickOver(s, cpu);
      } else {
        StageTickWithin(s, cpu);
        s1 := After(s, op);
      }
    case SetPriority(cpu, n) => s1 := StageSetPriority(s, cpu, n);
    case Sleep(cpu) => s1 := StageSleep(s, cpu);
    case Block(cpu, w) => s1 := StageBlock(s, cpu, w);
    case WakeOne(cpu, w, reschedule, v) =>
      if s.waits[w].list == [] {
        s1 := s;
        NothingStaged(s, op);
      } else {
        s1 := StageWakeOne(s, cpu, w, reschedule, v);
        if reschedule { Rescheds(s1, cpu); }
      }
    case WakeAll(cpu, w, reschedule, v) =>
      s1 := StageWakeAll(s, cpu, w, reschedule, v);
      if Chooses(s, op).Some? { Rescheds(s1, cpu); }
    case _ =>
      s1 := After(s, op);
      StageOther(s, op);
  }

  lemma NothingStaged(s: State, op: Op)
    requires s.Inv() && Enabled(s, op) && op.WakeOne? && s.waits[op.w].list == []
    ensures Staged(s, op, s)
  {
    InLists(s);
  }

  /** s' has what the table says of t, and what the choice does to the two threads that it concerns. */
  predicate Effect(s: State, op: Op, t: Tid, s': State)
    requires s.Inv() && Enabled(s, op) && (t in s.threads || (op.Create? && t == op.t))
  {
    && t in s'.threads
    && match Chooses(s, op)
       case None => s'.current == s.current && s'.threads[t] == Prepared(s, op, t)
       case Some(cpu) =>
         && |s'.current| == |s.current| && s'.current == s.current[cpu := s'.current[cpu]]
         && s'.threads[t] == Switched(Prepared(s, op, t), t, cpu, s.current[cpu], s'.current[cpu])
  }

  /** What a section does to a thread. */
  lemma ThreadEffect(s: State, op: Op, t: Tid)
    requires s.Inv() && Enabled(s, op) && (t in s.threads || (op.Create? && t == op.t))
    ensures Effect(s, op, t, After(s, op))
  {
    var s1 := Stage(s, op);
    if Chooses(s, op).Some? {
      ReschedThread(s1, Chooses(s, op).value, t);
    }
  }

  /** What it does to a run queue: those that enter stand at its head or tail as the table says, and the
      chosen one is taken out. */
  lemma QueueEffect(s: State, op: Op, p: Prio)
    requires s.Inv() && Enabled(s, op)
    ensures match Chooses(s, op)
      case None => After(s, op).run[p] == Lined(s, op, p)
      case Some(cpu) => cpu < |After(s, op).current| && After(s, op).run[p] == Except(Lined(s, op, p), After(s, op).current[cpu])
  {
    var s1 := Stage(s, op);
    if Chooses(s, op).Some? {
      ReschedQueue(s1, Chooses(s, op).value, p);
      ReschedThread(s1, Chooses(s, op).value, s1.current[Chooses(s, op).value]);
    }
  }

  /** Whom it chooses: the first eligible thread in the queue of the highest priority that has one. */
  lemma ChoiceEffect(s: State, op: Op) returns (run: seq<seq<Tid>>)
    requires s.Inv() && Enabled(s, op) && Chooses(s, op).Some?
    ensures |run| == NUM_PRIORITIES && forall p: Prio :: run[p] == Lined(s, op, p)
    ensures var cpu := Chooses(s, op).value;
      && cpu < |After(s, op).current| && cpu < |s.idle|
      && FirstOf(run, s.threads, cpu, s.idle[cpu], After(s, op).current[cpu])
  {
    var s1 := Stage(s, op);
    var cpu := Chooses(s, op).value;
    ReschedChoice(s1, cpu);
    ReschedThread(s1, cpu, s1.current[cpu]);
    run := s1.run;
    SameEligible(s, op, s1, cpu, After(s, op).current[cpu]);
  }

  lemma SameEligible(s: State, op: Op, s1: State, cpu: Cpu, next: Tid)
    requires s.Inv() && Enabled(s, op) && Chooses(s, op).Some? && Staged(s, op, s1)
    requires cpu < |s.idle| && FirstOf(s1.run, s1.threads, cpu, s.idle[cpu], next)
    ensures FirstOf(s1.run, s.threads, cpu, s.idle[cpu], next)
  {
    forall p: Prio, i: nat | Candidate(s1.run, s.threads, cpu, p, i)
      ensures Candidate(s1.run, s1.threads, cpu, p, i)
    {
      assert s1.threads[s1.run[p][i]] == Prepared(s, op, s1.run[p][i]);
    }
  }

  /** A wake without rescheduling puts the thread ahead of all that are ready at its priority; at the end of
      them, as event_signal documents, it stands if and only if there are none. */
  lemma WokenAhead(s: State, cpu: Cpu, w: Qid, v: Code)
    requires s.Inv() && Enabled(s, WakeOne(cpu, w, false, v)) && s.waits[w].list != []
    ensures var t := s.waits[w].list[0];
      && t in s.threads
      && var p := s.threads[t].priority; var s' := After(s, WakeOne(cpu, w, false, v));
         && |s.run| == |s'.run| == NUM_PRIORITIES && s'.run[p] == [t] + s.run[p]
         && (s'.run[p] == s.run[p] + [t] <==> s.run[p] == [])
  {
    InLists(s);
    var t := s.waits[w].list[0];
    assert s.WaitOk(w);
    var p := s.threads[t].priority;
    assert s.RunOk(p);
    QueueEffect(s, WakeOne(cpu, w, false, v), p);
    assert After(s, WakeOne(cpu, w, false, v)).run[p] == [t] + s.run[p];
    if s.run[p] != [] {
      assert s.run[p][0] in s.run[p];
      assert ([t] + s.run[p])[0] == t && (s.run[p] + [t])[0] == s.run[p][0];
    }
  }

  // ---- quanta -----------------------------------------------------------------------------------------

  /** The section is a tick or a yield of t itself. */
  predicate Spends(s: State, op: Op, t: Tid)
    requires s.Inv() && Enabled(s, op)
  {
    match op
    case Tick(cpu) => s.current[cpu] == t && Sliced(s, cpu)
    case Yield(cpu) => s.current[cpu] == t
    case _ => false
  }

  /** What is left to t of its quantum after that. */
  function Left(s: State, op: Op, t: Tid): int
    requires s.Inv() && Enabled(s, op) && t in s.threads
  {
    if !Spends(s, op, t) then s.threads[t].quantum else if op.Tick? then s.threads[t].quantum - 1 else 0
  }

  /** t becomes current where it was not. */
  predicate TakesOver(s: State, op: Op, t: Tid, s': State)
    requires s.Inv() && Enabled(s, op)
  {
    match Chooses(s, op)
    case None => false
    case Some(cpu) => cpu < |s'.current| && s'.current[cpu] == t && s.current[cpu] != t
  }

  lemma PreparedQuantum(s: State, op: Op, t: Tid)
    requires s.Inv() && Enabled(s, op) && t in s.threads
    ensures Prepared(s, op, t).quantum == Left(s, op, t)
  {
  }

  lemma QuantumIs(s: State, op: Op, t: Tid, s': State)
    requires s.Inv() && Enabled(s, op) && t in s.threads && Effect(s, op, t, s')
    ensures s'.threads[t].quantum == if TakesOver(s, op, t, s') && Left(s, op, t) <= 0 then 5 else Left(s, op, t)
  {
    PreparedQuantum(s, op, t);
  }

  /** A thread loses quantum only by its own ticks and yields, and it is given 5 only when it takes over with
      none left. */
  lemma QuantumStep(s: State, op: Op, t: Tid)
    requires s.Inv() && Enabled(s, op) && t in s.threads
    ensures t in After(s, op).threads
    ensures After(s, op).threads[t].quantum ==
      if TakesOver(s, op, t, After(s, op)) && Left(s, op, t) <= 0 then 5 else Left(s, op, t)
  {
    ThreadEffect(s, op, t);
    QuantumIs(s, op, t, After(s, op));
  }

  ghost predicate NeverSpends(s: State, ops: seq<Op>, t: Tid)
    requires s.Inv() && CanRun(s, ops)
    decreases |ops|
  {
    ops != [] ==> !Spends(s, ops[0], t) && NeverSpends(After(s, ops[0]), ops[1..], t)
  }

  /** A thread that is preempted, blocks or sleeps with quantum left goes on, however much later and on
      whatever processor, with what it had left. */
  lemma {:induction false} QuantumKept(s: State, ops: seq<Op>, t: Tid)
    requires s.Inv() && CanRun(s, ops) && t in s.threads && s.threads[t].quantum > 0 && NeverSpends(s, ops, t)
    ensures t in Run(s, ops).threads && Run(s, ops).threads[t].quantum == s.threads[t].quantum
    decreases |ops|
  {
    if ops != [] {
      QuantumStep(s, ops[0], t);
      QuantumKept(After(s, ops[0]), ops[1..], t);
    }
  }

  // ---- settings ---------------------------------------------------------------------------------------

  /** The settings of a thread: those that it was created with, until its own thread_set_priority, which clamps
      to 1..31, or until it is made a real-time thread. */
  predicate Settings(s: State, op: Op, t: Tid, th: Thread)
    requires s.Inv() && Enabled(s, op) && (t in s.threads || (op.Create? && op.t == t))
  {
    if op.Create? && op.t == t then
      th.priority == op.initial && th.pinnedCpu == op.pinned && !th.realTime && !th.idle
    else
      && th.pinnedCpu == s.threads[t].pinnedCpu && th.idle == s.threads[t].idle
      && th.realTime == (s.threads[t].realTime || op == SetRealTime(t))
      && th.priority == if op.SetPriority? && s.current[op.cpu] == t
           then (if op.priority < 1 then 1 else if op.priority > 31 then 31 else op.priority)
           else s.threads[t].priority
  }

  lemma PreparedSettings(s: State, op: Op, t: Tid)
    requires s.Inv() && Enabled(s, op) && (t in s.threads || (op.Create? && op.t == t))
    ensures Settings(s, op, t, Prepared(s, op, t))
  {
  }

  lemma SettingsAre(s: State, op: Op, t: Tid, s': State)
    requires s.Inv() && Enabled(s, op) && (t in s.threads || (op.Create? && op.t == t)) && Effect(s, op, t, s')
    ensures Settings(s, op, t, s'.threads[t])
  {
    PreparedSettings(s, op, t);
  }

  lemma SettingsStep(s: State, op: Op, t: Tid)
    requires s.Inv() && Enabled(s, op) && (t in s.threads || (op.Create? && op.t == t))
    ensures t in After(s, op).threads && Settings(s, op, t, After(s, op).threads[t])
  {
    ThreadEffect(s, op, t);
    SettingsAre(s, op, t, After(s, op));
  }
}
