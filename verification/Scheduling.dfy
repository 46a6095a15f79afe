/**
 The critical sections of kernel/thread.c, each one step between consistent states, and what holds
 in every state that any sequence of them leads to.
 */
module Scheduling {
  import opened Common
  import opened Scheduler

  /** What runs under thread_lock: calls by the current thread of a processor, the preemption tick
      and the preemption on return from an interrupt, and the handlers of two kinds of timers. */
  datatype Op =
    | Create(t: Tid, initial: Prio, pinned: Option<Cpu>)
    | SetRealTime(t: Tid)
    | Resume(t: Tid)
    | Yield(cpu: Cpu)
    | Preempt(cpu: Cpu)
    | Tick(cpu: Cpu)
    | SetPriority(cpu: Cpu, priority: int)
    | Sleep(cpu: Cpu)
    | SleepOver(t: Tid)
    | Block(cpu: Cpu, w: Qid)
    | WakeOne(cpu: Cpu, w: Qid, reschedule: bool, code: Code)
    | WakeAll(cpu: Cpu, w: Qid, reschedule: bool, code: Code)
    | Timeout(t: Tid)

  /** What the code takes for granted. The idle thread neither blocks nor changes its priority. */
  predicate Enabled(s: State, op: Op) {
    match op
    case Create(t, _, _) => t !in s.threads
    case SetRealTime(t) => t in s.threads
    case Resume(t) => t in s.threads
    case Yield(cpu) => cpu < |s.current|
    case Preempt(cpu) => cpu < |s.current|
    case Tick(cpu) => cpu < |s.current|
    case SetPriority(cpu, _) => Busy(s, cpu)
    case Sleep(cpu) => Busy(s, cpu)
    case SleepOver(t) => t in s.threads && s.threads[t].state == Sleeping
    case Block(cpu, w) => Busy(s, cpu) && w in s.waits
    case WakeOne(cpu, w, reschedule, _) => w in s.waits && cpu < |s.current| && (reschedule ==> Busy(s, cpu))
    case WakeAll(cpu, w, reschedule, _) => w in s.waits && cpu < |s.current| && (reschedule ==> Busy(s, cpu))
    case Timeout(t) => t in s.threads
  }

  predicate Busy(s: State, cpu: Cpu) {
    cpu < |s.current| && s.current[cpu] in s.threads && !s.threads[s.current[cpu]].idle
  }

  /** Once the idle thread of every processor runs: thread_become_idle, thread_secondary_cpu_entry. */
  function Booted(cpus: nat, queues: set<Qid>): (s: State)
    ensures s.Inv()
  {
    var s := State(
      map t: Tid | 0 <= t < cpus :: Thread(IDLE_PRIORITY, Running, 0, false, true, Some(t), Some(t), None, NO_ERROR),
      seq(NUM_PRIORITIES, _ => []), {},
      map w | w in queues :: WaitQueue([], 0),
      seq(cpus, c => c), seq(cpus, c => c));
    BootedInv(s, cpus);
    s
  }

  lemma BootedInv(s: State, cpus: nat)
    requires s.threads == map t: Tid | 0 <= t < cpus :: Thread(IDLE_PRIORITY, Running, 0, false, true, Some(t), Some(t), None, NO_ERROR)
    requires s.run == seq(NUM_PRIORITIES, _ => []) && s.bitmap == {}
    requires s.waits == map w | w in s.waits :: WaitQueue([], 0)
    requires s.current == seq(cpus, c => c) && s.idle == seq(cpus, c => c)
    ensures s.Inv()
  {
    assert forall p: Prio :: s.RunOk(p);
    assert forall w :: w in s.waits ==> s.WaitOk(w);
    assert forall c: Cpu :: c < |s.current| ==> s.CpuOk(c) && s.OnCpu(c);
    assert forall t :: t in s.threads ==> s.ThreadOk(t);
  }

  // ---- the sections -----------------------------------------------------------------------------

  lemma CurrentRuns(s: State, cpu: Cpu)
    requires s.Inv() && cpu < |s.current|
    ensures s.current[cpu] in s.threads && s.threads[s.current[cpu]].state == Running
    ensures s.threads[s.current[cpu]].currCpu == Some(cpu) && s.ThreadOk(s.current[cpu])
  {
    assert s.OnCpu(cpu) && s.CpuOk(cpu);
    assert s.ThreadOk(s.current[cpu]);
  }

  /** The other processors do not notice that one is leaving its current thread. */
  lemma StartsLeaving(s: State, s': State, cpu: Cpu)
    requires s.Inv() && s'.Core() && s'.current == s.current && cpu < |s.current|
    requires s.current[cpu] in s'.threads && s'.threads[s.current[cpu]].state != Running
    requires forall t :: t in s.threads && t != s.current[cpu] && s.threads[t].state == Running ==> t in s'.threads && s'.threads[t].state == Running
    ensures s'.Leaving(cpu)
  {
    CurrentRuns(s, cpu);
    forall c: Cpu | c < |s'.current| && c != cpu
      ensures s'.OnCpu(c)
    {
      CurrentRuns(s, c);
    }
  }

  lemma GivesUp(s: State, cpu: Cpu, end: End)
    requires s.Inv() && cpu < |s.current|
    ensures s.current[cpu] in s.threads && s.GiveUp(s.current[cpu], end).Leaving(cpu)
  {
    CurrentRuns(s, cpu);
    var t := s.current[cpu];
    if s.threads[t].idle {
      s.UpdateKeeps(t, s.threads[t].(state := Ready));
    } else {
      s.MakeReadyKeeps(t, end);
    }
    StartsLeaving(s, s.GiveUp(t, end), cpu);
  }

  /** The current thread may change its quantum and priority. */
  lemma Adjusts(s: State, cpu: Cpu, quantum: int, priority: Prio)
    requires s.Inv() && cpu < |s.current| && quantum <= QUANTUM
    ensures s.current[cpu] in s.threads
    ensures s.Update(s.current[cpu], s.threads[s.current[cpu]].(quantum := quantum, priority := priority)).Inv()
  {
    CurrentRuns(s, cpu);
    var t := s.current[cpu];
    var s' := s.Update(t, s.threads[t].(quantum := quantum, priority := priority));
    s.UpdateKeeps(t, s.threads[t].(quantum := quantum, priority := priority));
    forall c: Cpu | c < |s'.current|
      ensures s'.OnCpu(c)
    {
      CurrentRuns(s, c);
    }
  }

  lemma Rescheds(s: State, cpu: Cpu)
    requires s.Leaving(cpu)
    ensures s.QueuesKnown() && cpu < |s.idle| && s.idle[cpu] in s.threads && s.current[cpu] in s.threads
    ensures s.Resched(cpu).Inv() && s.Resched(cpu).waits == s.waits
  {
    s.ReschedKeeps(cpu);
  }

  lemma StaysInv(s: State, s': State)
    requires s.Inv() && s'.Core() && s'.current == s.current
    requires forall t :: t in s.threads && s.threads[t].state == Running ==> t in s'.threads && s'.threads[t].state == Running
    ensures s'.Inv()
  {
    forall c: Cpu | c < |s'.current|
      ensures s'.OnCpu(c)
    {
      CurrentRuns(s, c);
    }
  }

  /** thread_create_etc, with the pinning that the creator may set before the thread is resumed. */
  function Created(s: State, t: Tid, priority: Prio, pinned: Option<Cpu>): (r: State)
    requires s.Inv() && t !in s.threads
    ensures r.Inv() && r.waits == s.waits
  {
    var th := Thread(priority, Suspended, 0, false, false, None, pinned, None, NO_ERROR);
    s.NewcomerKeeps(t, th); StaysInv(s, s.Update(t, th));
    s.Update(t, th)
  }

  /** thread_set_real_time. */
  function MadeRealTime(s: State, t: Tid): (r: State)
    requires s.Inv() && t in s.threads
    ensures r.Inv() && r.waits == s.waits
  {
    var th := s.threads[t].(realTime := true);
    s.NewcomerKeeps(t, th); StaysInv(s, s.Update(t, th));
    s.Update(t, th)
  }

  /** thread_resume, up to the yield that follows it. */
  function Resumed(s: State, t: Tid): (r: State)
    requires s.Inv() && t in s.threads
    ensures r.Inv() && r.waits == s.waits
  {
    if s.threads[t].state == Suspended then
      assert s.ThreadOk(t);
      s.MakeReadyKeeps(t, Head); StaysInv(s, s.MakeReady(t, Head));
      s.MakeReady(t, Head)
    else s
  }

  /** thread_yield. */
  function Yielded(s: State, cpu: Cpu): (r: State)
    requires s.Inv() && cpu < |s.current|
    ensures r.Inv() && r.waits == s.waits
  {
    CurrentRuns(s, cpu);
    var t := s.current[cpu];
    var s1 := s.Update(t, s.threads[t].(quantum := 0));
    Adjusts(s, cpu, 0, s.threads[t].priority);
    assert s1.Inv();
    GivesUp(s1, cpu, Tail); Rescheds(s1.GiveUp(t, Tail), cpu);
    s1.GiveUp(t, Tail).Resched(cpu)
  }

  /** thread_preempt. */
  function Preempted(s: State, cpu: Cpu): (r: State)
    requires s.Inv() && cpu < |s.current|
    ensures r.Inv() && r.waits == s.waits
  {
    CurrentRuns(s, cpu);
    var t := s.current[cpu];
    var end := if s.threads[t].quantum > 0 then Head else Tail;
    GivesUp(s, cpu, end); Rescheds(s.GiveUp(t, end), cpu);
    s.GiveUp(t, end).Resched(cpu)
  }

  /** thread_timer_tick: the slice of the current thread gets shorter, unless it has none. */
  function Shortened(s: State, cpu: Cpu): (r: State)
    requires s.Inv() && cpu < |s.current|
    ensures r.Inv() && r.current == s.current && r.threads.Keys == s.threads.Keys && r.waits == s.waits
  {
    CurrentRuns(s, cpu);
    var t := s.current[cpu];
    var th := s.threads[t];
    if th.realTime || th.idle then s
    else
      Adjusts(s, cpu, th.quantum - 1, th.priority);
      s.Update(t, th.(quantum := th.quantum - 1))
  }

  /** The tick asks for a reschedule: the slice is over. */
  predicate SliceOver(s: State, cpu: Cpu)
    requires s.Inv() && cpu < |s.current|
  {
    CurrentRuns(s, cpu);
    var th := s.threads[s.current[cpu]];
    !th.realTime && !th.idle && th.quantum <= 1
  }

  /** The tick, and the preemption if it asks for one. */
  function Ticked(s: State, cpu: Cpu): (r: State)
    requires s.Inv() && cpu < |s.current|
    ensures r.Inv() && r.waits == s.waits
  {
    if SliceOver(s, cpu) then Preempted(Shortened(s, cpu), cpu) else Shortened(s, cpu)
  }

  /** The priority that thread_set_priority sets. */
  function Clamped(priority: int): Prio {
    if priority <= IDLE_PRIORITY then IDLE_PRIORITY + 1
    else if priority > HIGHEST_PRIORITY then HIGHEST_PRIORITY
    else priority
  }

  /** thread_set_priority. */
  function Reprioritised(s: State, cpu: Cpu, priority: int): (r: State)
    requires s.Inv() && Busy(s, cpu)
    ensures r.Inv() && r.waits == s.waits
  {
    CurrentRuns(s, cpu);
    var t := s.current[cpu];
    var s1 := s.Update(t, s.threads[t].(priority := Clamped(priority)));
    Adjusts(s, cpu, s.threads[t].quantum, Clamped(priority));
    GivesUp(s1, cpu, Head); Rescheds(s1.GiveUp(t, Head), cpu);
    s1.MakeReady(t, Head).Resched(cpu)
  }

  /** thread_sleep, up to the switch. */
  function FellAsleep(s: State, cpu: Cpu): (r: State)
    requires s.Inv() && Busy(s, cpu)
    ensures r.Inv() && r.waits == s.waits
  {
    CurrentRuns(s, cpu);
    var t := s.current[cpu];
    var s1 := s.Update(t, s.threads[t].(state := Sleeping));
    s.UpdateKeeps(t, s.threads[t].(state := Sleeping)); StartsLeaving(s, s1, cpu); Rescheds(s1, cpu);
    s1.Resched(cpu)
  }

  /** thread_sleep_handler. */
  function SleptOut(s: State, t: Tid): (r: State)
    requires s.Inv() && t in s.threads && s.threads[t].state == Sleeping
    ensures r.Inv() && r.waits == s.waits
  {
    assert s.ThreadOk(t);
    s.MakeReadyKeeps(t, Head); StaysInv(s, s.MakeReady(t, Head));
    s.MakeReady(t, Head)
  }

  /** wait_queue_block with a timeout that is not zero, up to the switch. */
  function WentToWait(s: State, cpu: Cpu, w: Qid): (r: State)
    requires s.Inv() && Busy(s, cpu) && w in s.waits
    ensures r.Inv() && r.waits == s.waits[w := WaitQueue(s.waits[w].list + [s.current[cpu]], s.waits[w].count + 1)]
  {
    CurrentRuns(s, cpu);
    var t := s.current[cpu];
    s.JoinWaitKeeps(t, w); StartsLeaving(s, s.JoinWait(t, w), cpu); Rescheds(s.JoinWait(t, w), cpu);
    s.JoinWait(t, w).Resched(cpu)
  }

  /** What holds while threads are being woken: as before or after a thread gives up its processor. */
  ghost predicate Waking(s: State, cpu: Cpu, leaving: bool) {
    if leaving then s.Leaving(cpu) else s.Inv()
  }

  lemma WakeKeepsWaking(s: State, cpu: Cpu, leaving: bool, w: Qid, i: nat, v: Code)
    requires Waking(s, cpu, leaving) && w in s.waits && i < |s.waits[w].list|
    ensures s.waits[w].list[i] in s.threads && Waking(s.Wake(w, i, v), cpu, leaving)
  {
    s.WakeKeeps(w, i, v);
    assert s.WaitOk(w);
    var s' := s.Wake(w, i, v);
    assert leaving ==> !s.OnCpu(cpu) && s.CpuOk(cpu);
    forall c: Cpu | c < |s'.current| && !(leaving && c == cpu)
      ensures s'.OnCpu(c)
    {
      assert s.OnCpu(c);
    }
  }

  /** If the caller is to be rescheduled, it goes to the head of its run queue before those it wakes. */
  function StepAside(s: State, cpu: Cpu, leaving: bool): (r: State)
    requires s.Inv() && cpu < |s.current| && (leaving ==> Busy(s, cpu))
    ensures Waking(r, cpu, leaving) && r.waits == s.waits && r.current == s.current
  {
    if leaving then
      CurrentRuns(s, cpu); GivesUp(s, cpu, Head);
      s.MakeReady(s.current[cpu], Head)
    else s
  }

  function Settle(s: State, cpu: Cpu, leaving: bool): (r: State)
    requires Waking(s, cpu, leaving)
    ensures r.Inv() && r.waits == s.waits
  {
    if leaving then
      Rescheds(s, cpu);
      s.Resched(cpu)
    else s
  }

  /** wait_queue_wake_one. */
  function WokenOne(s: State, cpu: Cpu, w: Qid, reschedule: bool, v: Code): (r: State)
    requires s.Inv() && w in s.waits && cpu < |s.current| && (reschedule ==> Busy(s, cpu))
    ensures r.Inv()
    ensures r.waits == if s.waits[w].list == [] then s.waits else s.waits[w := WaitQueue(s.waits[w].list[1..], s.waits[w].count - 1)]
  {
    if s.waits[w].list == [] then s
    else
      var s1 := StepAside(s, cpu, reschedule);
      WakeKeepsWaking(s1, cpu, reschedule, w, 0, v);
      assert Without(s.waits[w].list, 0) == s.waits[w].list[1..];
      Settle(s1.Wake(w, 0, v), cpu, reschedule)
  }

  /** The loop of wait_queue_wake_all: every waiter in turn, from the first. */
  function WakeList(s: State, cpu: Cpu, leaving: bool, w: Qid, v: Code): (r: State)
    requires Waking(s, cpu, leaving) && w in s.waits
    ensures Waking(r, cpu, leaving) && r.current == s.current
    ensures r.waits == s.waits[w := WaitQueue([], 0)]
    decreases |s.waits[w].list|
  {
    assert s.WaitOk(w);
    if s.waits[w].list == [] then s
    else
      WakeKeepsWaking(s, cpu, leaving, w, 0, v);
      WakeList(s.Wake(w, 0, v), cpu, leaving, w, v)
  }

  /** wait_queue_wake_all. */
  function WokenAll(s: State, cpu: Cpu, w: Qid, reschedule: bool, v: Code): (r: State)
    requires s.Inv() && w in s.waits && cpu < |s.current| && (reschedule ==> Busy(s, cpu))
    ensures r.Inv() && r.waits == s.waits[w := WaitQueue([], 0)]
  {
    var leaving := reschedule && s.waits[w].count > 0;
    var s1 := StepAside(s, cpu, leaving);
    Settle(WakeList(s1, cpu, leaving, w, v), cpu, leaving)
  }

  /** thread_unblock_from_wait_queue. */
  function Unblocked(s: State, t: Tid, v: Code): (r: State)
    requires s.Inv() && t in s.threads
    ensures r.Inv()
  {
    if s.threads[t].state == Blocked then
      assert s.ThreadOk(t);
      var w := s.threads[t].waitingOn.value;
      var i := IndexOf(s.waits[w].list, t);
      WakeKeepsWaking(s, 0, false, w, i, v);
      s.Wake(w, i, v)
    else s
  }

  /** What one critical section leads to. */
  function After(s: State, op: Op): (r: State)
    requires s.Inv() && Enabled(s, op)
    ensures r.Inv()
  {
    match op
    case Create(t, initial, pinned) => Created(s, t, initial, pinned)
    case SetRealTime(t) => MadeRealTime(s, t)
    case Resume(t) => Resumed(s, t)
    case Yield(cpu) => Yielded(s, cpu)
    case Preempt(cpu) => Preempted(s, cpu)
    case Tick(cpu) => Ticked(s, cpu)
    case SetPriority(cpu, priority) => Reprioritised(s, cpu, priority)
    case Sleep(cpu) => FellAsleep(s, cpu)
    case SleepOver(t) => SleptOut(s, t)
    case Block(cpu, w) => WentToWait(s, cpu, w)
    case WakeOne(cpu, w, reschedule, v) => WokenOne(s, cpu, w, reschedule, v)
    case WakeAll(cpu, w, reschedule, v) => WokenAll(s, cpu, w, reschedule, v)
    case Timeout(t) => Unblocked(s, t, ERR_TIMED_OUT)
  }

  // ---- runs -------------------------------------------------------------------------------------

  ghost predicate CanRun(s: State, ops: seq<Op>)
    requires s.Inv()
    decreases |ops|
  {
    ops != [] ==> Enabled(s, ops[0]) && CanRun(After(s, ops[0]), ops[1..])
  }

  /** Whatever the sequence of critical sections, the invariant holds at its end. */
  ghost function Run(s: State, ops: seq<Op>): (r: State)
    requires s.Inv() && CanRun(s, ops)
    ensures r.Inv()
    decreases |ops|
  {
    if ops == [] then s else Run(After(s, ops[0]), ops[1..])
  }

  /** What the invariant says of one thread: its state alone tells the one place where it is. */
  lemma Placement(s: State, t: Tid)
    requires s.Inv() && t in s.threads
    ensures forall p: Prio :: t in s.run[p] <==> s.threads[t].state == Ready && !s.threads[t].idle && s.threads[t].priority == p
    ensures forall w :: w in s.waits ==> (t in s.waits[w].list <==> s.threads[t].state == Blocked && s.threads[t].waitingOn == Some(w))
    ensures s.threads[t].state == Running <==> t in s.current
    ensures forall c: Cpu, d: Cpu :: c < d < |s.current| ==> s.current[c] != s.current[d]
    ensures forall c: Cpu :: c < |s.current| && s.current[c] == t ==> s.threads[t].Eligible(c)
  {
    assert s.ThreadOk(t);
    forall p: Prio
      ensures t in s.run[p] <==> s.threads[t].state == Ready && !s.threads[t].idle && s.threads[t].priority == p
    {
      assert s.RunOk(p);
    }
    forall w | w in s.waits
      ensures t in s.waits[w].list <==> s.threads[t].state == Blocked && s.threads[t].waitingOn == Some(w)
    {
      assert s.WaitOk(w);
    }
    forall c: Cpu | c < |s.current|
      ensures s.current[c] in s.threads && s.threads[s.current[c]].state == Running && s.threads[s.current[c]].currCpu == Some(c)
    {
      CurrentRuns(s, c);
    }
  }

  /** The bitmap and the counts, which the code consults instead of the lists. */
  lemma Summaries(s: State)
    requires s.Inv()
    ensures s.BitmapOk()
    ensures forall w :: w in s.waits ==> s.waits[w].count == |s.waits[w].list|
    ensures forall t :: t in s.threads ==> s.threads[t].quantum <= QUANTUM
  {
    s.CoreKnowsQueues();
    assert forall w :: w in s.waits ==> s.WaitOk(w);
    assert forall t :: t in s.threads ==> s.ThreadOk(t);
  }

  /** thread_resched picks the best: no ready thread u that may run on the processor has a higher
      priority or stands before the chosen one, and the idle thread is a last resort. */
  lemma PicksTheBest(s: State, cpu: Cpu, u: Tid)
    requires s.Leaving(cpu) && s.QueuesKnown()
    requires u in s.threads && s.threads[u].state == Ready && !s.threads[u].idle && s.threads[u].Eligible(cpu)
    ensures cpu < |s.idle| && s.idle[cpu] in s.threads && s.current[cpu] in s.threads
    ensures var next := s.Resched(cpu).current[cpu];
      && next in s.threads && s.threads[next].state == Ready && s.threads[next].Eligible(cpu)
      && !s.threads[next].idle && s.threads[u].priority <= s.threads[next].priority
      && var q := s.run[s.threads[u].priority];
         u in q && (next in q ==> IndexOf(q, next) <= IndexOf(q, u))
  {
    s.TopIsReady(cpu);
    assert s.ThreadOk(u);
    var p := s.threads[u].priority;
    var q := s.run[p];
    EligibleAt(s, p, cpu, IndexOf(q, u));
    var top := s.TopPriority(cpu, NUM_PRIORITIES);
    assert s.RunOk(top.value) && s.RunOk(p);
    var next := s.GetTop(cpu).1;
    if next in q {
      FirstPlace(q, s.FirstEligible(q, cpu));
    }
  }

  /** thread_resched renews a quantum that is used up, unless the thread stays the same. */
  lemma RenewsIff(s: State, cpu: Cpu)
    requires s.Leaving(cpu)
    ensures s.QueuesKnown() && cpu < |s.idle| && s.idle[cpu] in s.threads && s.current[cpu] in s.threads
    ensures var s', prev := s.Resched(cpu), s.current[cpu];
      && s'.current[cpu] in s'.threads
      && (s'.threads[s'.current[cpu]].quantum <= 0 <==> s'.current[cpu] == prev && s.threads[prev].quantum <= 0)
  {
    Rescheds(s, cpu);
    s.TopIsReady(cpu);
  }

  lemma EligibleAt(s: State, p: Prio, cpu: Cpu, i: nat)
    requires s.QueuesKnown() && i < |s.run[p]| && s.run[p][i] in s.threads && s.threads[s.run[p][i]].Eligible(cpu)
    ensures s.HasEligible(p, cpu) && s.FirstEligible(s.run[p], cpu) <= i
  {
  }

  lemma {:induction false} FirstPlace(q: seq<Tid>, i: nat)
    requires i < |q| && Distinct(q)
    ensures IndexOf(q, q[i]) == i
  {
    var j := IndexOf(q, q[i]);
  }

  /** Nobody but the chosen thread leaves or enters a run queue. */
  lemma OthersStay(s: State, cpu: Cpu, p: Prio, t: Tid)
    requires s.Leaving(cpu) && s.QueuesKnown()
    ensures cpu < |s.idle| && s.idle[cpu] in s.threads && s.current[cpu] in s.threads
    ensures t in s.Resched(cpu).run[p] <==> t in s.run[p] && t != s.Resched(cpu).current[cpu]
  {
    s.TopIsReady(cpu);
    s.TopIsOut(cpu);
    var (s', next) := s.GetTop(cpu);
    var top := s.TopPriority(cpu, NUM_PRIORITIES);
    assert s'.RunOk(p) && s.RunOk(p);
    if top == Some(p) {
      WithoutMember(s.run[p], s.FirstEligible(s.run[p], cpu), t);
    }
  }
}
