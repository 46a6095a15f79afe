/**
 Waits with and without timeouts (kernel/thread.c): every wait is ended by exactly one of a wake and
 its timeout, and wait_queue_block returns what that one said.
 */
module Waiting {
  import opened Common
  import opened Scheduler
  import opened Scheduling

  /** The step that takes t off its wait queue, if op is one, and the code it gives. */
  function Ends(s: State, op: Op, t: Tid): Option<Code> {
    match op
    case WakeOne(_, w, _, v) => if w in s.waits && s.waits[w].list != [] && s.waits[w].list[0] == t then Some(v) else None
    case WakeAll(_, w, _, v) => if w in s.waits && t in s.waits[w].list then Some(v) else None
    case Timeout(u) => if u == t then Some(ERR_TIMED_OUT) else None
    case _ => None
  }

  /** t calls wait_queue_block. */
  predicate Blocks(s: State, op: Op, t: Tid) {
    op.Block? && op.cpu < |s.current| && s.current[op.cpu] == t
  }

  /** Nothing about the wait of t differs. */
  ghost predicate SameWait(s: State, s': State, t: Tid) {
    && t in s.threads && t in s'.threads
    && s'.threads[t].waitingOn == s.threads[t].waitingOn
    && s'.threads[t].blockRet == s.threads[t].blockRet
    && (s'.threads[t].state == Blocked <==> s.threads[t].state == Blocked)
  }

  /** t is no longer blocked and will find v as the result of its wait. */
  ghost predicate Released(s: State, t: Tid, v: Code) {
    t in s.threads && s.threads[t].state != Blocked && s.threads[t].waitingOn.None? && s.threads[t].blockRet == v
  }

  lemma ReschedSameWait(s: State, cpu: Cpu, t: Tid)
    requires s.Leaving(cpu) && t in s.threads
    ensures s.QueuesKnown() && cpu < |s.idle| && s.idle[cpu] in s.threads && s.current[cpu] in s.threads
    ensures SameWait(s, s.Resched(cpu), t)
  {
    Rescheds(s, cpu);
    s.TopIsReady(cpu);
  }

  lemma GiveUpSameWait(s: State, cpu: Cpu, end: End, t: Tid)
    requires s.Inv() && cpu < |s.current| && t in s.threads
    ensures s.current[cpu] in s.threads && s.GiveUp(s.current[cpu], end).Leaving(cpu)
    ensures SameWait(s, s.GiveUp(s.current[cpu], end), t)
  {
    CurrentRuns(s, cpu);
    GivesUp(s, cpu, end);
  }

  lemma SettleSameWait(s: State, cpu: Cpu, leaving: bool, t: Tid)
    requires Waking(s, cpu, leaving) && t in s.threads
    ensures SameWait(s, Settle(s, cpu, leaving), t)
  {
    if leaving {
      ReschedSameWait(s, cpu, t);
    }
  }

  lemma StepAsideSameWait(s: State, cpu: Cpu, leaving: bool, t: Tid)
    requires s.Inv() && cpu < |s.current| && (leaving ==> Busy(s, cpu)) && t in s.threads
    ensures SameWait(s, StepAside(s, cpu, leaving), t)
  {
    CurrentRuns(s, cpu);
  }

  /** Waking position i of a queue releases the thread there and concerns no other. */
  lemma WakeWait(s: State, w: Qid, i: nat, v: Code, t: Tid)
    requires s.Core() && w in s.waits && i < |s.waits[w].list| && t in s.threads
    ensures s.waits[w].list[i] in s.threads
    ensures if s.waits[w].list[i] == t then Released(s.Wake(w, i, v), t, v) else SameWait(s, s.Wake(w, i, v), t)
  {
    s.WakeKeeps(w, i, v);
  }

  lemma {:induction false} WakeListWait(s: State, cpu: Cpu, leaving: bool, w: Qid, v: Code, t: Tid)
    requires Waking(s, cpu, leaving) && w in s.waits && t in s.threads
    ensures var s' := WakeList(s, cpu, leaving, w, v);
      if t in s.waits[w].list then Released(s', t, v) else SameWait(s, s', t)
    decreases |s.waits[w].list|
  {
    var list := s.waits[w].list;
    assert s.WaitOk(w);
    if list != [] {
      WakeKeepsWaking(s, cpu, leaving, w, 0, v);
      WakeWait(s, w, 0, v, t);
      WithoutMember(list, 0, t);
      WakeListWait(s.Wake(w, 0, v), cpu, leaving, w, v, t);
    }
  }

  lemma PreemptSameWait(s: State, cpu: Cpu, t: Tid)
    requires s.Inv() && cpu < |s.current| && t in s.threads
    ensures SameWait(s, Preempted(s, cpu), t)
  {
    CurrentRuns(s, cpu);
    var end := if s.threads[s.current[cpu]].quantum > 0 then Head else Tail;
    GiveUpSameWait(s, cpu, end, t);
    ReschedSameWait(s.GiveUp(s.current[cpu], end), cpu, t);
  }

  lemma WakeOneWait(s: State, cpu: Cpu, w: Qid, reschedule: bool, v: Code, t: Tid)
    requires s.Inv() && w in s.waits && cpu < |s.current| && (reschedule ==> Busy(s, cpu)) && t in s.threads
    ensures if s.waits[w].list != [] && s.waits[w].list[0] == t then Released(WokenOne(s, cpu, w, reschedule, v), t, v)
            else SameWait(s, WokenOne(s, cpu, w, reschedule, v), t)
  {
    if s.waits[w].list != [] {
      StepAsideSameWait(s, cpu, reschedule, t);
      var s1 := StepAside(s, cpu, reschedule);
      WakeKeepsWaking(s1, cpu, reschedule, w, 0, v);
      WakeWait(s1, w, 0, v, t);
      SettleSameWait(s1.Wake(w, 0, v), cpu, reschedule, t);
    }
  }

  lemma WakeAllWait(s: State, cpu: Cpu, w: Qid, reschedule: bool, v: Code, t: Tid)
    requires s.Inv() && w in s.waits && cpu < |s.current| && (reschedule ==> Busy(s, cpu)) && t in s.threads
    ensures if t in s.waits[w].list then Released(WokenAll(s, cpu, w, reschedule, v), t, v)
            else SameWait(s, WokenAll(s, cpu, w, reschedule, v), t)
  {
    var leaving := reschedule && s.waits[w].count > 0;
    StepAsideSameWait(s, cpu, leaving, t);
    var s1 := StepAside(s, cpu, leaving);
    WakeListWait(s1, cpu, leaving, w, v, t);
    SettleSameWait(WakeList(s1, cpu, leaving, w, v), cpu, leaving, t);
  }

  lemma YieldSameWait(s: State, cpu: Cpu, t: Tid)
    requires s.Inv() && cpu < |s.current| && t in s.threads
    ensures SameWait(s, Yielded(s, cpu), t)
  {
    CurrentRuns(s, cpu);
    var u := s.current[cpu];
    Adjusts(s, cpu, 0, s.threads[u].priority);
    var s1 := s.Update(u, s.threads[u].(quantum := 0));
    GiveUpSameWait(s1, cpu, Tail, t);
    ReschedSameWait(s1.GiveUp(u, Tail), cpu, t);
  }

  lemma TickSameWait(s: State, cpu: Cpu, t: Tid)
    requires s.Inv() && cpu < |s.current| && t in s.threads
    ensures SameWait(s, Ticked(s, cpu), t)
  {
    PreemptSameWait(Shortened(s, cpu), cpu, t);
  }

  lemma SetPrioritySameWait(s: State, cpu: Cpu, p: int, t: Tid)
    requires s.Inv() && Busy(s, cpu) && t in s.threads
    ensures SameWait(s, Reprioritised(s, cpu, p), t)
  {
    CurrentRuns(s, cpu);
    var u := s.current[cpu];
    Adjusts(s, cpu, s.threads[u].quantum, Clamped(p));
    var s1 := s.Update(u, s.threads[u].(priority := Clamped(p)));
    GiveUpSameWait(s1, cpu, Head, t);
    ReschedSameWait(s1.GiveUp(u, Head), cpu, t);
  }

  lemma SleepSameWait(s: State, cpu: Cpu, t: Tid)
    requires s.Inv() && Busy(s, cpu) && t in s.threads
    ensures SameWait(s, FellAsleep(s, cpu), t)
  {
    CurrentRuns(s, cpu);
    var u := s.current[cpu];
    var s1 := s.Update(u, s.threads[u].(state := Sleeping));
    s.UpdateKeeps(u, s.threads[u].(state := Sleeping));
    StartsLeaving(s, s1, cpu);
    ReschedSameWait(s1, cpu, t);
  }

  lemma BlockSameWait(s: State, cpu: Cpu, w: Qid, t: Tid)
    requires s.Inv() && Busy(s, cpu) && w in s.waits && t in s.threads && t != s.current[cpu]
    ensures SameWait(s, WentToWait(s, cpu, w), t)
  {
    CurrentRuns(s, cpu);
    var u := s.current[cpu];
    s.JoinWaitKeeps(u, w);
    StartsLeaving(s, s.JoinWait(u, w), cpu);
    ReschedSameWait(s.JoinWait(u, w), cpu, t);
  }

  lemma TimeoutWait(s: State, u: Tid, t: Tid)
    requires s.Inv() && u in s.threads && t in s.threads
    ensures if s.threads[t].state == Blocked && u == t then Released(Unblocked(s, u, ERR_TIMED_OUT), t, ERR_TIMED_OUT)
            else SameWait(s, Unblocked(s, u, ERR_TIMED_OUT), t)
  {
    if s.threads[u].state == Blocked {
      assert s.ThreadOk(u);
      WakeWait(s, s.threads[u].waitingOn.value, IndexOf(s.waits[s.threads[u].waitingOn.value].list, u), ERR_TIMED_OUT, t);
    }
  }

  /** One step, for a thread that does not itself begin to wait: if it is blocked, it is released with
      the code of the step that ends its wait, or nothing happens to it; if it is not blocked, the
      result of its last wait stays what it is, whatever wakes and timeouts occur. */
  lemma WaitStep(s: State, op: Op, t: Tid)
    requires s.Inv() && Enabled(s, op) && t in s.threads && !Blocks(s, op, t)
    ensures if s.threads[t].state == Blocked && Ends(s, op, t).Some? then Released(After(s, op), t, Ends(s, op, t).value)
            else SameWait(s, After(s, op), t)
  {
    match op
    case Create(u, _, _) =>
    case SetRealTime(u) =>
    case Resume(u) =>
    case Yield(cpu) => YieldSameWait(s, cpu, t);
    case Preempt(cpu) => PreemptSameWait(s, cpu, t);
    case Tick(cpu) => TickSameWait(s, cpu, t);
    case SetPriority(cpu, p) => SetPrioritySameWait(s, cpu, p, t);
    case Sleep(cpu) => SleepSameWait(s, cpu, t);
    case SleepOver(u) =>
    case Block(cpu, w) => BlockSameWait(s, cpu, w, t);
    case WakeOne(cpu, w, reschedule, v) =>
      WakeOneWait(s, cpu, w, reschedule, v, t);
      if t in s.waits[w].list { Queued(s, w, t); }
    case WakeAll(cpu, w, reschedule, v) =>
      WakeAllWait(s, cpu, w, reschedule, v, t);
      if t in s.waits[w].list { Queued(s, w, t); }
    case Timeout(u) => TimeoutWait(s, u, t);
  }

  lemma Queued(s: State, w: Qid, t: Tid)
    requires s.Inv() && w in s.waits && t in s.waits[w].list
    ensures t in s.threads && s.threads[t].state == Blocked
  {
    assert s.WaitOk(w);
  }

  // ---- a whole wait -----------------------------------------------------------------------------

  /** The thread does not begin another wait during the run: it has not yet returned from this one. */
  ghost predicate StaysIn(s: State, ops: seq<Op>, t: Tid)
    requires s.Inv() && CanRun(s, ops)
    decreases |ops|
  {
    ops != [] ==> !Blocks(s, ops[0], t) && StaysIn(After(s, ops[0]), ops[1..], t)
  }

  /** The codes of all steps of the run that took t off a wait queue. */
  ghost function Endings(s: State, ops: seq<Op>, t: Tid): seq<Code>
    requires s.Inv() && CanRun(s, ops)
    decreases |ops|
  {
    if ops == [] then []
    else
      var rest := Endings(After(s, ops[0]), ops[1..], t);
      if t in s.threads && s.threads[t].state == Blocked && Ends(s, ops[0], t).Some?
      then [Ends(s, ops[0], t).value] + rest
      else rest
  }

  /** In any run, the wait of a blocked thread is ended at most once; it is over exactly if something
      ended it, and then its result is what that one step said. */
  lemma {:induction false} WaitEndsOnce(s: State, ops: seq<Op>, t: Tid)
    requires s.Inv() && CanRun(s, ops) && t in s.threads && StaysIn(s, ops, t)
    ensures t in Run(s, ops).threads
    ensures s.threads[t].state != Blocked ==> Endings(s, ops, t) == [] && SameWait(s, Run(s, ops), t)
    ensures s.threads[t].state == Blocked ==>
      var es := Endings(s, ops, t);
      if es == [] then SameWait(s, Run(s, ops), t) else |es| == 1 && Released(Run(s, ops), t, es[0])
    decreases |ops|
  {
    if ops != [] {
      WaitStep(s, ops[0], t);
      WaitEndsOnce(After(s, ops[0]), ops[1..], t);
    }
  }

  /** A finite wait is over once its timer has fired, and a run without a wake or timeout for the
      thread leaves it waiting. */
  lemma {:induction false} FiniteWaitEnds(s: State, ops: seq<Op>, t: Tid, i: nat)
    requires s.Inv() && CanRun(s, ops) && t in s.threads && StaysIn(s, ops, t)
    requires i < |ops| && ops[i] == Timeout(t)
    ensures t in Run(s, ops).threads && Run(s, ops).threads[t].state != Blocked
    decreases |ops|
  {
    WaitStep(s, ops[0], t);
    if i > 0 {
      FiniteWaitEnds(After(s, ops[0]), ops[1..], t, i - 1);
    } else {
      WaitEndsOnce(After(s, ops[0]), ops[1..], t);
    }
  }

  /** The run without the timeouts of t. */
  function Untimed(ops: seq<Op>, t: Tid): seq<Op> {
    if ops == [] then []
    else if ops[0] == Timeout(t) then Untimed(ops[1..], t)
    else [ops[0]] + Untimed(ops[1..], t)
  }

  /** Once the wait is over, the timer may still fire, as often as it likes: the run might as well have
      gone without. */
  lemma {:induction false} LateTimeouts(s: State, ops: seq<Op>, t: Tid)
    requires s.Inv() && CanRun(s, ops) && t in s.threads && StaysIn(s, ops, t) && s.threads[t].state != Blocked
    ensures CanRun(s, Untimed(ops, t)) && Run(s, Untimed(ops, t)) == Run(s, ops)
    decreases |ops|
  {
    if ops != [] {
      WaitStep(s, ops[0], t);
      LateTimeouts(After(s, ops[0]), ops[1..], t);
      assert ops[0] != Timeout(t) ==> Untimed(ops, t)[0] == ops[0] && Untimed(ops, t)[1..] == Untimed(ops[1..], t);
    }
  }

  // ---- the queue itself -----------------------------------------------------------------------------

  /** What one step does to the list of wait queue w: a thread that blocks goes to its end, a wake takes
      the first or all, a timeout takes one out, and nothing else changes it. */
  function ListAfter(s: State, op: Op, w: Qid): seq<Tid>
    requires s.Inv() && Enabled(s, op) && w in s.waits
  {
    var list := s.waits[w].list;
    match op
    case Block(cpu, x) => if x == w then list + [s.current[cpu]] else list
    case WakeOne(_, x, _, _) => if x == w && list != [] then list[1..] else list
    case WakeAll(_, x, _, _) => if x == w then [] else list
    case Timeout(t) => if t in list then Without(list, IndexOf(list, t)) else list
    case _ => list
  }

  lemma ListStep(s: State, op: Op, w: Qid)
    requires s.Inv() && Enabled(s, op) && w in s.waits
    ensures w in After(s, op).waits && After(s, op).waits[w].list == ListAfter(s, op, w)
  {
    if op.Timeout? {
      Placement(s, op.t);
    }
  }
}
