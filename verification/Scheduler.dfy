/**
 kernel/thread.c: the scheduler's data, and what each of its critical sections does to them as a
 function of these data. Threads.dfy carries the sections out in place; Scheduling.dfy and
 Waiting.dfy are about whole runs.
 */
module Scheduler {
  import opened Common

  const NUM_PRIORITIES := 32
  const IDLE_PRIORITY := 0
  const HIGHEST_PRIORITY := NUM_PRIORITIES - 1
  const QUANTUM := 5

  type Prio = p: nat | p < NUM_PRIORITIES witness 0
  type Cpu = nat
  type Qid = nat

  datatype ThreadState = Suspended | Ready | Running | Blocked | Sleeping | Dead

  datatype Thread = Thread(
    priority: Prio,
    state: ThreadState,
    quantum: int,
    realTime: bool,
    idle: bool,
    currCpu: Option<Cpu>,
    pinnedCpu: Option<Cpu>,
    waitingOn: Option<Qid>,
    blockRet: Code)
  {
    predicate Eligible(cpu: Cpu) {
      pinnedCpu == None || pinnedCpu == Some(cpu)
    }
  }

  datatype WaitQueue = WaitQueue(list: seq<Tid>, count: int)

  /** What a critical section does at the run queue: ahead of, or behind, those already there. */
  datatype End = Head | Tail

  datatype State = State(
    threads: map<Tid, Thread>,
    run: seq<seq<Tid>>,
    bitmap: set<Prio>,
    waits: map<Qid, WaitQueue>,
    current: seq<Tid>,
    idle: seq<Tid>)
  {
    // ---- the invariant ----------------------------------------------------------------------

    /** Run queue p holds ready threads of priority p, each once, and its bit says if there are any. */
    ghost predicate RunOk(p: Prio)
      requires |run| == NUM_PRIORITIES
    {
      && Distinct(run[p])
      && (p in bitmap <==> run[p] != [])
      && forall t :: t in run[p] ==> t in threads && threads[t].state == Ready && !threads[t].idle && threads[t].priority == p
    }

    /** Wait queue w holds the threads blocked on it, each once, and counts them. */
    ghost predicate WaitOk(w: Qid)
      requires w in waits
    {
      && Distinct(waits[w].list)
      && waits[w].count == |waits[w].list|
      && forall t :: t in waits[w].list ==> t in threads && threads[t].state == Blocked && threads[t].waitingOn == Some(w)
    }

    /** Thread t is in the queue it belongs in, and runs at most where it is the current thread. */
    ghost predicate ThreadOk(t: Tid)
      requires |run| == NUM_PRIORITIES && t in threads
    {
      var th := threads[t];
      && (th.state == Ready && !th.idle ==> t in run[th.priority])
      && (th.state == Blocked <==> th.waitingOn.Some?)
      && (th.waitingOn.Some? ==> th.waitingOn.value in waits && t in waits[th.waitingOn.value].list)
      && (th.idle ==> IdleOk(t))
      && (th.state == Running ==> th.currCpu.Some?)
      && (th.currCpu.Some? ==> th.currCpu.value < |current| && current[th.currCpu.value] == t && th.Eligible(th.currCpu.value))
      && th.quantum <= QUANTUM
    }

    ghost predicate IdleOk(t: Tid)
      requires t in threads
    {
      var th := threads[t];
      && (th.state == Ready || th.state == Running)
      && th.pinnedCpu.Some? && th.pinnedCpu.value < |idle| && idle[th.pinnedCpu.value] == t
    }

    ghost predicate CpuOk(cpu: Cpu)
      requires cpu < |current| == |idle|
    {
      && current[cpu] in threads && threads[current[cpu]].currCpu == Some(cpu)
      && idle[cpu] in threads && threads[idle[cpu]].idle && threads[idle[cpu]].pinnedCpu == Some(cpu)
    }

    /** What holds throughout a critical section: every thread is where its state says. */
    ghost predicate Core() {
      && |run| == NUM_PRIORITIES && |current| == |idle|
      && (forall p: Prio :: RunOk(p))
      && (forall w {:trigger WaitOk(w)} :: w in waits ==> WaitOk(w))
      && (forall t {:trigger ThreadOk(t)} :: t in threads ==> ThreadOk(t))
      && (forall cpu: Cpu :: cpu < |current| ==> CpuOk(cpu))
    }

    ghost predicate OnCpu(cpu: Cpu) {
      cpu < |current| && current[cpu] in threads && threads[current[cpu]].state == Running
    }

    /** What holds between critical sections. */
    ghost predicate Inv() {
      Core() && forall cpu: Cpu :: cpu < |current| ==> OnCpu(cpu)
    }

    /** The current thread of one processor has been put where it belongs and has to be replaced. */
    ghost predicate Leaving(cpu: Cpu) {
      && Core() && cpu < |current| && !OnCpu(cpu)
      && forall c: Cpu :: c < |current| && c != cpu ==> OnCpu(c)
    }

    // ---- the steps --------------------------------------------------------------------------

    function Update(t: Tid, th: Thread): State {
      this.(threads := threads[t := th])
    }

    /** insert_in_run_queue_head and insert_in_run_queue_tail. */
    function Enqueue(t: Tid, end: End): State
      requires |run| == NUM_PRIORITIES && t in threads
    {
      var p := threads[t].priority;
      this.(run := run[p := if end.Head? then [t] + run[p] else run[p] + [t]], bitmap := bitmap + {p})
    }

    /** The thread becomes ready and enters its run queue. */
    function MakeReady(t: Tid, end: End): State
      requires |run| == NUM_PRIORITIES && t in threads
    {
      Update(t, threads[t].(state := Ready)).Enqueue(t, end)
    }

    /** The current thread gives up its processor; the idle thread goes in no run queue. */
    function GiveUp(t: Tid, end: End): State
      requires |run| == NUM_PRIORITIES && t in threads
    {
      if threads[t].idle then Update(t, threads[t].(state := Ready)) else MakeReady(t, end)
    }

    /** The thread at position i of wait queue w is taken out, to find v as the result of its wait. */
    function Wake(w: Qid, i: nat, v: Code): State
      requires |run| == NUM_PRIORITIES && w in waits && i < |waits[w].list| && waits[w].list[i] in threads
    {
      var t := waits[w].list[i];
      this.(waits := waits[w := WaitQueue(Without(waits[w].list, i), waits[w].count - 1)])
          .Update(t, threads[t].(state := Ready, waitingOn := None, blockRet := v))
          .Enqueue(t, Head)
    }

    function JoinWait(t: Tid, w: Qid): State
      requires t in threads && w in waits
    {
      this.(waits := waits[w := WaitQueue(waits[w].list + [t], waits[w].count + 1)])
          .Update(t, threads[t].(state := Blocked, waitingOn := Some(w), blockRet := NO_ERROR))
    }

    // ---- choosing the next thread -------------------------------------------------------------

    /** The first thread of the queue that may run on cpu, or the end of the queue. */
    function FirstEligible(q: seq<Tid>, cpu: Cpu): (i: nat)
      requires forall t :: t in q ==> t in threads
      ensures i <= |q| && (i < |q| ==> threads[q[i]].Eligible(cpu))
      ensures forall j :: 0 <= j < i ==> !threads[q[j]].Eligible(cpu)
    {
      if q == [] || threads[q[0]].Eligible(cpu) then 0 else 1 + FirstEligible(q[1..], cpu)
    }

    ghost predicate QueuesKnown() {
      |run| == NUM_PRIORITIES && forall p: Prio, t :: t in run[p] ==> t in threads
    }

    ghost predicate BitmapOk() {
      |run| == NUM_PRIORITIES && forall p: Prio :: p in bitmap <==> run[p] != []
    }

    predicate HasEligible(p: Prio, cpu: Cpu)
      requires QueuesKnown()
    {
      FirstEligible(run[p], cpu) < |run[p]|
    }

    /** The highest priority below n that has a thread for cpu, if any. */
    function TopPriority(cpu: Cpu, n: nat): (r: Option<Prio>)
      requires QueuesKnown() && n <= NUM_PRIORITIES
      ensures r.Some? ==> r.value < n && HasEligible(r.value, cpu)
      ensures forall p: Prio :: p < n && (r.None? || r.value < p) ==> !HasEligible(p, cpu)
    {
      if n == 0 then None
      else if HasEligible(n - 1, cpu) then Some(n - 1)
      else TopPriority(cpu, n - 1)
    }

    /** Position i of run queue p is vacated. */
    function Dequeue(p: Prio, i: nat): State
      requires |run| == NUM_PRIORITIES && i < |run[p]|
    {
      var q := Without(run[p], i);
      this.(run := run[p := q], bitmap := if q == [] then bitmap - {p} else bitmap)
    }

    /** get_top_thread. */
    function GetTop(cpu: Cpu): (State, Tid)
      requires QueuesKnown() && cpu < |idle|
    {
      match TopPriority(cpu, NUM_PRIORITIES)
      case None => (this, idle[cpu])
      case Some(p) =>
        var i := FirstEligible(run[p], cpu);
        (Dequeue(p, i), run[p][i])
    }

    /** What thread_resched does with the thread that was chosen. */
    function SwitchTo(cpu: Cpu, next: Tid): State
      requires next in threads && cpu < |current| && current[cpu] in threads
    {
      var prev := current[cpu];
      var s := Update(next, threads[next].(state := Running));
      if next == prev then s
      else
        var th := s.threads[next].(quantum := if threads[next].quantum <= 0 then QUANTUM else threads[next].quantum, currCpu := Some(cpu));
        s.Update(prev, s.threads[prev].(currCpu := None)).Update(next, th).(current := current[cpu := next])
    }

    /** thread_resched. */
    function Resched(cpu: Cpu): State
      requires QueuesKnown() && cpu < |idle| && cpu < |current| && current[cpu] in threads && idle[cpu] in threads
    {
      var (s, next) := GetTop(cpu);
      s.SwitchTo(cpu, next)
    }

    // ---- every step keeps each thread where its state says --------------------------------------

    lemma MakeReadyKeeps(t: Tid, end: End)
      requires Core() && t in threads && !threads[t].idle && threads[t].state !in {Ready, Blocked}
      ensures MakeReady(t, end).Core()
    {
      var s := MakeReady(t, end);
      forall p: Prio
        ensures s.RunOk(p)
      {
        assert RunOk(p);
      }
      forall w | w in s.waits
        ensures s.WaitOk(w)
      {
        assert WaitOk(w);
      }
      forall u | u in s.threads
        ensures s.ThreadOk(u)
      {
        assert ThreadOk(u);
      }
      forall cpu: Cpu | cpu < |s.current|
        ensures s.CpuOk(cpu)
      {
        assert CpuOk(cpu);
      }
    }

    lemma WakeKeeps(w: Qid, i: nat, v: Code)
      requires Core() && w in waits && i < |waits[w].list|
      ensures waits[w].list[i] in threads && Wake(w, i, v).Core()
    {
      assert WaitOk(w);
      var t := waits[w].list[i];
      assert ThreadOk(t);
      var s := Wake(w, i, v);
      forall p: Prio
        ensures s.RunOk(p)
      {
        assert RunOk(p);
      }
      forall x | x in s.waits
        ensures s.WaitOk(x)
      {
        assert WaitOk(x);
        WithoutMember(waits[w].list, i, t);
        forall u | u in s.waits[x].list
          ensures u != t && u in waits[x].list
        {
          if x == w { WithoutMember(waits[w].list, i, u); }
        }
      }
      forall u | u in s.threads
        ensures s.ThreadOk(u)
      {
        assert ThreadOk(u);
        WithoutMember(waits[w].list, i, u);
      }
      forall cpu: Cpu | cpu < |s.current|
        ensures s.CpuOk(cpu)
      {
        assert CpuOk(cpu);
      }
    }

    lemma JoinWaitKeeps(t: Tid, w: Qid)
      requires Core() && t in threads && !threads[t].idle && threads[t].state == Running && w in waits
      ensures JoinWait(t, w).Core()
    {
      var s := JoinWait(t, w);
      assert ThreadOk(t);
      forall p: Prio
        ensures s.RunOk(p)
      {
        assert RunOk(p);
      }
      forall x | x in s.waits
        ensures s.WaitOk(x)
      {
        assert WaitOk(x);
      }
      forall u | u in s.threads
        ensures s.ThreadOk(u)
      {
        assert ThreadOk(u);
      }
      forall cpu: Cpu | cpu < |s.current|
        ensures s.CpuOk(cpu)
      {
        assert CpuOk(cpu);
      }
    }

    /** A new thread is suspended and in no queue; any thread may become real-time. */
    lemma NewcomerKeeps(t: Tid, th: Thread)
      requires Core()
      requires if t in threads then th == threads[t].(realTime := true)
               else th == Thread(th.priority, Suspended, 0, false, false, None, th.pinnedCpu, None, NO_ERROR)
      ensures Update(t, th).Core()
    {
      var s := Update(t, th);
      forall p: Prio
        ensures s.RunOk(p)
      {
        assert RunOk(p);
      }
      forall x | x in s.waits
        ensures s.WaitOk(x)
      {
        assert WaitOk(x);
      }
      forall u | u in s.threads
        ensures s.ThreadOk(u)
      {
        assert u in threads ==> ThreadOk(u);
      }
      forall cpu: Cpu | cpu < |s.current|
        ensures s.CpuOk(cpu)
      {
        assert CpuOk(cpu);
      }
    }

    /** A running thread, which is in no queue, may change its priority, state and quantum. */
    lemma UpdateKeeps(t: Tid, th: Thread)
      requires Core() && t in threads && threads[t].state == Running && th.quantum <= QUANTUM
      requires th.state in {Running, Sleeping, Dead} || (th.state == Ready && th.idle)
      requires th.idle ==> th.state in {Ready, Running}
      requires th == threads[t].(priority := th.priority, state := th.state, quantum := th.quantum)
      ensures Update(t, th).Core()
    {
      var s := Update(t, th);
      assert ThreadOk(t);
      forall p: Prio
        ensures s.RunOk(p)
      {
        assert RunOk(p);
      }
      forall x | x in s.waits
        ensures s.WaitOk(x)
      {
        assert WaitOk(x);
      }
      forall u | u in s.threads
        ensures s.ThreadOk(u)
      {
        assert ThreadOk(u);
      }
      forall cpu: Cpu | cpu < |s.current|
        ensures s.CpuOk(cpu)
      {
        assert CpuOk(cpu);
      }
    }

    lemma CoreKnowsQueues()
      requires Core()
      ensures QueuesKnown() && BitmapOk()
    {
      forall p: Prio
        ensures p in bitmap <==> run[p] != []
      {
        assert RunOk(p);
      }
      forall p: Prio, t | t in run[p]
        ensures t in threads
      {
        assert RunOk(p);
      }
    }

    /** The chosen thread is ready and may run on the processor. */
    lemma TopIsReady(cpu: Cpu)
      requires Leaving(cpu) && QueuesKnown()
      ensures idle[cpu] in threads && current[cpu] in threads
      ensures var next := GetTop(cpu).1;
        next in threads && threads[next].state == Ready && threads[next].Eligible(cpu) && threads[next].waitingOn.None?
    {
      assert CpuOk(cpu);
      var top := TopPriority(cpu, NUM_PRIORITIES);
      if top.Some? {
        assert RunOk(top.value);
        assert ThreadOk(GetTop(cpu).1);
      } else {
        assert ThreadOk(idle[cpu]);
        assert !OnCpu(cpu);
      }
    }

    /** As Core, for a ready thread that is out of its run queue. */
    ghost predicate CoreBut(next: Tid) {
      && |run| == NUM_PRIORITIES && |current| == |idle|
      && (forall p: Prio :: RunOk(p) && next !in run[p])
      && (forall w {:trigger WaitOk(w)} :: w in waits ==> WaitOk(w))
      && (forall t {:trigger ThreadOk(t)} :: t in threads && t != next ==> ThreadOk(t))
      && (forall cpu: Cpu :: cpu < |current| ==> CpuOk(cpu))
      && next in threads && threads[next].state == Ready && threads[next].waitingOn.None? && threads[next].quantum <= QUANTUM
      && (threads[next].idle ==> IdleOk(next))
      && (threads[next].currCpu.Some? ==> threads[next].currCpu.value < |current| && current[threads[next].currCpu.value] == next)
    }

    lemma TopIsOut(cpu: Cpu)
      requires Leaving(cpu) && QueuesKnown()
      ensures idle[cpu] in threads && current[cpu] in threads
      ensures var (s, next) := GetTop(cpu); s.CoreBut(next) && s.threads[next].Eligible(cpu)
    {
      TopIsReady(cpu);
      var (s, next) := GetTop(cpu);
      assert ThreadOk(next) && CpuOk(cpu);
      var top := TopPriority(cpu, NUM_PRIORITIES);
      if top.Some? {
        var q, i := run[top.value], FirstEligible(run[top.value], cpu);
        assert RunOk(top.value);
        forall u
          ensures u in s.run[top.value] <==> u in q && u != next
        {
          WithoutMember(q, i, u);
        }
        WithoutMember(q, i, next);
      }
      forall p: Prio
        ensures s.RunOk(p) && next !in s.run[p]
      {
        assert RunOk(p);
      }
      forall x | x in s.waits
        ensures s.WaitOk(x)
      {
        assert WaitOk(x);
      }
      forall u | u in s.threads && u != next
        ensures s.ThreadOk(u)
      {
        assert ThreadOk(u);
      }
      forall c: Cpu | c < |s.current|
        ensures s.CpuOk(c)
      {
        assert CpuOk(c);
      }
    }

    lemma SwitchKeeps(cpu: Cpu, next: Tid)
      requires CoreBut(next) && threads[next].Eligible(cpu) && cpu < |current|
      requires current[cpu] in threads && !OnCpu(cpu) && forall c: Cpu :: c < |current| && c != cpu ==> OnCpu(c)
      ensures SwitchTo(cpu, next).Inv()
    {
      var s, prev := SwitchTo(cpu, next), current[cpu];
      assert CpuOk(cpu);
      assert threads[next].currCpu.Some? ==> OnCpu(threads[next].currCpu.value) || next == prev;
      SwitchQueues(cpu, next);
      forall u | u in s.threads
        ensures s.ThreadOk(u)
      {
        assert u != next ==> ThreadOk(u);
      }
      forall c: Cpu | c < |s.current|
        ensures s.CpuOk(c) && s.OnCpu(c)
      {
        assert CpuOk(c);
        assert c != cpu ==> OnCpu(c);
      }
    }

    /** Switching changes no queue, and only threads that are in none. */
    lemma SwitchQueues(cpu: Cpu, next: Tid)
      requires CoreBut(next) && cpu < |current| && current[cpu] in threads
      ensures var s := SwitchTo(cpu, next);
        && |s.run| == NUM_PRIORITIES
        && (forall p: Prio :: s.RunOk(p))
        && (forall w :: w in s.waits ==> s.WaitOk(w))
    {
      var s := SwitchTo(cpu, next);
      forall p: Prio
        ensures s.RunOk(p)
      {
        assert RunOk(p);
      }
      forall x | x in s.waits
        ensures s.WaitOk(x)
      {
        assert WaitOk(x);
      }
    }

    /** thread_resched ends the critical section. */
    lemma ReschedKeeps(cpu: Cpu)
      requires Leaving(cpu)
      ensures QueuesKnown() && idle[cpu] in threads && current[cpu] in threads
      ensures Resched(cpu).Inv()
    {
      CoreKnowsQueues();
      TopIsOut(cpu);
      var (s, next) := GetTop(cpu);
      assert !s.OnCpu(cpu);
      forall c: Cpu | c < |s.current| && c != cpu
        ensures s.OnCpu(c)
      {
        assert OnCpu(c);
      }
      s.SwitchKeeps(cpu, next);
    }
  }
}
