/**
 kernel/thread.c: the run queues, wait queues and threads changed in place. Each method is one
 critical section, run by the current thread of processor `cpu`, up to the point where another
 thread may have taken over the processor.
 */
module Threads {
  import opened Common
  import opened Scheduler
  import opened Scheduling

  class Kernel {
    var threads: map<Tid, Thread>
    var run: seq<seq<Tid>>
    var bitmap: set<Prio>
    var waits: map<Qid, WaitQueue>
    var current: seq<Tid>
    const idle: seq<Tid>

    ghost function Now(): State
      reads this
    {
      State(threads, run, bitmap, waits, current, idle)
    }

    /** Once the idle thread of every processor runs: thread_become_idle, thread_secondary_cpu_entry. */
    constructor (cpus: nat, queues: set<Qid>)
      ensures Now() == Booted(cpus, queues)
    {
      threads := map t: Tid | 0 <= t < cpus :: Thread(IDLE_PRIORITY, Running, 0, false, true, Some(t), Some(t), None, NO_ERROR);
      run := seq(NUM_PRIORITIES, _ => []);
      bitmap := {};
      waits := map w | w in queues :: WaitQueue([], 0);
      current := seq(cpus, c => c);
      idle := seq(cpus, c => c);
    }

    // ---- run queues -----------------------------------------------------------------------------

    method InsertInRunQueueHead(t: Tid)
      requires |run| == NUM_PRIORITIES && t in threads
      modifies this`run, this`bitmap
      ensures Now() == old(Now()).Enqueue(t, Head)
    {
      var p := threads[t].priority;
      run := run[p := [t] + run[p]];
      bitmap := bitmap + {p};
    }

    method InsertInRunQueueTail(t: Tid)
      requires |run| == NUM_PRIORITIES && t in threads
      modifies this`run, this`bitmap
      ensures Now() == old(Now()).Enqueue(t, Tail)
    {
      var p := threads[t].priority;
      run := run[p := run[p] + [t]];
      bitmap := bitmap + {p};
    }

    /** __builtin_clz on what is left of the bitmap: the highest bit. */
    method HighestBit(bits: set<Prio>) returns (p: Prio)
      requires bits != {}
      ensures p in bits && forall q: Prio :: q in bits ==> q <= p
    {
      ghost var w :| w in bits;
      p := HIGHEST_PRIORITY;
      while p !in bits
        invariant w <= p && forall q: Prio :: q in bits ==> q <= p
        decreases p
      {
        p := p - 1;
      }
    }

    /** get_top_thread: the first thread of the highest priority that may run on the processor. */
    method GetTopThread(cpu: Cpu) returns (next: Tid)
      requires Now().QueuesKnown() && Now().BitmapOk() && cpu < |idle|
      modifies this`run, this`bitmap
      ensures (Now(), next) == old(Now()).GetTop(cpu)
    {
      var bits := bitmap;
      ghost var s := Now();
      while bits != {}
        invariant Now() == s && bits <= bitmap
        invariant forall p: Prio :: p !in bits ==> !s.HasEligible(p, cpu)
        decreases |bits|
      {
        var p := HighestBit(bits);
        var i: nat := 0;
        while i < |run[p]|
          invariant Now() == s && i <= |run[p]|
          invariant forall j :: 0 <= j < i ==> !threads[run[p][j]].Eligible(cpu)
        {
          next := run[p][i];
          assert next in run[p];
          if threads[next].Eligible(cpu) {
            FirstIs(s, p, cpu, i);
            TopIs(s, p, cpu);
            run := run[p := Without(run[p], i)];
            if run[p] == [] {
              bitmap := bitmap - {p};
            }
            return;
          }
          i := i + 1;
        }
        bits := bits - {p};
      }
      return idle[cpu];
    }

    static lemma FirstIs(s: State, p: Prio, cpu: Cpu, i: nat)
      requires s.QueuesKnown() && i < |s.run[p]| && s.run[p][i] in s.threads && s.threads[s.run[p][i]].Eligible(cpu)
      requires forall j :: 0 <= j < i ==> s.run[p][j] in s.run[p] && !s.threads[s.run[p][j]].Eligible(cpu)
      ensures s.FirstEligible(s.run[p], cpu) == i && s.HasEligible(p, cpu)
    {
    }

    static lemma TopIs(s: State, p: Prio, cpu: Cpu)
      requires s.QueuesKnown() && s.HasEligible(p, cpu) && forall q: Prio :: q > p ==> !s.HasEligible(q, cpu)
      ensures s.TopPriority(cpu, NUM_PRIORITIES) == Some(p)
    {
    }

    /** thread_resched. */
    method Resched(cpu: Cpu)
      requires Now().Leaving(cpu)
      modifies this
      ensures old(Now()).QueuesKnown() && cpu < |idle| && idle[cpu] in old(threads) && old(current)[cpu] in old(threads)
      ensures Now() == old(Now()).Resched(cpu) && Now().Inv()
      ensures current[cpu] in threads
      ensures threads[current[cpu]].quantum <= 0 <==>
        current[cpu] == old(current)[cpu] && old(threads)[old(current)[cpu]].quantum <= 0
    {
      RenewsIff(Now(), cpu);
      Now().ReschedKeeps(cpu);
      Now().TopIsReady(cpu);
      Now().CoreKnowsQueues();
      var next := GetTopThread(cpu);
      SwitchTo(cpu, next);
    }

    /** The rest of thread_resched, with the thread that was chosen. */
    method SwitchTo(cpu: Cpu, next: Tid)
      requires next in threads && cpu < |current| && current[cpu] in threads
      modifies this`threads, this`current
      ensures Now() == old(Now()).SwitchTo(cpu, next)
    {
      threads := threads[next := threads[next].(state := Running)];
      var prev := current[cpu];
      if next == prev {
        return;
      }
      if threads[next].quantum <= 0 {
        threads := threads[next := threads[next].(quantum := QUANTUM)];
      }
      threads := threads[prev := threads[prev].(currCpu := None)];
      threads := threads[next := threads[next].(currCpu := Some(cpu))];
      current := current[cpu := next];
    }

    // ---- the current thread gives up its processor ------------------------------------------------

    /** thread_yield. */
    method Yield(cpu: Cpu)
      requires Now().Inv() && cpu < |current|
      modifies this
      ensures Now() == Yielded(old(Now()), cpu)
    {
      CurrentRuns(Now(), cpu);
      var t := current[cpu];
      Adjusts(Now(), cpu, 0, threads[t].priority);
      ghost var s := Now();
      threads := threads[t := threads[t].(state := Ready)];
      threads := threads[t := threads[t].(quantum := 0)];
      if !threads[t].idle {
        InsertInRunQueueTail(t);
      }
      GivesUp(s.Update(t, s.threads[t].(quantum := 0)), cpu, Tail);
      assert Now() == s.Update(t, s.threads[t].(quantum := 0)).GiveUp(t, Tail);
      Resched(cpu);
    }

    /** thread_preempt. */
    method Preempt(cpu: Cpu)
      requires Now().Inv() && cpu < |current|
      modifies this
      ensures Now() == Preempted(old(Now()), cpu)
    {
      CurrentRuns(Now(), cpu);
      var t := current[cpu];
      GivesUp(Now(), cpu, if threads[t].quantum > 0 then Head else Tail);
      threads := threads[t := threads[t].(state := Ready)];
      if !threads[t].idle {
        if threads[t].quantum > 0 {
          InsertInRunQueueHead(t);
        } else {
          InsertInRunQueueTail(t);
        }
      }
      Resched(cpu);
    }

    /** thread_timer_tick. */
    method TimerTick(cpu: Cpu) returns (reschedule: bool)
      requires Now().Inv() && cpu < |current|
      modifies this`threads
      ensures Now() == Shortened(old(Now()), cpu) && (reschedule <==> SliceOver(old(Now()), cpu))
    {
      CurrentRuns(Now(), cpu);
      var t := current[cpu];
      if threads[t].realTime || threads[t].idle {
        return false;
      }
      Adjusts(Now(), cpu, threads[t].quantum - 1, threads[t].priority);
      threads := threads[t := threads[t].(quantum := threads[t].quantum - 1)];
      return threads[t].quantum <= 0;
    }

    /** The preemption timer's interrupt: the tick, and the preemption that it asks for. */
    method TickInterrupt(cpu: Cpu)
      requires Now().Inv() && cpu < |current|
      modifies this
      ensures Now() == Ticked(old(Now()), cpu)
    {
      var reschedule := TimerTick(cpu);
      if reschedule {
        Preempt(cpu);
      }
    }

    /** thread_set_priority. */
    method SetPriority(cpu: Cpu, priority: int)
      requires Now().Inv() && Busy(Now(), cpu)
      modifies this
      ensures Now() == Reprioritised(old(Now()), cpu, priority)
    {
      CurrentRuns(Now(), cpu);
      ghost var s := Now();
      var p := priority;
      if p <= IDLE_PRIORITY {
        p := IDLE_PRIORITY + 1;
      }
      if p > HIGHEST_PRIORITY {
        p := HIGHEST_PRIORITY;
      }
      var t := current[cpu];
      Adjusts(s, cpu, threads[t].quantum, p);
      threads := threads[t := threads[t].(priority := p)];
      GivesUp(Now(), cpu, Head);
      threads := threads[t := threads[t].(state := Ready)];
      InsertInRunQueueHead(t);
      Resched(cpu);
    }

    /** thread_sleep, up to the switch; its timer is part of Timer.dfy. */
    method Sleep(cpu: Cpu)
      requires Now().Inv() && Busy(Now(), cpu)
      modifies this
      ensures Now() == FellAsleep(old(Now()), cpu)
    {
      CurrentRuns(Now(), cpu);
      ghost var s := Now();
      var t := current[cpu];
      s.UpdateKeeps(t, s.threads[t].(state := Sleeping));
      threads := threads[t := threads[t].(state := Sleeping)];
      StartsLeaving(s, Now(), cpu);
      Resched(cpu);
    }

    // ---- threads become ready -----------------------------------------------------------------------

    /** thread_create_etc: the thread is suspended until it is resumed. */
    method Create(t: Tid, priority: Prio, pinned: Option<Cpu>)
      requires Now().Inv() && t !in threads
      modifies this`threads
      ensures Now() == Created(old(Now()), t, priority, pinned)
    {
      threads := threads[t := Thread(priority, Suspended, 0, false, false, None, pinned, None, NO_ERROR)];
    }

    /** thread_set_real_time; the preemption timer is part of Timer.dfy. */
    method SetRealTime(t: Tid)
      requires Now().Inv() && t in threads
      modifies this`threads
      ensures Now() == MadeRealTime(old(Now()), t)
    {
      threads := threads[t := threads[t].(realTime := true)];
    }

    /** thread_resume, up to the yield. */
    method Resume(t: Tid) returns (resched: bool)
      requires Now().Inv() && t in threads
      modifies this
      ensures Now() == Resumed(old(Now()), t) && (resched <==> old(threads)[t].state == Suspended)
    {
      resched := false;
      if threads[t].state == Suspended {
        threads := threads[t := threads[t].(state := Ready)];
        InsertInRunQueueHead(t);
        resched := true;
      }
    }

    /** thread_sleep_handler. */
    method SleepHandler(t: Tid)
      requires Now().Inv() && t in threads && threads[t].state == Sleeping
      modifies this
      ensures Now() == SleptOut(old(Now()), t)
    {
      threads := threads[t := threads[t].(state := Ready)];
      InsertInRunQueueHead(t);
    }

    // ---- wait queues --------------------------------------------------------------------------------

    /** wait_queue_block, up to the switch: false if there is nothing to wait for. */
    method WaitQueueBlock(cpu: Cpu, w: Qid, timeout: nat) returns (blocked: bool)
      requires Now().Inv() && Busy(Now(), cpu) && w in waits
      modifies this
      ensures blocked <==> timeout != 0
      ensures Now() == if timeout == 0 then old(Now()) else WentToWait(old(Now()), cpu, w)
    {
      if timeout == 0 {
        return false;
      }
      CurrentRuns(Now(), cpu);
      ghost var s := Now();
      var t := current[cpu];
      s.JoinWaitKeeps(t, w);
      waits := waits[w := waits[w].(list := waits[w].list + [t])];
      waits := waits[w := waits[w].(count := waits[w].count + 1)];
      threads := threads[t := threads[t].(state := Blocked, waitingOn := Some(w), blockRet := NO_ERROR)];
      assert Now() == s.JoinWait(t, w);
      StartsLeaving(s, Now(), cpu);
      Resched(cpu);
      return true;
    }

    /** list_remove_head and what happens to the thread, but for the run queue. */
    method TakeFirst(w: Qid, v: Code) returns (t: Tid)
      requires |run| == NUM_PRIORITIES && w in waits && waits[w].list != [] && waits[w].list[0] in threads
      modifies this`waits, this`threads
      ensures t in threads && t == old(waits)[w].list[0]
      ensures Now().Enqueue(t, Head) == old(Now()).Wake(w, 0, v)
    {
      t := waits[w].list[0];
      waits := waits[w := WaitQueue(waits[w].list[1..], waits[w].count - 1)];
      threads := threads[t := threads[t].(state := Ready, blockRet := v, waitingOn := None)];
      assert old(waits)[w].list[1..] == Without(old(waits)[w].list, 0);
    }

    /** The caller of a wake that reschedules goes to the head of its run queue. */
    method InsertCurrentAtHead(cpu: Cpu)
      requires Now().Inv() && Busy(Now(), cpu)
      modifies this
      ensures Now() == StepAside(old(Now()), cpu, true)
    {
      CurrentRuns(Now(), cpu);
      threads := threads[current[cpu] := threads[current[cpu]].(state := Ready)];
      InsertInRunQueueHead(current[cpu]);
    }

    /** wait_queue_wake_one. */
    method WakeOne(cpu: Cpu, w: Qid, reschedule: bool, v: Code) returns (woken: int)
      requires Now().Inv() && w in waits && cpu < |current| && (reschedule ==> Busy(Now(), cpu))
      modifies this
      ensures Now() == WokenOne(old(Now()), cpu, w, reschedule, v)
      ensures woken == if old(waits)[w].list == [] then 0 else 1
    {
      woken := 0;
      if waits[w].list != [] {
        ghost var s1 := StepAside(Now(), cpu, reschedule);
        if reschedule {
          InsertCurrentAtHead(cpu);
        }
        assert Now() == s1;
        WakeKeepsWaking(s1, cpu, reschedule, w, 0, v);
        var t := TakeFirst(w, v);
        InsertInRunQueueHead(t);
        if reschedule {
          Resched(cpu);
        }
        woken := 1;
      }
    }

    /** wait_queue_wake_all: count is zero afterwards, as the source asserts. */
    method WakeAll(cpu: Cpu, w: Qid, reschedule: bool, v: Code) returns (woken: int)
      requires Now().Inv() && w in waits && cpu < |current| && (reschedule ==> Busy(Now(), cpu))
      modifies this
      ensures Now() == WokenAll(old(Now()), cpu, w, reschedule, v)
      ensures woken == |old(waits)[w].list|
    {
      ghost var leaving := reschedule && waits[w].count > 0;
      ghost var all := WakeList(StepAside(Now(), cpu, leaving), cpu, leaving, w, v);
      assert Now().WaitOk(w);
      if reschedule && waits[w].count > 0 {
        InsertCurrentAtHead(cpu);
      }
      woken := 0;
      while waits[w].list != []
        invariant w in waits && Waking(Now(), cpu, leaving) && WakeList(Now(), cpu, leaving, w, v) == all
        invariant woken + |waits[w].list| == |old(waits)[w].list|
        decreases |waits[w].list|
      {
        WakeKeepsWaking(Now(), cpu, leaving, w, 0, v);
        var t := TakeFirst(w, v);
        InsertInRunQueueHead(t);
        woken := woken + 1;
      }
      assert waits[w].count == 0 by { assert Now().WaitOk(w); }
      if woken > 0 && reschedule {
        Resched(cpu);
      }
    }

    /** thread_unblock_from_wait_queue. */
    method UnblockFromWaitQueue(t: Tid, v: Code) returns (r: Code)
      requires Now().Inv() && t in threads
      modifies this
      ensures Now() == Unblocked(old(Now()), t, v)
      ensures r == if old(threads)[t].state == Blocked then NO_ERROR else ERR_NOT_BLOCKED
    {
      if threads[t].state != Blocked {
        return ERR_NOT_BLOCKED;
      }
      assert Now().ThreadOk(t);
      ghost var s := Now();
      var w := threads[t].waitingOn.value;
      var i := IndexOf(waits[w].list, t);
      waits := waits[w := WaitQueue(Without(waits[w].list, i), waits[w].count - 1)];
      threads := threads[t := threads[t].(waitingOn := None, state := Ready, blockRet := v)];
      InsertInRunQueueHead(t);
      assert Now() == s.Wake(w, i, v);
      return NO_ERROR;
    }
  }
}
