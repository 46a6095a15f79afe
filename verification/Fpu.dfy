/**
 arch/arm64/fpu.c: floating point registers are saved when a thread is switched out but loaded only
 when the next one uses them, and not even then if they are still in place.
 */
module Fpu {
  import opened Common

  type Cpu = nat
  type Regs = seq<bv64>

  /** struct fpstate of a thread: its saved registers, and the processor that loaded them last. */
  datatype Saved = Saved(regs: Regs, currentCpu: Cpu)

  /** One processor: its registers, the FPEN field of CPACR_EL1, current_fpstate, and the thread that
      runs. fpen is 3 when floating point is enabled. */
  datatype Processor = Processor(regs: Regs, fpen: nat, cached: Option<Tid>, thread: Tid)

  /** `live` is what the specification wants each thread's registers to be: what it last wrote. */
  datatype State = State(cpus: seq<Processor>, saved: map<Tid, Saved>, live: map<Tid, Regs>) {

    predicate Enabled(c: Cpu)
      requires c < |cpus|
    {
      cpus[c].fpen == 3
    }

    /** An enabled processor holds its thread's registers; a disabled one may hold those of the thread
        that it and the thread agree on, and then they are the saved ones. */
    ghost predicate CpuOk(c: Cpu)
      requires c < |cpus|
    {
      var p := cpus[c];
      && (p.fpen == 0 || p.fpen == 3)
      && p.thread in saved && (p.cached.Some? ==> p.cached.value in saved)
      && (Enabled(c) ==> p.cached == Some(p.thread) && saved[p.thread].currentCpu == c && p.thread in live && p.regs == live[p.thread])
      && (!Enabled(c) && p.cached.Some? && saved[p.cached.value].currentCpu == c ==> p.regs == saved[p.cached.value].regs)
    }

    /** A thread that does not run with floating point enabled has its registers saved. */
    ghost predicate ThreadOk(t: Tid)
      requires t in saved
    {
      t in live && ((forall c: Cpu :: c < |cpus| && cpus[c].thread == t ==> !Enabled(c)) ==> saved[t].regs == live[t])
    }

    ghost predicate Apart(c: Cpu, d: Cpu)
      requires c < d < |cpus|
    {
      cpus[c].thread != cpus[d].thread
    }

    ghost predicate Valid() {
      && (forall c: Cpu {:trigger CpuOk(c)} :: c < |cpus| ==> CpuOk(c))
      && (forall t {:trigger ThreadOk(t)} :: t in saved ==> ThreadOk(t))
      && (forall c: Cpu, d: Cpu :: c < d < |cpus| ==> Apart(c, d))
    }

    lemma Alone(c: Cpu, d: Cpu)
      requires Valid() && c < |cpus| && d < |cpus| && cpus[c].thread == cpus[d].thread
      ensures c == d
    {
      assert c < d ==> Apart(c, d);
      assert d < c ==> Apart(d, c);
    }
  }

  /** arm64_fpu_load_state. */
  function Loaded(s: State, c: Cpu, t: Tid): State
    requires c < |s.cpus| && t in s.saved
  {
    if s.cpus[c].cached == Some(t) && s.saved[t].currentCpu == c then s
    else s.(cpus := s.cpus[c := s.cpus[c].(cached := Some(t), regs := s.saved[t].regs)],
            saved := s.saved[t := s.saved[t].(currentCpu := c)])
  }

  /** arm64_fpu_exception, on the first use of floating point since the thread was switched in. */
  function Trapped(s: State, c: Cpu): (r: State)
    requires s.Valid() && c < |s.cpus|
    ensures r.Valid() && |r.cpus| == |s.cpus| && r.Enabled(c) && r.live == s.live && r.cpus[c].thread == s.cpus[c].thread
    ensures r.saved.Keys == s.saved.Keys
  {
    assert s.CpuOk(c);
    if s.Enabled(c) then s
    else
      TrapKeeps(s, c);
      Loaded(s.(cpus := s.cpus[c := s.cpus[c].(fpen := 3)]), c, s.cpus[c].thread)
  }

  lemma TrapKeeps(s: State, c: Cpu)
    requires s.Valid() && c < |s.cpus| && !s.Enabled(c) && s.cpus[c].thread in s.saved
    ensures Loaded(s.(cpus := s.cpus[c := s.cpus[c].(fpen := 3)]), c, s.cpus[c].thread).Valid()
  {
    var t := s.cpus[c].thread;
    var r := Loaded(s.(cpus := s.cpus[c := s.cpus[c].(fpen := 3)]), c, t);
    forall d: Cpu | d < |s.cpus| && s.cpus[d].thread == t
      ensures d == c
    {
      s.Alone(c, d);
    }
    assert s.CpuOk(c) && s.ThreadOk(t);
    assert s.saved[t].regs == s.live[t];
    forall d: Cpu | d < |r.cpus|
      ensures r.CpuOk(d)
    {
      assert s.CpuOk(d);
    }
    forall u | u in r.saved
      ensures r.ThreadOk(u)
    {
      assert s.ThreadOk(u);
      if u != t && forall d: Cpu :: d < |r.cpus| && r.cpus[d].thread == u ==> !r.Enabled(d) {
        forall d: Cpu | d < |s.cpus| && s.cpus[d].thread == u
          ensures !s.Enabled(d)
        {
          assert r.cpus[d].thread == u && !r.Enabled(d);
        }
      }
    }
    forall d: Cpu, e: Cpu | d < e < |r.cpus|
      ensures r.Apart(d, e)
    {
      assert s.Apart(d, e);
    }
  }

  /** A floating point instruction that leaves v in the registers. */
  function Wrote(s: State, c: Cpu, v: Regs): (r: State)
    requires s.Valid() && c < |s.cpus|
    ensures r.Valid()
  {
    var s1 := Trapped(s, c);
    var t := s1.cpus[c].thread;
    var r := s1.(cpus := s1.cpus[c := s1.cpus[c].(regs := v)], live := s1.live[t := v]);
    WriteKeeps(s1, c, v);
    r
  }

  lemma WriteKeeps(s: State, c: Cpu, v: Regs)
    requires s.Valid() && c < |s.cpus| && s.Enabled(c)
    ensures s.(cpus := s.cpus[c := s.cpus[c].(regs := v)], live := s.live[s.cpus[c].thread := v]).Valid()
  {
    var t := s.cpus[c].thread;
    var r := s.(cpus := s.cpus[c := s.cpus[c].(regs := v)], live := s.live[t := v]);
    forall d: Cpu | d < |r.cpus|
      ensures r.CpuOk(d)
    {
      assert s.CpuOk(d);
      if d != c && s.cpus[d].thread == t {
        s.Alone(c, d);
      }
    }
    forall u | u in r.saved
      ensures r.ThreadOk(u)
    {
      assert s.ThreadOk(u);
      if u == t {
        assert r.cpus[c].thread == t && r.Enabled(c);
      } else if forall d: Cpu :: d < |r.cpus| && r.cpus[d].thread == u ==> !r.Enabled(d) {
        forall d: Cpu | d < |s.cpus| && s.cpus[d].thread == u
          ensures !s.Enabled(d)
        {
          assert r.cpus[d].thread == u && !r.Enabled(d);
        }
      }
    }
    forall d: Cpu, e: Cpu | d < e < |r.cpus|
      ensures r.Apart(d, e)
    {
      assert s.Apart(d, e);
    }
  }

  /** arch_context_switch: arm64_fpu_pre_context_switch saves the registers if floating point is
      enabled, and disables it. */
  function Switched(s: State, c: Cpu, next: Tid): (r: State)
    requires s.Valid() && c < |s.cpus| && next in s.saved && forall d: Cpu :: d < |s.cpus| && d != c ==> s.cpus[d].thread != next
    ensures r.Valid()
  {
    assert s.CpuOk(c);
    var p := s.cpus[c];
    SwitchKeeps(s, c, next);
    if p.fpen != 0 then
      s.(cpus := s.cpus[c := p.(fpen := 0, thread := next)], saved := s.saved[p.thread := s.saved[p.thread].(regs := p.regs)])
    else s.(cpus := s.cpus[c := p.(thread := next)])
  }

  lemma SwitchKeeps(s: State, c: Cpu, next: Tid)
    requires s.Valid() && c < |s.cpus| && next in s.saved && forall d: Cpu :: d < |s.cpus| && d != c ==> s.cpus[d].thread != next
    ensures s.cpus[c].thread in s.saved
    ensures var p := s.cpus[c];
      if p.fpen != 0 then
        s.(cpus := s.cpus[c := p.(fpen := 0, thread := next)], saved := s.saved[p.thread := s.saved[p.thread].(regs := p.regs)]).Valid()
      else s.(cpus := s.cpus[c := p.(thread := next)]).Valid()
  {
    var p := s.cpus[c];
    assert s.CpuOk(c);
    var r := if p.fpen != 0 then
        s.(cpus := s.cpus[c := p.(fpen := 0, thread := next)], saved := s.saved[p.thread := s.saved[p.thread].(regs := p.regs)])
      else s.(cpus := s.cpus[c := p.(thread := next)]);
    forall d: Cpu | d < |r.cpus|
      ensures r.CpuOk(d)
    {
      assert s.CpuOk(d);
      if d != c && s.cpus[d].thread == p.thread {
        s.Alone(c, d);
      }
    }
    forall u | u in r.saved
      ensures r.ThreadOk(u)
    {
      assert s.ThreadOk(u);
      if u != p.thread && forall d: Cpu :: d < |r.cpus| && r.cpus[d].thread == u ==> !r.Enabled(d) {
        forall d: Cpu | d < |s.cpus| && s.cpus[d].thread == u
          ensures !s.Enabled(d)
        {
          assert d != c && r.cpus[d] == s.cpus[d] && r.cpus[d].thread == u && !r.Enabled(d);
        }
      }
      if u == p.thread && p.fpen == 0 {
        forall d: Cpu | d < |s.cpus| && s.cpus[d].thread == u
          ensures !s.Enabled(d)
        {
          s.Alone(c, d);
        }
      }
    }
    forall d: Cpu, e: Cpu | d < e < |r.cpus|
      ensures r.Apart(d, e)
    {
      assert s.Apart(d, e);
    }
  }

  // ---- whole runs ---------------------------------------------------------------------------------

  /** The current thread of a processor uses its floating point registers, writes them, or is switched
      out for another thread, which may have run elsewhere before. */
  datatype Op = Use(cpu: Cpu) | Write(cpu: Cpu, v: Regs) | Switch(cpu: Cpu, next: Tid)

  ghost predicate Possible(s: State, op: Op) {
    op.cpu < |s.cpus| &&
    (op.Switch? ==> op.next in s.saved && forall d: Cpu :: d < |s.cpus| && d != op.cpu ==> s.cpus[d].thread != op.next)
  }

  ghost function After(s: State, op: Op): (r: State)
    requires s.Valid() && Possible(s, op)
    ensures r.Valid()
  {
    match op
    case Use(c) => Trapped(s, c)
    case Write(c, v) => Wrote(s, c, v)
    case Switch(c, next) => Switched(s, c, next)
  }

  ghost predicate CanRun(s: State, ops: seq<Op>)
    requires s.Valid()
    decreases |ops|
  {
    ops != [] ==> Possible(s, ops[0]) && CanRun(After(s, ops[0]), ops[1..])
  }

  ghost function Run(s: State, ops: seq<Op>): (r: State)
    requires s.Valid() && CanRun(s, ops)
    ensures r.Valid()
    decreases |ops|
  {
    if ops == [] then s else Run(After(s, ops[0]), ops[1..])
  }

  /** What thread t wrote last in a run, wherever it ran, or v if nothing. */
  ghost function LastWrite(s: State, ops: seq<Op>, t: Tid, v: Regs): Regs
    requires s.Valid() && CanRun(s, ops)
    decreases |ops|
  {
    if ops == [] then v
    else LastWrite(After(s, ops[0]), ops[1..], t, if ops[0].Write? && s.cpus[ops[0].cpu].thread == t then ops[0].v else v)
  }

  lemma {:induction false} LiveIsLastWrite(s: State, ops: seq<Op>, t: Tid)
    requires s.Valid() && CanRun(s, ops) && t in s.live
    ensures t in Run(s, ops).live && Run(s, ops).live[t] == LastWrite(s, ops, t, s.live[t])
    decreases |ops|
  {
    if ops != [] {
      LiveIsLastWrite(After(s, ops[0]), ops[1..], t);
    }
  }

  /** After any interleaving of uses, writes, switches and migrations, the thread that uses floating
      point finds in the registers exactly what it wrote last, even when nothing was loaded. */
  lemma SeesItsOwn(s: State, ops: seq<Op>, c: Cpu)
    requires s.Valid() && CanRun(s, ops) && c < |Run(s, ops).cpus| && Run(s, ops).cpus[c].thread in s.live
    ensures var r, t := Run(s, ops), Run(s, ops).cpus[c].thread;
      c < |Trapped(r, c).cpus| && Trapped(r, c).cpus[c].regs == LastWrite(s, ops, t, s.live[t])
  {
    var r := Run(s, ops);
    LiveIsLastWrite(s, ops, r.cpus[c].thread);
    assert Trapped(r, c).CpuOk(c);
  }

  /** The thread of a processor after the calls: the one it was switched to last. */
  function Current(ops: seq<Op>, c: Cpu, t: Tid): Tid
    decreases |ops|
  {
    if ops == [] then t else Current(ops[1..], c, if ops[0].Switch? && ops[0].cpu == c then ops[0].next else t)
  }

  /** Whether it used floating point since. */
  function Used(ops: seq<Op>, c: Cpu, before: bool): bool
    decreases |ops|
  {
    if ops == [] then before else Used(ops[1..], c, if ops[0].cpu == c then !ops[0].Switch? else before)
  }

  /** A processor runs the thread it was switched to last, with floating point enabled, so without a trap, if and
      only if that thread used it since. */
  lemma {:induction false} EnabledIff(s: State, ops: seq<Op>, c: Cpu)
    requires s.Valid() && CanRun(s, ops) && c < |s.cpus|
    ensures var r := Run(s, ops);
      |r.cpus| == |s.cpus| && r.cpus[c].thread == Current(ops, c, s.cpus[c].thread) && r.Enabled(c) == Used(ops, c, s.Enabled(c))
    decreases |ops|
  {
    if ops != [] {
      assert s.CpuOk(c);
      EnabledIff(After(s, ops[0]), ops[1..], c);
    }
  }

  /** A switch loads no registers; and a thread that is switched back before another one used floating point finds
      them in place, so that its next use loads nothing either. */
  lemma NothingLoaded(s: State, c: Cpu, next: Tid)
    requires s.Valid() && Possible(s, Switch(c, next)) && s.Enabled(c) && next != s.cpus[c].thread
    ensures var s1, t := After(s, Switch(c, next)), s.cpus[c].thread;
      && s1.cpus[c].regs == s.cpus[c].regs
      && Possible(s1, Switch(c, t))
      && var s2 := After(s1, Switch(c, t));
         s2.cpus[c].regs == s.cpus[c].regs && c < |Trapped(s2, c).cpus| && Trapped(s2, c).cpus[c].regs == s2.cpus[c].regs
         && Trapped(s2, c).saved == s2.saved
  {
    assert s.CpuOk(c);
    forall d: Cpu | d < |s.cpus| && d != c
      ensures s.cpus[d].thread != s.cpus[c].thread
    {
      if s.cpus[d].thread == s.cpus[c].thread {
        s.Alone(c, d);
      }
    }
  }

  /** At the start no registers are cached, and the saved state of every thread is zero. */
  function Initial(threads: seq<Tid>, zero: Regs, others: set<Tid>): State {
    State(seq(|threads|, i requires 0 <= i < |threads| => Processor(zero, 0, None, threads[i])),
          map t | t in others :: Saved(zero, 0), map t | t in others :: zero)
  }

  lemma InitialValid(threads: seq<Tid>, zero: Regs, others: set<Tid>)
    requires Distinct(threads) && forall t :: t in threads ==> t in others
    ensures Initial(threads, zero, others).Valid()
  {
    var s := Initial(threads, zero, others);
    forall c: Cpu | c < |s.cpus|
      ensures s.CpuOk(c)
    {
      assert threads[c] in threads;
    }
  }

  // ---- the code -----------------------------------------------------------------------------------

  class Machine {
    var cpus: seq<Processor>
    var saved: map<Tid, Saved>
    ghost var live: map<Tid, Regs>

    ghost function Now(): State
      reads this
    {
      State(cpus, saved, live)
    }

    constructor (threads: seq<Tid>, zero: Regs, others: set<Tid>)
      requires Distinct(threads) && forall t :: t in threads ==> t in others
      ensures Now() == Initial(threads, zero, others) && Now().Valid()
    {
      cpus := seq(|threads|, i requires 0 <= i < |threads| => Processor(zero, 0, None, threads[i]));
      saved := map t | t in others :: Saved(zero, 0);
      live := map t | t in others :: zero;
      new;
      InitialValid(threads, zero, others);
      assert cpus == Initial(threads, zero, others).cpus;
    }

    /** arm64_fpu_load_state. */
    method LoadState(cpu: Cpu, t: Tid)
      requires cpu < |cpus| && t in saved
      modifies this`cpus, this`saved
      ensures Now() == Loaded(old(Now()), cpu, t)
    {
      if cpus[cpu].cached == Some(t) && saved[t].currentCpu == cpu {
        return;
      }
      saved := saved[t := saved[t].(currentCpu := cpu)];
      cpus := cpus[cpu := cpus[cpu].(cached := Some(t))];
      cpus := cpus[cpu := cpus[cpu].(regs := saved[t].regs)];
    }

    /** arm64_fpu_save_state. */
    method SaveState(cpu: Cpu, t: Tid)
      requires cpu < |cpus| && t in saved
      modifies this`saved
      ensures saved == old(saved)[t := old(saved)[t].(regs := cpus[cpu].regs)]
    {
      saved := saved[t := saved[t].(regs := cpus[cpu].regs)];
    }

    /** arm64_fpu_exception: the trap of a floating point instruction. */
    method Exception(cpu: Cpu)
      requires Now().Valid() && cpu < |cpus|
      modifies this`cpus, this`saved
      ensures Now() == Trapped(old(Now()), cpu)
      ensures cpus[cpu].thread in live && cpus[cpu].regs == live[cpus[cpu].thread]
    {
      assert Now().CpuOk(cpu);
      ghost var s := Now();
      if cpus[cpu].fpen != 3 {
        cpus := cpus[cpu := cpus[cpu].(fpen := 3)];
        LoadState(cpu, cpus[cpu].thread);
      }
      assert Trapped(s, cpu).CpuOk(cpu);
    }

    /** arch_context_switch, with arm64_fpu_pre_context_switch. */
    method ContextSwitch(cpu: Cpu, next: Tid)
      requires Now().Valid() && Possible(Now(), Switch(cpu, next))
      modifies this`cpus, this`saved
      ensures Now() == Switched(old(Now()), cpu, next)
    {
      assert Now().CpuOk(cpu);
      var prev := cpus[cpu].thread;
      if cpus[cpu].fpen != 0 {
        SaveState(cpu, prev);
        cpus := cpus[cpu := cpus[cpu].(fpen := 0)];
      }
      cpus := cpus[cpu := cpus[cpu].(thread := next)];
    }
  }
}
