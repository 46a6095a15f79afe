/**
 kernel/event.c: events that stay signaled, and events that let one waiter through.
 */
module Event {
  import opened Clock
  import opened Common
  import opened Waiters

  /** `initial`, `signals`, `passed` and `dropped` record history: the initial bit, the calls of
      event_signal, the waits that found the event signaled, and the signals that were lost, because
      the event was signaled already or was unsignaled before anyone waited. */
  datatype State = State(signaled: bool, auto: bool, wait: Waiters, initial: bool, signals: nat, passed: nat, dropped: nat) {

    function Successes(): nat {
      passed + |wait.grants|
    }

    /** A signaled event has no waiters; an event that lets one waiter through spends each signal once. */
    ghost predicate Valid() {
      && wait.Valid()
      && (signaled ==> wait.queue == [])
      && (auto ==> Successes() + Bit(signaled) + dropped == Bit(initial) + signals)
    }
  }

  function Bit(b: bool): nat {
    if b then 1 else 0
  }

  datatype Op = Wait(t: Tid, timeout: Time32) | Resume(t: Tid) | Signal | Unsignal | Timeout(t: Tid)

  predicate Enabled(s: State, op: Op) {
    match op
    case Wait(t, _) => !s.wait.Inside(t)
    case Resume(t) => t in s.wait.granted || t in s.wait.timedOut
    case Timeout(t) => s.wait.MayTimeOut(t)
    case _ => true
  }

  function Waited(s: State, t: Tid, timeout: Time32): (r: State)
    requires s.Valid() && !s.wait.Inside(t)
    ensures r.Valid()
  {
    if s.signaled then s.(signaled := !s.auto, passed := s.passed + 1)
    else if timeout == 0 then s
    else s.(wait := s.wait.Join(t, timeout))
  }

  function Signaled(s: State): (r: State)
    requires s.Valid()
    ensures r.Valid()
  {
    var s1 := s.(signals := s.signals + 1);
    if s.signaled then s1.(dropped := s.dropped + 1)
    else if !s.auto then s1.(signaled := true, wait := s.wait.WakeAll())
    else s1.(signaled := s.wait.queue == [], wait := s.wait.WakeOne())
  }

  function After(s: State, op: Op): (r: State)
    requires s.Valid() && Enabled(s, op)
    ensures r.Valid()
  {
    match op
    case Wait(t, timeout) => Waited(s, t, timeout)
    case Resume(t) => s.(wait := s.wait.Return(t))
    case Signal => Signaled(s)
    case Unsignal => s.(signaled := false, dropped := s.dropped + Bit(s.signaled))
    case Timeout(t) => s.(wait := s.wait.Timeout(t))
  }

  function Initial(signaled: bool, auto: bool): (s: State)
    ensures s.Valid()
  {
    State(signaled, auto, Waiters([], {}, {}, 0, []), signaled, 0, 0, 0)
  }

  ghost predicate CanRun(s: State, ops: seq<Op>)
    requires s.Valid()
    decreases |ops|
  {
    ops != [] ==> Enabled(s, ops[0]) && CanRun(After(s, ops[0]), ops[1..])
  }

  ghost function Run(s: State, ops: seq<Op>): (r: State)
    requires s.Valid() && CanRun(s, ops)
    ensures r.Valid()
    decreases |ops|
  {
    if ops == [] then s else Run(After(s, ops[0]), ops[1..])
  }

  function Signals(ops: seq<Op>): nat {
    if ops == [] then 0 else (if ops[0].Signal? then 1 else 0) + Signals(ops[1..])
  }

  /** Through any run, with timeouts: a signaled event has no waiters, and an event that lets one waiter
      through never lets through more than were signaled. */
  lemma {:induction false} SignalsAreSpentOnce(s: State, ops: seq<Op>)
    requires s.Valid() && CanRun(s, ops)
    ensures var r := Run(s, ops);
      && r.auto == s.auto && r.initial == s.initial && r.signals == s.signals + Signals(ops)
      && (r.signaled ==> r.wait.queue == [])
      && (s.auto ==> r.Successes() + Bit(r.signaled) <= Bit(s.initial) + s.signals + Signals(ops))
    decreases |ops|
  {
    if ops != [] {
      SignalsAreSpentOnce(After(s, ops[0]), ops[1..]);
    }
  }

  function Signalling(n: nat): seq<Op> {
    seq(n, _ => Signal)
  }

  function Threads(w: seq<Ticket>): set<Tid> {
    if w == [] then {} else {w[0].thread} + Threads(w[1..])
  }

  lemma {:induction false} SignalsFirst(s: State, n: nat)
    requires s.Valid() && n > 0 && CanRun(After(s, Signal), Signalling(n - 1))
    ensures CanRun(s, Signalling(n)) && Run(s, Signalling(n)) == Run(After(s, Signal), Signalling(n - 1))
  {
    assert Signalling(n)[1..] == Signalling(n - 1);
    RunStep(s, Signalling(n));
  }

  lemma {:induction false} RunStep(s: State, ops: seq<Op>)
    requires s.Valid() && ops != [] && Enabled(s, ops[0])
    ensures CanRun(After(s, ops[0]), ops[1..]) ==> CanRun(s, ops) && Run(s, ops) == Run(After(s, ops[0]), ops[1..])
  {
  }

  /** From s to r, the first n waiters got through; if there are fewer, one more signal is kept, and all
      beyond it are lost. */
  predicate InTurn(s: State, r: State, n: nat) {
    var w := s.wait.queue;
    var through := if n < |w| then n else |w|;
    && r.wait.queue == w[through..]
    && r.wait.granted == s.wait.granted + Threads(w[..through])
    && (r.signaled <==> n > |w|)
    && r.dropped == s.dropped + if n > |w| then n - |w| - 1 else 0
  }

  lemma {:induction false} OneMoreTurn(s: State, s1: State, r: State, n: nat)
    requires s.wait.queue != [] && s1.wait.queue == s.wait.queue[1..] && s1.dropped == s.dropped
    requires s1.wait.granted == s.wait.granted + {s.wait.queue[0].thread} && InTurn(s1, r, n)
    ensures InTurn(s, r, n + 1)
  {
    var w := s.wait.queue;
    var k := if n < |w| - 1 then n else |w| - 1;
    assert w[1..][k..] == w[k + 1..] && w[..k + 1][1..] == w[1..][..k];
  }

  lemma SignalStep(s: State)
    requires s.Valid() && s.auto && !s.signaled && s.wait.queue != []
    ensures var s1 := After(s, Signal);
      && s1.wait.queue == s.wait.queue[1..] && s1.dropped == s.dropped && s1.auto && !s1.signaled
      && s1.wait.granted == s.wait.granted + {s.wait.queue[0].thread}
  {
  }

  lemma {:induction false} NobodyWaits(s: State, n: nat)
    requires s.Valid() && s.auto && !s.signaled && s.wait.queue == []
    ensures CanRun(s, Signalling(n)) && InTurn(s, Run(s, Signalling(n)), n)
  {
    assert s.wait.granted + {} == s.wait.granted;
    if n == 0 {
      assert Signalling(0) == [];
    } else {
      AllLost(After(s, Signal), n - 1);
      SignalsFirst(s, n);
    }
  }

  /** n signals let the n threads that have waited longest through, in order. */
  ghost predicate LetThrough(s: State, n: nat)
    requires s.Valid()
  {
    CanRun(s, Signalling(n)) && InTurn(s, Run(s, Signalling(n)), n)
  }

  lemma {:induction false} NoSignals(s: State)
    requires s.Valid() && s.auto && !s.signaled
    ensures LetThrough(s, 0)
  {
    assert Signalling(0) == [] && s.wait.queue[0..] == s.wait.queue && s.wait.queue[..0] == [];
    assert s.wait.granted + {} == s.wait.granted;
  }

  lemma {:induction false} FirstSignal(s: State, n: nat)
    requires s.Valid() && s.auto && !s.signaled && s.wait.queue != [] && n > 0
    requires LetThrough(After(s, Signal), n - 1)
    ensures LetThrough(s, n)
  {
    SignalStep(s);
    SignalsFirst(s, n);
    OneMoreTurn(s, After(s, Signal), Run(s, Signalling(n)), n - 1);
  }

  /** n signals in succession on an event that lets one waiter through: the n threads that have waited
      longest get through, in order. */
  lemma {:induction false} SignalsInTurn(s: State, n: nat)
    requires s.Valid() && s.auto && !s.signaled
    ensures LetThrough(s, n)
    decreases n
  {
    if s.wait.queue == [] {
      NobodyWaits(s, n);
    } else if n == 0 {
      NoSignals(s);
    } else {
      SignalStep(s);
      SignalsInTurn(After(s, Signal), n - 1);
      FirstSignal(s, n);
    }
  }

  lemma {:induction false} AllLost(s: State, n: nat)
    requires s.Valid() && s.signaled
    ensures CanRun(s, Signalling(n))
    ensures Run(s, Signalling(n)) == s.(signals := s.signals + n, dropped := s.dropped + n)
    decreases n
  {
    if n > 0 {
      AllLost(After(s, Signal), n - 1);
      SignalsFirst(s, n);
    }
  }

  /** Without the auto-unsignal flag, one signal lets everybody through, and everybody who comes later
      until it is taken back. */
  lemma SignalReachesAll(s: State, n: nat, t: Tid, timeout: Time32)
    requires s.Valid() && !s.auto && n > 0
    ensures CanRun(s, Signalling(n))
    ensures var r := Run(s, Signalling(n));
      && r.signaled && r.wait.queue == []
      && (!s.signaled ==> forall u :: s.wait.Waits(u) ==> u in r.wait.granted)
      && (!r.wait.Inside(t) ==> After(r, Wait(t, timeout)) == r.(passed := r.passed + 1))
  {
    AllLost(After(s, Signal), n - 1);
    SignalsFirst(s, n);
  }

  /** A wait, whatever its timeout, passes if and only if the event is signaled, and then takes the signal with
      it if only one is let through; else it fails without a trace if it does not wait, and joins the queue
      if it does. */
  lemma PassesIff(s: State, t: Tid, timeout: Time32)
    requires s.Valid() && Enabled(s, Wait(t, timeout))
    ensures var r := After(s, Wait(t, timeout));
      if s.signaled then r.passed == s.passed + 1 && r.wait == s.wait && r.signaled == !s.auto
      else if timeout == 0 then r == s
      else
        && r.passed == s.passed && !r.signaled && r.wait.queue == s.wait.queue + [Ticket(t, s.wait.next, timeout)]
        && r.wait.granted == s.wait.granted && r.wait.timedOut == s.wait.timedOut
  {
  }

  /** Whether the last of the calls of event_signal and event_unsignal was the former. */
  function LastSignals(ops: seq<Op>, before: bool): bool {
    if ops == [] then before
    else LastSignals(ops[1..], if ops[0].Signal? then true else if ops[0].Unsignal? then false else before)
  }

  /** Through any run, an event without the auto-unsignal flag is signaled if and only if it was signaled
      last, and one with the flag only if it was. */
  lemma {:induction false} LastWins(s: State, ops: seq<Op>, before: bool)
    requires s.Valid() && CanRun(s, ops) && (s.signaled ==> before) && (!s.auto ==> before == s.signaled)
    ensures Run(s, ops).signaled ==> LastSignals(ops, before)
    ensures !s.auto ==> Run(s, ops).signaled == LastSignals(ops, before)
    decreases |ops|
  {
    if ops != [] {
      LastWins(After(s, ops[0]), ops[1..], if ops[0].Signal? then true else if ops[0].Unsignal? then false else before);
    }
  }

  // ---- the code -----------------------------------------------------------------------------------

  class Event {
    var signaled: bool
    const auto: bool
    var wait: Waiters
    ghost const initial: bool
    ghost var signals: nat
    ghost var passed: nat
    ghost var dropped: nat

    ghost function Now(): State
      reads this
    {
      State(signaled, auto, wait, initial, signals, passed, dropped)
    }

    /** event_init. */
    constructor (initial: bool, auto: bool)
      ensures Now() == Initial(initial, auto)
    {
      this.signaled, this.auto, this.initial := initial, auto, initial;
      wait := Waiters([], {}, {}, 0, []);
      signals, passed, dropped := 0, 0, 0;
    }

    /** event_wait_timeout, up to the point where it may block. */
    method WaitTimeout(t: Tid, timeout: Time32) returns (r: Option<Code>)
      requires Now().Valid() && Enabled(Now(), Wait(t, timeout))
      modifies this
      ensures Now() == After(old(Now()), Wait(t, timeout))
      ensures r == if old(signaled) then Some(NO_ERROR) else if timeout == 0 then Some(ERR_TIMED_OUT) else None
    {
      if signaled {
        if auto {
          signaled := false;
        }
        passed := passed + 1;
        return Some(NO_ERROR);
      }
      if timeout == 0 {
        return Some(ERR_TIMED_OUT);
      }
      wait := wait.Join(t, timeout);
      return None;
    }

    method Signal()
      requires Now().Valid()
      modifies this
      ensures Now() == After(old(Now()), Op.Signal)
    {
      signals := signals + 1;
      if !signaled {
        if auto {
          var woken := wait.WokenByOne();
          wait := wait.WakeOne();
          if woken <= 0 {
            signaled := true;
          }
        } else {
          signaled := true;
          wait := wait.WakeAll();
        }
      } else {
        dropped := dropped + 1;
      }
    }

    method Unsignal()
      requires Now().Valid()
      modifies this
      ensures Now() == After(old(Now()), Op.Unsignal)
    {
      dropped := dropped + Bit(signaled);
      signaled := false;
    }
  }
}
