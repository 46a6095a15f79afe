/**
 When timers fire (kernel/timer.c), if the hardware keeps time: an interrupt comes at the instant for
 which it is armed.
 */
module Timeliness {
  import opened Clock
  import opened Common
  import opened Expiry
  import opened TimerQueue

  /** When the event takes effect: a call under the lock, an interrupt as it comes. */
  function Instant(event: Event): nat {
    match event
    case Call(c) => c.arm
    case Interrupt(now, _, _) => now
  }

  /** Nothing happens after the instant for which the interrupt is armed but the interrupt, which comes at
      that instant. */
  ghost predicate KeepsTime(s: State, event: Event) {
    && (s.hw.Armed? ==> Instant(event) <= s.hw.deadline)
    && (event.Interrupt? ==> s.hw.Armed? && event.now == s.hw.deadline)
  }

  ghost predicate InTime(states: seq<State>, events: seq<Event>)
    requires |states| == |events| + 1
  {
    forall i :: 0 <= i < |events| ==> KeepsTime(states[i], events[i])
  }

  /** The interrupt is armed for the first timer, up to `slip` late. */
  ghost predicate Timely(s: State, slip: nat) {
    s.queue != [] ==> s.hw.Armed? && s.hw.deadline <= s.queue[0].due + slip
  }

  lemma SetTimely(s: State, id: TimerId, at: nat, arm: nat, delay: Time32, period: Time32, slip: nat)
    requires Timely(s, slip) && !Has(s.queue, id) && at <= arm <= at + slip
    ensures Timely(s.Set(id, at, arm, delay, period), slip)
  {
    InsertPlaces(s.queue, Entry(id, at + delay), 0);
  }

  /** A timer that is found overdue when the one before it is cancelled, was due no earlier than that one,
      whose interrupt was yet to come. */
  lemma CancelTimely(s: State, id: TimerId, at: nat, arm: nat, slip: nat, lo: nat)
    requires s.Valid(lo) && id in s.timers && Timely(s, slip) && at <= arm <= at + slip
    requires s.hw.Armed? ==> arm <= s.hw.deadline
    ensures Timely(s.Cancel(id, at, arm), slip)
  {
    var q := Remove(s.queue, id);
    RemoveMember(s.queue, id);
    if q != [] {
      assert q[0] in q;
      var i :| 0 <= i < |s.queue| && s.queue[i] == q[0];
      SortedFacts(s.queue, 0, i);
    }
  }

  lemma TickTimely(s: State, now: nat, end: nat, cb: Callbacks, lo: nat)
    requires Ready(s, now, cb, lo) && now <= end
    ensures Timely(Tick(s, now, end, cb, lo), end - now)
  {
    TickSlips(s, now, end, cb, lo);
  }

  lemma TimelyStep(s: State, event: Event, lo: nat, s': State, slip: nat)
    requires EventOk(s, event, lo) && Step(s, event, lo, s') && KeepsTime(s, event)
    requires Timely(s, slip) && Lag(event) <= slip
    ensures Timely(s', slip)
  {
    match event
    case Call(c) =>
      match c {
        case SetOneshot(id, at, arm, delay) => SetTimely(s, id, at, arm, AtLeastOne(delay), 0, slip);
        case SetPeriodic(id, at, arm, period) => SetTimely(s, id, at, arm, AtLeastOne(period), AtLeastOne(period), slip);
        case Cancel(id, at, arm) => CancelTimely(s, id, at, arm, slip, lo);
      }
    case Interrupt(now, end, cb) => TickTimely(s, now, end, cb, lo);
  }

  lemma {:induction false} AlwaysTimely(states: seq<State>, events: seq<Event>, los: seq<nat>, slip: nat, n: nat)
    requires Run(states, events, los) && InTime(states, events) && Timely(states[0], slip) && n <= |events|
    requires forall i :: 0 <= i < |events| ==> Lag(events[i]) <= slip
    ensures Timely(states[n], slip)
    decreases n
  {
    if n > 0 {
      AlwaysTimely(states, events, los, slip, n - 1);
      var i := n - 1;
      assert EventOk(states[i], events[i], los[i]) && Step(states[i], events[i], los[i], states[i + 1]);
      assert KeepsTime(states[i], events[i]);
      TimelyStep(states[i], events[i], los[i], states[n], slip);
    }
  }

  /** Through any such run, at no event is any queued timer overdue by more than the longest time that a
      call or a tick takes between reading the clock and arming the interrupt. */
  lemma NeverOverdue(states: seq<State>, events: seq<Event>, los: seq<nat>, slip: nat, n: nat, e: Entry)
    requires Run(states, events, los) && InTime(states, events) && Timely(states[0], slip) && n < |events|
    requires forall i :: 0 <= i < |events| ==> Lag(events[i]) <= slip
    requires e in states[n].queue
    ensures Instant(events[n]) <= e.due + slip
  {
    AlwaysTimely(states, events, los, slip, n);
    assert EventOk(states[n], events[n], los[n]) && KeepsTime(states[n], events[n]);
    var j :| 0 <= j < |states[n].queue| && states[n].queue[j] == e;
    SortedFacts(states[n].queue, 0, j);
  }

  /** So a timer fires at the earliest when it is due, and at the latest `slip` after; and one that is
      due at an interrupt and that no callback cancels does fire. */
  lemma FiresInTime(states: seq<State>, events: seq<Event>, los: seq<nat>, slip: nat, n: nat, e: Entry)
    requires Run(states, events, los) && InTime(states, events) && Timely(states[0], slip) && n < |events|
    requires forall i :: 0 <= i < |events| ==> Lag(events[i]) <= slip
    requires events[n].Interrupt?
    ensures EventOk(states[n], events[n], los[n]) && Ready(states[n].(hw := Stopped), events[n].now, events[n].cb, los[n])
    ensures var Interrupt(now, _, cb) := events[n];
      && (e in Expire(states[n].(hw := Stopped), now, cb, los[n]).1 ==> e.due <= now <= e.due + slip)
      && (e in states[n].queue && e.due <= now && e.id !in CancelledIds(states[n].(hw := Stopped), now, cb, los[n]) ==>
            e in Expire(states[n].(hw := Stopped), now, cb, los[n]).1)
  {
    var s, lo := states[n], los[n];
    assert EventOk(s, events[n], lo);
    AnyHardware(s, Stopped, lo);
    var Interrupt(now, _, cb) := events[n];
    var s0 := s.(hw := Stopped);
    if e in Expire(s0, now, cb, lo).1 {
      FiresOnlyDue(s0, now, cb, lo, e);
      NeverOverdue(states, events, los, slip, n, e);
    }
    if e in s.queue && e.due <= now && e.id !in CancelledIds(s0, now, cb, lo) {
      DueFires(s0, now, cb, lo, e);
    }
  }

  // ---- a late interrupt -------------------------------------------------------------------------------

  function NoCommands(s: State, id: TimerId): seq<Command> {
    []
  }

  lemma TwoSteps(s0: State, e0: Event, s1: State, e1: Event, s2: State)
    requires EventOk(s0, e0, 0) && Step(s0, e0, 0, s1) && KeepsTime(s0, e0)
    requires EventOk(s1, e1, 0) && Step(s1, e1, 0, s2) && KeepsTime(s1, e1)
    ensures Run([s0, s1, s2], [e0, e1], [0, 0]) && InTime([s0, s1, s2], [e0, e1])
  {
  }

  /** A tick of one millisecond: a timer with a period of 10 is set at 0, the interrupt comes at 10 and its
      tick ends at 11; the timer is then due at 20 and the interrupt at 21. */
  lemma LateRun() returns (states: seq<State>)
    ensures var events := [Call(SetPeriodic(0, 0, 0, 10)), Interrupt(10, 11, NoCommands)];
      Run(states, events, [0, 0]) && InTime(states, events)
    ensures |states| == 3 && states[0] == State([], map[], Stopped)
    ensures states[2].queue == [Entry(0, 20)] && states[2].hw == Armed(11, 21) && !states[2].Guarded(0)
  {
    var s0 := State([], map[], Stopped);
    var s1 := OnceSet(s0, NoCommands);
    OnceAround(s1, NoCommands);
    var s2 := Tick(s1, 10, 11, NoCommands, 0);
    TwoSteps(s0, Call(SetPeriodic(0, 0, 0, 10)), s1, Interrupt(10, 11, NoCommands), s2);
    states := [s0, s1, s2];
  }

  lemma OnceSet(s: State, cb: Callbacks) returns (s': State)
    requires s == State([], map[], Stopped) && forall x, id :: cb(x, id) == []
    ensures s.Valid(0) && CommandOk(s, SetPeriodic(0, 0, 0, 10), 0, 0) && s' == Do(s, SetPeriodic(0, 0, 0, 10))
    ensures Ready(s', 10, cb, 0) && s'.hw == Armed(0, 10) && s'.queue == [Entry(0, 10)] && s'.timers == map[0 := Timer(10, 10, true)]
  {
    s' := Do(s, SetPeriodic(0, 0, 0, 10));
    assert s'.queue == [Entry(0, 10)];
    s.SetKeeps(0, 0, 0, 10, 10, 0);
  }

  lemma OnceAround(s: State, cb: Callbacks)
    requires Ready(s, 10, cb, 0) && s.queue == [Entry(0, 10)] && s.timers == map[0 := Timer(10, 10, true)]
    requires forall x, id :: cb(x, id) == []
    ensures Tick(s, 10, 11, cb, 0).queue == [Entry(0, 20)] && Tick(s, 10, 11, cb, 0).hw == Armed(11, 21)
  {
    var s0 := s.(hw := Stopped);
    AnyHardware(s, Stopped, 0);
    var s1 := Fired(s0, 10, cb, 0);
    assert Popped(s0).queue == [];
    assert DoAll(Popped(s0), cb(Popped(s0), 0), 10, 0) == Popped(s0);
    assert s1.queue == [Entry(0, 20)];
    FewerDue(s0, 10, cb, 0);
    assert Expire(s1, 10, cb, 0).0 == s1;
    assert Expire(s0, 10, cb, 0).0 == s1;
  }
}
