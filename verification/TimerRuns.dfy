/**
 What becomes of a timer (kernel/timer.c) from the call that sets it on, through any run of calls and
 interrupts, in terms of the calls alone.
 */
module TimerRuns {
  import opened Clock
  import opened Common
  import opened Expiry
  import opened TimerQueue

  // ---- one interrupt ----------------------------------------------------------------------------------

  /** Those of a timer among the entries that fired. */
  function Of(es: seq<Entry>, id: TimerId): seq<Entry> {
    if es == [] then [] else (if es[0].id == id then [es[0]] else []) + Of(es[1..], id)
  }

  ghost predicate Queued(s: State, id: TimerId, due: nat, period: nat) {
    id in s.timers && s.timers[id].period == period && Entry(id, due) in s.queue
  }

  ghost predicate Out(s: State, id: TimerId) {
    id in s.timers && s.timers[id].period == 0 && !Has(s.queue, id)
  }

  lemma OnlyEntry(s: State, lo: nat, id: TimerId, due: nat, e: Entry)
    requires s.Valid(lo) && Entry(id, due) in s.queue && e in s.queue && e.id == id
    ensures e == Entry(id, due)
  {
    var i :| 0 <= i < |s.queue| && s.queue[i] == Entry(id, due);
    var j :| 0 <= j < |s.queue| && s.queue[j] == e;
    if i <= j {
      SortedFacts(s.queue, i, j);
    } else {
      SortedFacts(s.queue, j, i);
    }
  }

  /** The callback of a one-shot timer runs, and the timer does not return. */
  lemma FiredOneShot(s: State, now: nat, cb: Callbacks, lo: nat, id: TimerId)
    requires Ready(s, now, cb, lo) && s.queue != [] && s.queue[0].id == id && id in s.timers && Untouched(cb, id)
    requires s.timers[id].period == 0
    ensures Out(Fired(s, now, cb, lo), id)
  {
    PoppedKeeps(s, lo);
    var s1 := Popped(s);
    DoAllOther(s1, cb(s1, id), now, lo, id);
    DoAllKeeps(s1, cb(s1, id), now, lo);
    StillNotQueued(s1, DoAll(s1, cb(s1, id), now, lo), id);
  }

  lemma {:induction false} OutStays(s: State, now: nat, cb: Callbacks, lo: nat, id: TimerId)
    requires Ready(s, now, cb, lo) && Out(s, id) && Untouched(cb, id)
    ensures Out(Expire(s, now, cb, lo).0, id) && Of(Expire(s, now, cb, lo).1, id) == []
    decreases DueBy(s.queue, now)
  {
    if s.queue != [] && s.queue[0].due <= now {
      FewerDue(s, now, cb, lo);
      var s1 := Fired(s, now, cb, lo);
      FiredOther(s, now, cb, lo, id);
      StillNotQueued(s, s1, id);
      OutStays(s1, now, cb, lo, id);
    }
  }

  lemma {:induction false} NotYetDue(s: State, now: nat, cb: Callbacks, lo: nat, id: TimerId, due: nat, period: nat)
    requires Ready(s, now, cb, lo) && Queued(s, id, due, period) && due > now && Untouched(cb, id)
    ensures Queued(Expire(s, now, cb, lo).0, id, due, period) && Of(Expire(s, now, cb, lo).1, id) == []
    decreases DueBy(s.queue, now)
  {
    if s.queue[0].due <= now {
      if s.queue[0].id == id {
        OnlyEntry(s, lo, id, due, s.queue[0]);
        assert false;
      }
      FewerDue(s, now, cb, lo);
      FiredOther(s, now, cb, lo, id);
      NotYetDue(Fired(s, now, cb, lo), now, cb, lo, id, due, period);
    }
  }

  /** A timer that is due, and that no callback touches, fires once; a periodic one is then queued for a
      period from now, any other is out. */
  lemma {:induction false} DueOnce(s: State, now: nat, cb: Callbacks, lo: nat, id: TimerId, due: nat, period: nat)
    requires Ready(s, now, cb, lo) && Queued(s, id, due, period) && due <= now && Untouched(cb, id)
    ensures Of(Expire(s, now, cb, lo).1, id) == [Entry(id, due)]
    ensures if period > 0 then Queued(Expire(s, now, cb, lo).0, id, now + period, period) else Out(Expire(s, now, cb, lo).0, id)
    decreases DueBy(s.queue, now)
  {
    DueMember(s.queue, Entry(id, due), now);
    FewerDue(s, now, cb, lo);
    var s1 := Fired(s, now, cb, lo);
    if s.queue[0].id != id {
      FiredOther(s, now, cb, lo, id);
      DueOnce(s1, now, cb, lo, id, due, period);
    } else {
      OnlyEntry(s, lo, id, due, s.queue[0]);
      if period > 0 {
        FiredPeriodic(s, now, cb, lo, id);
        NotYetDue(s1, now, cb, lo, id, now + period, period);
      } else {
        FiredOneShot(s, now, cb, lo, id);
        OutStays(s1, now, cb, lo, id);
      }
    }
  }

  // ---- one event --------------------------------------------------------------------------------------

  /** What fires at an event. */
  ghost function Firing(s: State, event: Event, lo: nat): seq<Entry>
    requires EventOk(s, event, lo)
  {
    match event
    case Call(_) => []
    case Interrupt(now, _, cb) =>
      AnyHardware(s, Stopped, lo);
      Expire(s.(hw := Stopped), now, cb, lo).1
  }

  /** The event neither sets nor cancels the timer. */
  ghost predicate LeavesAlone(event: Event, id: TimerId) {
    match event
    case Call(c) => c.id != id
    case Interrupt(_, _, cb) => Untouched(cb, id)
  }

  lemma CallLeaves(s: State, c: Command, lo: nat, id: TimerId)
    requires EventOk(s, Call(c), lo) && c.id != id && id in s.timers
    ensures SameTimer(s, Do(s, c), id)
  {
    assert [c][0] == c && [c][1..] == [];
    assert CommandsOk(Do(s, c), [], lo, lo) && DoAll(Do(s, c), [], lo, lo) == Do(s, c);
    assert CommandsOk(s, [c], lo, lo) && DoAll(s, [c], lo, lo) == DoAll(Do(s, c), [c][1..], lo, lo);
    DoAllOther(s, [c], lo, lo, id);
  }

  /** Where a timer is: in the queue, or out for good. */
  datatype Status = Waits(due: nat, period: nat) | Gone

  ghost predicate Holds(s: State, id: TimerId, st: Status) {
    match st
    case Waits(due, period) => Queued(s, id, due, period)
    case Gone => Out(s, id)
  }

  /** The event is an interrupt at which the timer is due. */
  predicate Meets(event: Event, st: Status) {
    event.Interrupt? && st.Waits? && st.due <= event.now
  }

  function StatusAfter(st: Status, event: Event): Status {
    if !Meets(event, st) then st
    else if st.period > 0 then Waits(event.now + st.period, st.period)
    else Gone
  }

  lemma StatusStep(s: State, event: Event, lo: nat, s': State, id: TimerId, st: Status)
    requires EventOk(s, event, lo) && Step(s, event, lo, s') && LeavesAlone(event, id) && Holds(s, id, st)
    ensures Holds(s', id, StatusAfter(st, event))
    ensures Of(Firing(s, event, lo), id) == if Meets(event, st) then [Entry(id, st.due)] else []
  {
    match event
    case Call(c) =>
      CallLeaves(s, c, lo, id);
      if st.Gone? {
        StillNotQueued(s, s', id);
      }
    case Interrupt(now, end, cb) =>
      AnyHardware(s, Stopped, lo);
      var s0 := s.(hw := Stopped);
      match st {
        case Gone => OutStays(s0, now, cb, lo, id);
        case Waits(due, period) =>
          if due <= now {
            DueOnce(s0, now, cb, lo, id, due, period);
          } else {
            NotYetDue(s0, now, cb, lo, id, due, period);
          }
      }
  }

  // ---- runs -------------------------------------------------------------------------------------------

  /** The state that an event leads to. */
  ghost function AfterEvent(s: State, event: Event, lo: nat): (s': State)
    requires EventOk(s, event, lo)
    ensures Step(s, event, lo, s')
  {
    match event
    case Call(c) => Do(s, c)
    case Interrupt(now, end, cb) => Tick(s, now, end, cb, lo)
  }

  ghost predicate CanRun(s: State, events: seq<Event>, los: seq<nat>)
    decreases |events|
  {
    |los| == |events| &&
    (events != [] ==> EventOk(s, events[0], los[0]) && CanRun(AfterEvent(s, events[0], los[0]), events[1..], los[1..]))
  }

  ghost function RunAll(s: State, events: seq<Event>, los: seq<nat>): State
    requires CanRun(s, events, los)
    decreases |events|
  {
    if events == [] then s else RunAll(AfterEvent(s, events[0], los[0]), events[1..], los[1..])
  }

  /** All firings of a timer. */
  ghost function Firings(s: State, events: seq<Event>, los: seq<nat>, id: TimerId): seq<Entry>
    requires CanRun(s, events, los)
    decreases |events|
  {
    if events == [] then []
    else Of(Firing(s, events[0], los[0]), id) + Firings(AfterEvent(s, events[0], los[0]), events[1..], los[1..], id)
  }

  ghost predicate LeftAlone(events: seq<Event>, id: TimerId) {
    forall event :: event in events ==> LeavesAlone(event, id)
  }

  /** Where the timer is after the events, and the entries with which it fired. */
  function StatusAt(st: Status, events: seq<Event>): Status
    decreases |events|
  {
    if events == [] then st else StatusAt(StatusAfter(st, events[0]), events[1..])
  }

  function Met(id: TimerId, st: Status, events: seq<Event>): seq<Entry>
    decreases |events|
  {
    if events == [] then []
    else (if Meets(events[0], st) then [Entry(id, st.due)] else []) + Met(id, StatusAfter(st, events[0]), events[1..])
  }

  lemma {:induction false} Follow(s: State, events: seq<Event>, los: seq<nat>, id: TimerId, st: Status)
    requires CanRun(s, events, los) && LeftAlone(events, id) && Holds(s, id, st)
    ensures Holds(RunAll(s, events, los), id, StatusAt(st, events))
    ensures Firings(s, events, los, id) == Met(id, st, events)
    decreases |events|
  {
    if events != [] {
      var s1 := AfterEvent(s, events[0], los[0]);
      assert events[0] in events;
      StatusStep(s, events[0], los[0], s1, id, st);
      Follow(s1, events[1..], los[1..], id, StatusAfter(st, events[0]));
    }
  }

  lemma SetNow(s: State, c: Command, lo: nat)
    requires EventOk(s, Call(c), lo)
    ensures c.SetOneshot? ==> Queued(Do(s, c), c.id, c.at + (if c.delay == 0 then 1 else c.delay), 0)
    ensures c.SetPeriodic? ==>
      Queued(Do(s, c), c.id, c.at + (if c.delay == 0 then 1 else c.delay), if c.delay == 0 then 1 else c.delay)
    ensures c.Cancel? ==> Out(Do(s, c), c.id)
  {
    match c
    case SetOneshot(id, at, _, delay) => InsertMember(s.queue, Entry(id, at + AtLeastOne(delay)));
    case SetPeriodic(id, at, _, delay) => InsertMember(s.queue, Entry(id, at + AtLeastOne(delay)));
    case Cancel(id, at, arm) => s.CancelKeeps(id, at, arm, lo);
  }

  /** An interrupt has come at or after the instant. */
  ghost predicate Passed(events: seq<Event>, due: nat) {
    exists event :: event in events && event.Interrupt? && event.now >= due
  }

  lemma {:induction false} GoneStays(id: TimerId, events: seq<Event>)
    ensures StatusAt(Gone, events) == Gone && Met(id, Gone, events) == []
    decreases |events|
  {
    if events != [] {
      GoneStays(id, events[1..]);
    }
  }

  lemma {:induction false} OneShotMet(id: TimerId, events: seq<Event>, due: nat)
    ensures StatusAt(Waits(due, 0), events) == if Passed(events, due) then Gone else Waits(due, 0)
    ensures Met(id, Waits(due, 0), events) == if Passed(events, due) then [Entry(id, due)] else []
    decreases |events|
  {
    if events != [] {
      assert events[0] in events && (forall event :: event in events <==> event == events[0] || event in events[1..]);
      OneShotMet(id, events[1..], due);
      GoneStays(id, events[1..]);
    }
  }

  /** A timer that is set once, and then left alone, waits until the first interrupt that comes at or after
      its delay (of at least 1), fires at that one, once, and never again. */
  lemma OneShotOnce(s: State, lo: nat, id: TimerId, at: nat, arm: nat, delay: Time32, events: seq<Event>, los: seq<nat>)
    requires EventOk(s, Call(SetOneshot(id, at, arm, delay)), lo)
    requires CanRun(Do(s, SetOneshot(id, at, arm, delay)), events, los) && LeftAlone(events, id)
    ensures var s1, due := Do(s, SetOneshot(id, at, arm, delay)), at + if delay == 0 then 1 else delay;
      if Passed(events, due) then
        Firings(s1, events, los, id) == [Entry(id, due)] && !Has(RunAll(s1, events, los).queue, id)
      else
        Firings(s1, events, los, id) == [] && Entry(id, due) in RunAll(s1, events, los).queue
  {
    var s1, due := Do(s, SetOneshot(id, at, arm, delay)), at + if delay == 0 then 1 else delay;
    SetNow(s, SetOneshot(id, at, arm, delay), lo);
    Follow(s1, events, los, id, Waits(due, 0));
    OneShotMet(id, events, due);
  }

  /** The instants at which a timer fires that is first due at `due`: at each interrupt at which it is due, it
      is next due a period from that. */
  function PeriodicDues(events: seq<Event>, due: nat, period: nat): seq<nat>
    decreases |events|
  {
    if events == [] then []
    else if events[0].Interrupt? && events[0].now >= due then [due] + PeriodicDues(events[1..], events[0].now + period, period)
    else PeriodicDues(events[1..], due, period)
  }

  function NextDue(events: seq<Event>, due: nat, period: nat): nat
    decreases |events|
  {
    if events == [] then due
    else if events[0].Interrupt? && events[0].now >= due then NextDue(events[1..], events[0].now + period, period)
    else NextDue(events[1..], due, period)
  }

  function Entries(id: TimerId, dues: seq<nat>): seq<Entry> {
    if dues == [] then [] else [Entry(id, dues[0])] + Entries(id, dues[1..])
  }

  lemma {:induction false} PeriodicMet(id: TimerId, events: seq<Event>, due: nat, period: nat)
    requires period > 0
    ensures StatusAt(Waits(due, period), events) == Waits(NextDue(events, due, period), period)
    ensures Met(id, Waits(due, period), events) == Entries(id, PeriodicDues(events, due, period))
    decreases |events|
  {
    if events != [] {
      if events[0].Interrupt? && events[0].now >= due {
        var rest := PeriodicDues(events[1..], events[0].now + period, period);
        PeriodicMet(id, events[1..], events[0].now + period, period);
        assert ([due] + rest)[1..] == rest;
      } else {
        PeriodicMet(id, events[1..], due, period);
      }
    }
  }

  /** A periodic timer that is left alone fires at the first interrupt at or after one period (of at least 1)
      from the call, and then at the first at or after one period from each interrupt at which it fired. */
  lemma PeriodicForever(s: State, lo: nat, id: TimerId, at: nat, arm: nat, period: Time32, events: seq<Event>, los: seq<nat>)
    requires EventOk(s, Call(SetPeriodic(id, at, arm, period)), lo)
    requires CanRun(Do(s, SetPeriodic(id, at, arm, period)), events, los) && LeftAlone(events, id)
    ensures var s1, p := Do(s, SetPeriodic(id, at, arm, period)), if period == 0 then 1 else period;
      && Firings(s1, events, los, id) == Entries(id, PeriodicDues(events, at + p, p))
      && Entry(id, NextDue(events, at + p, p)) in RunAll(s1, events, los).queue
  {
    var s1, p := Do(s, SetPeriodic(id, at, arm, period)), if period == 0 then 1 else period;
    SetNow(s, SetPeriodic(id, at, arm, period), lo);
    Follow(s1, events, los, id, Waits(at + p, p));
    PeriodicMet(id, events, at + p, p);
  }

  /** A timer that is cancelled, and then left alone, does not fire. */
  lemma CancelledNeverFires(s: State, lo: nat, id: TimerId, at: nat, arm: nat, events: seq<Event>, los: seq<nat>)
    requires EventOk(s, Call(Cancel(id, at, arm)), lo)
    requires CanRun(Do(s, Cancel(id, at, arm)), events, los) && LeftAlone(events, id)
    ensures var s1 := Do(s, Cancel(id, at, arm));
      Firings(s1, events, los, id) == [] && !Has(RunAll(s1, events, los).queue, id)
  {
    SetNow(s, Cancel(id, at, arm), lo);
    Follow(Do(s, Cancel(id, at, arm)), events, los, id, Gone);
    GoneStays(id, events);
  }
}
