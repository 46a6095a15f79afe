/**
 kernel/timer.c: the timer queue of one processor changed in place. An entry of the queue carries the
 instant it is due for the specification's sake only; the code looks at scheduled_time alone, through
 the wrapping comparisons.
 */
module Timer {
  import opened Clock
  import opened Common
  import opened Expiry
  import opened TimerQueue

  class Timers {
    var queue: seq<Entry>
    var timers: map<TimerId, TimerQueue.Timer>
    var hw: Hardware

    function Now(): State
      reads this
    {
      State(queue, timers, hw)
    }

    constructor ()
      ensures Now().Valid(0) && Now().Guarded(0) && queue == []
    {
      queue := [];
      timers := map[];
      hw := Stopped;
    }

    /** insert_timer_in_queue. */
    method InsertTimerInQueue(id: TimerId, due: nat, ghost lo: nat)
      requires Now().Valid(lo) && lo <= due < lo + HALF
      requires id in timers && timers[id].scheduled == Reading(due)
      modifies this`queue
      ensures queue == Insert(old(queue), Entry(id, due))
    {
      var i := 0;
      while i < |queue|
        invariant 0 <= i <= |queue| && queue == old(queue)
        invariant forall j :: 0 <= j < i ==> queue[j].due <= due
      {
        assert Now().EntryOk(queue[i], lo) by { assert queue[i] in queue; }
        ComparisonsExact(queue[i].due, due);
        if TimeGt(timers[queue[i].id].scheduled, timers[id].scheduled) {
          break;
        }
        i := i + 1;
      }
      DueByIs(queue, due, i);
      queue := queue[..i] + [Entry(id, due)] + queue[i..];
    }

    /** timer_set, which reads the clock at instant `at` and arms the interrupt at instant `arm`. */
    method TimerSet(id: TimerId, at: nat, arm: nat, delay: Time32, period: Time32, ghost lo: nat)
      requires Now().Valid(lo) && !Has(queue, id) && lo <= at + delay < lo + HALF
      modifies this
      ensures Now() == old(Now()).Set(id, at, arm, delay, period) && Now().Valid(lo)
    {
      Now().SetKeeps(id, at, arm, delay, period, lo);
      ghost var s := Now();
      AddReadings(at, delay);
      timers := timers[id := TimerQueue.Timer(Add32(Reading(at), delay), period, true)];
      OtherTimer(s, Now(), id, lo);
      InsertTimerInQueue(id, at + delay, lo);
      if queue[0].id == id {
        hw := Armed(arm, arm + delay);
      }
    }

    /** What an unqueued timer holds does not matter to the queue. */
    static lemma OtherTimer(s: State, s': State, id: TimerId, lo: nat)
      requires s.Valid(lo) && !Has(s.queue, id) && s'.queue == s.queue && s'.timers.Keys == s.timers.Keys + {id}
      requires id in s'.timers && s'.PeriodOk(id) && forall n :: n in s.timers && n != id ==> s'.timers[n] == s.timers[n]
      ensures s'.Valid(lo)
    {
      HasMember(s.queue, id);
      forall e | e in s'.queue
        ensures s'.EntryOk(e, lo)
      {
        assert s.EntryOk(e, lo);
      }
      forall n | n in s'.timers
        ensures s'.PeriodOk(n)
      {
        assert n != id ==> s.PeriodOk(n);
      }
    }

    method TimerSetOneshot(id: TimerId, at: nat, arm: nat, delay: Time32, ghost lo: nat)
      requires Now().Valid(lo) && CommandOk(Now(), Command.SetOneshot(id, at, arm, delay), lo, lo)
      modifies this
      ensures Now() == Do(old(Now()), Command.SetOneshot(id, at, arm, delay)) && Now().Valid(lo)
    {
      var d := delay;
      if d == 0 {
        d := 1;
      }
      TimerSet(id, at, arm, d, 0, lo);
    }

    method TimerSetPeriodic(id: TimerId, at: nat, arm: nat, period: Time32, ghost lo: nat)
      requires Now().Valid(lo) && CommandOk(Now(), Command.SetPeriodic(id, at, arm, period), lo, lo)
      modifies this
      ensures Now() == Do(old(Now()), Command.SetPeriodic(id, at, arm, period)) && Now().Valid(lo)
    {
      var p := period;
      if p == 0 {
        p := 1;
      }
      TimerSet(id, at, arm, p, p, lo);
    }

    /** timer_cancel. */
    method TimerCancel(id: TimerId, at: nat, arm: nat, ghost lo: nat)
      requires Now().Valid(lo) && lo <= at < lo + HALF && id in timers
      modifies this
      ensures Now() == Do(old(Now()), Command.Cancel(id, at, arm)) && Now().Valid(lo)
      ensures !Has(queue, id) && timers[id].period == 0
    {
      Now().CancelKeeps(id, at, arm, lo);
      var oldhead := if queue == [] then None else Some(queue[0].id);
      if Has(queue, id) {
        queue := Without(queue, At(queue, id));
      }
      timers := timers[id := timers[id].(period := 0, live := false)];
      if queue == [] {
        hw := Stopped;
      } else if oldhead != Some(queue[0].id) {
        assert old(Now()).Cancel(id, at, arm).queue == queue;
        assert old(Now()).Cancel(id, at, arm).EntryOk(queue[0], lo) by { assert queue[0] in queue; }
        ComparisonsExact(queue[0].due, at);
        var scheduled := timers[queue[0].id].scheduled;
        var delay := if TimeLt(scheduled, Reading(at)) then 0 else Sub32(scheduled, Reading(at));
        hw := Armed(arm, arm + delay);
      }
    }

    /** The calls that a callback makes. */
    method RunCallback(cs: seq<Command>, ghost now: nat, ghost lo: nat)
      requires Now().Valid(lo) && CommandsOk(Now(), cs, now, lo)
      modifies this
      ensures Now() == DoAll(old(Now()), cs, now, lo) && Now().Valid(lo)
    {
      var i := 0;
      while i < |cs|
        invariant 0 <= i <= |cs| && Now().Valid(lo) && CommandsOk(Now(), cs[i..], now, lo)
        invariant DoAll(Now(), cs[i..], now, lo) == DoAll(old(Now()), cs, now, lo)
      {
        assert cs[i..][0] == cs[i] && cs[i..][1..] == cs[i + 1..];
        match cs[i] {
          case SetOneshot(id, at, arm, delay) => TimerSetOneshot(id, at, arm, delay, lo);
          case SetPeriodic(id, at, arm, period) => TimerSetPeriodic(id, at, arm, period, lo);
          case Cancel(id, at, arm) => TimerCancel(id, at, arm, lo);
        }
        i := i + 1;
      }
    }

    /** What a round does after the callback: a periodic timer may return to the queue. */
    method Requeue(id: TimerId, periodic: bool, now: nat, ghost lo: nat)
      requires Now().Valid(lo) && PeriodsFit(Now(), now, lo) && lo <= now && id in timers
      modifies this
      ensures Now() == Requeued(old(Now()), id, periodic, now) && Now().Valid(lo)
    {
      ghost var s := Now();
      RequeuedKeeps(s, id, periodic, now, lo);
      if periodic && !Has(queue, id) && timers[id].period > 0 {
        AddReadings(now, timers[id].period);
        timers := timers[id := timers[id].(scheduled := Add32(Reading(now), timers[id].period))];
        assert s.PeriodOk(id);
        OtherTimer(s, Now(), id, lo);
        InsertTimerInQueue(id, now + timers[id].period, lo);
      }
    }

    /** One round of the loop of timer_tick, for a timer that is due. */
    method Fire(now: nat, cb: Callbacks, ghost lo: nat)
      requires Ready(Now(), now, cb, lo) && queue != []
      modifies this
      ensures Now() == Fired(old(Now()), now, cb, lo) && Ready(Now(), now, cb, lo)
    {
      PoppedKeeps(Now(), lo);
      var id := queue[0].id;
      queue := queue[1..];
      var periodic := timers[id].period > 0;
      DoAllKeeps(Now(), cb(Now(), id), now, lo);
      RunCallback(cb(Now(), id), now, lo);
      Requeue(id, periodic, now, lo);
    }

    static lemma ExpireStep(s: State, now: nat, cb: Callbacks, lo: nat, fired: seq<Entry>)
      requires Ready(s, now, cb, lo) && s.queue != [] && s.queue[0].due <= now
      ensures DueBy(Fired(s, now, cb, lo).queue, now) < DueBy(s.queue, now)
      ensures var (s', rest), (s1, rest1) := Expire(s, now, cb, lo), Expire(Fired(s, now, cb, lo), now, cb, lo);
        s' == s1 && fired + rest == (fired + [s.queue[0]]) + rest1
    {
      FewerDue(s, now, cb, lo);
    }

    /** The loop of timer_tick. */
    method FireDue(now: nat, cb: Callbacks, ghost lo: nat) returns (ghost fired: seq<Entry>)
      requires Ready(Now(), now, cb, lo)
      modifies this
      ensures (Now(), fired) == Expire(old(Now()), now, cb, lo)
    {
      fired := [];
      while queue != []
        invariant Ready(Now(), now, cb, lo)
        invariant Expire(old(Now()), now, cb, lo).0 == Expire(Now(), now, cb, lo).0
        invariant Expire(old(Now()), now, cb, lo).1 == fired + Expire(Now(), now, cb, lo).1
        decreases DueBy(queue, now)
      {
        assert Now().EntryOk(queue[0], lo) by { assert queue[0] in queue; }
        ComparisonsExact(now, queue[0].due);
        if TimeLt(Reading(now), timers[queue[0].id].scheduled) {
          break;
        }
        ExpireStep(Now(), now, cb, lo, fired);
        fired := fired + [queue[0]];
        Fire(now, cb, lo);
      }
      assert Expire(Now(), now, cb, lo) == (Now(), []);
      assert fired + [] == fired;
    }

    /** timer_tick. The one-shot interrupt that brought it here is used up. */
    method TimerTick(now: nat, end: nat, cb: Callbacks, ghost lo: nat) returns (ghost fired: seq<Entry>)
      requires Ready(Now(), now, cb, lo) && now <= end
      modifies this
      ensures Now() == Tick(old(Now()), now, end, cb, lo)
      ensures Ready(old(Now()).(hw := Stopped), now, cb, lo)
      ensures fired == Expire(old(Now()).(hw := Stopped), now, cb, lo).1
    {
      AnyHardware(Now(), Stopped, lo);
      hw := Stopped;
      fired := FireDue(now, cb, lo);
      if queue != [] {
        assert Now().EntryOk(queue[0], lo) by { assert queue[0] in queue; }
        ComparisonsExact(queue[0].due, now);
        var scheduled := timers[queue[0].id].scheduled;
        assert TimeGt(scheduled, Reading(now));  // as the source asserts
        hw := Armed(end, end + Sub32(scheduled, Reading(now)));
      }
    }
  }
}
