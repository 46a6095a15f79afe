/**
 kernel/timer.c: the timer queue of one processor, and what setting, cancelling and expiry do to it.
 Timer.dfy carries these out in place.
 */
module TimerQueue {
  import opened Clock
  import opened Common

  type TimerId = nat

  /** timer_t; live says that there is a callback. */
  datatype Timer = Timer(scheduled: Time32, period: Time32, live: bool)

  /** A queued timer and the instant it is due, of which scheduled_time is the 32-bit reading. */
  datatype Entry = Entry(id: TimerId, due: nat)

  // ---- queues -------------------------------------------------------------------------------------

  /** By due time, and each timer at most once. */
  ghost predicate Sorted(q: seq<Entry>) {
    forall i: nat, j: nat :: i < j < |q| ==> InOrder(q, i, j)
  }

  ghost predicate InOrder(q: seq<Entry>, i: nat, j: nat)
    requires i < j < |q|
  {
    q[i].due <= q[j].due && q[i].id != q[j].id
  }

  lemma SortedParts(q: seq<Entry>, n: nat)
    requires Sorted(q) && n <= |q|
    ensures Sorted(q[..n]) && Sorted(q[n..])
  {
    forall i: nat, j: nat | i < j < n
      ensures InOrder(q[..n], i, j)
    {
      assert InOrder(q, i, j);
    }
    forall i: nat, j: nat | i < j < |q| - n
      ensures InOrder(q[n..], i, j)
    {
      assert InOrder(q, n + i, n + j);
    }
  }

  /** The first of a queue is due first, and an id determines its entry. */
  lemma SortedFacts(q: seq<Entry>, i: nat, j: nat)
    requires Sorted(q) && i <= j < |q|
    ensures q[i].due <= q[j].due && (q[i].id == q[j].id ==> i == j)
  {
    assert i < j ==> InOrder(q, i, j);
  }

  predicate Has(q: seq<Entry>, id: TimerId) {
    exists i :: 0 <= i < |q| && q[i].id == id
  }

  /** How many at the front are due at the given instant. */
  function DueBy(q: seq<Entry>, t: nat): (i: nat)
    ensures i <= |q| && (i < |q| ==> q[i].due > t)
    ensures forall j :: 0 <= j < i ==> q[j].due <= t
  {
    if q == [] || q[0].due > t then 0 else 1 + DueBy(q[1..], t)
  }

  lemma DueByIs(q: seq<Entry>, t: nat, i: nat)
    requires i <= |q| && (i < |q| ==> q[i].due > t) && forall j :: 0 <= j < i ==> q[j].due <= t
    ensures DueBy(q, t) == i
  {
    var p := DueBy(q, t);
  }

  function At(q: seq<Entry>, id: TimerId): (i: nat)
    requires Has(q, id)
    ensures i < |q| && q[i].id == id
  {
    if q[0].id == id then 0 else 1 + At(q[1..], id)
  }

  lemma AtIs(q: seq<Entry>, id: TimerId, i: nat)
    requires Sorted(q) && i < |q| && q[i].id == id
    ensures Has(q, id) && At(q, id) == i
  {
    var a := At(q, id);
    if a < i {
      SortedFacts(q, a, i);
    } else {
      SortedFacts(q, i, a);
    }
  }

  /** insert_timer_in_queue: behind those due no later. */
  function Insert(q: seq<Entry>, e: Entry): (r: seq<Entry>)
    ensures |r| == |q| + 1
  {
    var i := DueBy(q, e.due);
    q[..i] + [e] + q[i..]
  }

  /** list_delete, if the timer is queued. */
  function Remove(q: seq<Entry>, id: TimerId): seq<Entry> {
    if Has(q, id) then Without(q, At(q, id)) else q
  }

  lemma {:induction false} InsertPlaces(q: seq<Entry>, e: Entry, j: nat)
    requires j <= |q|
    ensures var i, r := DueBy(q, e.due), Insert(q, e);
      r[j] == if j < i then q[j] else if j == i then e else q[j - 1]
  {
  }

  /** The queue stays in order, and timers due at the same time stay in the order of insertion: before
      the new one are those due no later, behind it those due later. */
  lemma {:induction false} InsertStable(q: seq<Entry>, e: Entry, j: nat)
    requires Sorted(q) && j <= |q|
    ensures var i, r := DueBy(q, e.due), Insert(q, e);
      && r[i] == e
      && (j < i ==> r[j] == q[j] && r[j].due <= e.due)
      && (j > i ==> r[j] == q[j - 1] && r[j].due > e.due)
  {
    var i := DueBy(q, e.due);
    InsertPlaces(q, e, i);
    InsertPlaces(q, e, j);
    if j > i {
      SortedFacts(q, i, j - 1);
    }
  }

  lemma InsertMember(q: seq<Entry>, e: Entry)
    ensures forall x :: x in Insert(q, e) <==> x == e || x in q
  {
    var i := DueBy(q, e.due);
    assert q == q[..i] + q[i..];
  }

  lemma InsertSorted(q: seq<Entry>, e: Entry)
    requires Sorted(q) && !Has(q, e.id)
    ensures Sorted(Insert(q, e))
  {
    var i, r := DueBy(q, e.due), Insert(q, e);
    forall j: nat, k: nat | j < k < |r|
      ensures InOrder(r, j, k)
    {
      InsertPlaces(q, e, j);
      InsertPlaces(q, e, k);
      assert k < i ==> InOrder(q, j, k);
      assert j < i < k ==> InOrder(q, j, k - 1);
      assert i < j ==> InOrder(q, j - 1, k - 1);
      assert i < k - 1 ==> InOrder(q, i, k - 1);
    }
  }

  lemma HasMember(q: seq<Entry>, id: TimerId)
    ensures Has(q, id) <==> exists e :: e in q && e.id == id
  {
  }

  lemma RemovePlaces(q: seq<Entry>, id: TimerId, j: nat)
    requires Has(q, id) && j < |q| - 1
    ensures Remove(q, id)[j] == if j < At(q, id) then q[j] else q[j + 1]
  {
  }

  lemma RemoveMember(q: seq<Entry>, id: TimerId)
    requires Sorted(q)
    ensures forall x :: x in Remove(q, id) <==> x in q && x.id != id
  {
    if Has(q, id) {
      var i := At(q, id);
      forall j: nat | j < |q| - 1
        ensures Remove(q, id)[j] in q && Remove(q, id)[j].id != id
      {
        RemovePlaces(q, id, j);
        if j < i {
          assert InOrder(q, j, i);
        } else {
          assert InOrder(q, i, j + 1);
        }
      }
      forall x | x in q && x.id != id
        ensures x in Remove(q, id)
      {
        var j :| 0 <= j < |q| && q[j] == x;
        RemovePlaces(q, id, if j < i then j else j - 1);
      }
    }
  }

  lemma RemoveSorted(q: seq<Entry>, id: TimerId)
    requires Sorted(q)
    ensures Sorted(Remove(q, id)) && !Has(Remove(q, id), id)
  {
    var r := Remove(q, id);
    RemoveMember(q, id);
    if Has(q, id) {
      forall j: nat, k: nat | j < k < |r|
        ensures InOrder(r, j, k)
      {
        RemovePlaces(q, id, j);
        RemovePlaces(q, id, k);
        assert InOrder(q, if j < At(q, id) then j else j + 1, if k < At(q, id) then k else k + 1);
      }
    }
    assert forall j :: 0 <= j < |r| ==> r[j] in r;
  }

  // ---- the state ----------------------------------------------------------------------------------

  /** The one-shot hardware timer: when it was armed, and when it will interrupt. */
  datatype Hardware = Stopped | Armed(at: nat, deadline: nat)

  /** The calls that set and cancel timers, each with the instant at which it reads the clock and the one
      at which it arms the interrupt. timer_set reads the clock before it takes the lock. */
  datatype Command =
    | SetOneshot(id: TimerId, at: nat, arm: nat, delay: Time32)
    | SetPeriodic(id: TimerId, at: nat, arm: nat, delay: Time32)
    | Cancel(id: TimerId, at: nat, arm: nat)

  datatype State = State(queue: seq<Entry>, timers: map<TimerId, Timer>, hw: Hardware) {

    /** Every queued timer has a callback and its scheduled_time; all instants lie within half the
        range of the clock from lo on; a timer with a period has a callback. */
    ghost predicate Valid(lo: nat) {
      && Sorted(queue)
      && (forall e {:trigger EntryOk(e, lo)} :: e in queue ==> EntryOk(e, lo))
      && (forall id {:trigger PeriodOk(id)} :: id in timers ==> PeriodOk(id))
    }

    ghost predicate EntryOk(e: Entry, lo: nat) {
      && e.id in timers && timers[e.id].live && timers[e.id].scheduled == Reading(e.due)
      && lo <= e.due < lo + HALF
    }

    ghost predicate PeriodOk(id: TimerId)
      requires id in timers
    {
      timers[id].period > 0 ==> timers[id].live
    }

    /** An interrupt comes no later than the first timer is due, or than it was last armed, but for
        what passes between reading the clock and arming the interrupt (`slip`). */
    ghost predicate Guarded(slip: nat) {
      queue != [] ==>
        && hw.Armed?
        && (hw.deadline <= queue[0].due + slip || hw.deadline <= hw.at + slip)
    }

    /** timer_set; panics if the timer is queued already. */
    function Set(id: TimerId, at: nat, arm: nat, delay: Time32, period: Time32): State {
      var q := Insert(queue, Entry(id, at + delay));
      State(q, timers[id := Timer(Reading(at + delay), period, true)], if q[0].id == id then Armed(arm, arm + delay) else hw)
    }

    /** timer_cancel. */
    function Cancel(id: TimerId, at: nat, arm: nat): State
      requires id in timers
    {
      var q := Remove(queue, id);
      State(q, timers[id := timers[id].(period := 0, live := false)],
        if q == [] then Stopped
        else if queue != [] && q[0].id == queue[0].id then hw
        else Armed(arm, arm + if q[0].due < at then 0 else q[0].due - at))
    }

    lemma SetKeeps(id: TimerId, at: nat, arm: nat, delay: Time32, period: Time32, lo: nat)
      requires Valid(lo) && !Has(queue, id) && lo <= at + delay < lo + HALF
      ensures Set(id, at, arm, delay, period).Valid(lo)
    {
      var s, e := Set(id, at, arm, delay, period), Entry(id, at + delay);
      InsertSorted(queue, e);
      InsertMember(queue, e);
      HasMember(queue, id);
      forall x | x in s.queue
        ensures s.EntryOk(x, lo)
      {
        assert x == e || EntryOk(x, lo);
      }
      assert forall n :: n in timers ==> PeriodOk(n);
    }

    /** Setting a timer keeps the guard, as far as the interrupt is armed soon enough after the clock was
        read: it moves when the new timer is the first. */
    lemma SetGuards(id: TimerId, at: nat, arm: nat, delay: Time32, period: Time32, slip: nat)
      requires Guarded(slip) && !Has(queue, id) && at <= arm <= at + slip
      ensures Set(id, at, arm, delay, period).Guarded(slip)
    {
      InsertPlaces(queue, Entry(id, at + delay), 0);
    }

    /** The delay counts from the arming: the interrupt for a new first timer is late by exactly what has
        passed since the clock was read. */
    lemma SetSlips(id: TimerId, at: nat, arm: nat, delay: Time32, period: Time32)
      requires !Has(queue, id) && at <= arm && delay > 0 && (queue == [] || at + delay < queue[0].due)
      ensures var s := Set(id, at, arm, delay, period);
        && s.queue[0] == Entry(id, at + delay) && s.hw == Armed(arm, s.queue[0].due + (arm - at))
        && (s.Guarded(0) <==> arm == at)
    {
      InsertPlaces(queue, Entry(id, at + delay), 0);
    }

    lemma CancelKeeps(id: TimerId, at: nat, arm: nat, lo: nat)
      requires Valid(lo) && id in timers
      ensures Cancel(id, at, arm).Valid(lo) && !Has(Cancel(id, at, arm).queue, id)
    {
      var s := Cancel(id, at, arm);
      RemoveSorted(queue, id);
      RemoveMember(queue, id);
      forall x | x in s.queue
        ensures s.EntryOk(x, lo)
      {
        assert EntryOk(x, lo);
      }
      assert forall n :: n in timers ==> PeriodOk(n);
    }

    /** If the head is cancelled and a timer is left, its interrupt is late by exactly what has passed since
        the clock was read, if the timer was not due then; one that was, is interrupted for at once. */
    lemma CancelSlips(id: TimerId, at: nat, arm: nat)
      requires id in timers && at <= arm && queue != []
      requires var q := Remove(queue, id); q != [] && q[0].id != queue[0].id
      ensures var s := Cancel(id, at, arm);
        && s.hw == Armed(arm, arm + if s.queue[0].due < at then 0 else s.queue[0].due - at)
        && (s.Guarded(0) <==> arm == at || s.queue[0].due <= at)
    {
    }

    /** Cancelling keeps the guard likewise, and its interrupt is never in the past. */
    lemma CancelGuards(id: TimerId, at: nat, arm: nat, slip: nat, lo: nat)
      requires Valid(lo) && id in timers && Guarded(slip) && at <= arm <= at + slip
      ensures Cancel(id, at, arm).Guarded(slip)
    {
      var q := Remove(queue, id);
      RemoveMember(queue, id);
      if q != [] && q[0].id == queue[0].id {
        assert q[0] in q;
        assert q[0] == queue[0];
      }
    }
  }
}
