/**
 timer_tick (kernel/timer.c): expired timers are taken off the queue one by one and their callbacks
 run, which may set and cancel any timers, themselves included.
 */
module Expiry {
  import opened Clock
  import opened Common
  import opened TimerQueue

  /** Any behaviour of the callbacks: what the callback of a timer does, given the whole state. */
  type Callbacks = (State, TimerId) -> seq<Command>

  // ---- commands -----------------------------------------------------------------------------------

  /** timer_set_oneshot and timer_set_periodic turn a delay of zero into one. */
  function AtLeastOne(delay: Time32): Time32 {
    if delay == 0 then 1 else delay
  }

  function Do(s: State, c: Command): State
    requires c.Cancel? ==> c.id in s.timers
  {
    match c
    case SetOneshot(id, at, arm, delay) => s.Set(id, at, arm, AtLeastOne(delay), 0)
    case SetPeriodic(id, at, arm, period) => s.Set(id, at, arm, AtLeastOne(period), AtLeastOne(period))
    case Cancel(id, at, arm) => s.Cancel(id, at, arm)
  }

  /** The command does not set a timer that is queued, on which timer_set panics, and its instants
      are within half the range of the clock. */
  ghost predicate CommandOk(s: State, c: Command, now: nat, lo: nat) {
    && lo <= now <= c.at < lo + HALF && c.at <= c.arm
    && match c
       case SetOneshot(id, at, arm, delay) => !Has(s.queue, id) && at + AtLeastOne(delay) < lo + HALF
       case SetPeriodic(id, at, arm, period) => !Has(s.queue, id) && at + AtLeastOne(period) < lo + HALF
       case Cancel(id, at, arm) => id in s.timers
  }

  ghost predicate CommandsOk(s: State, cs: seq<Command>, now: nat, lo: nat)
    decreases |cs|
  {
    cs != [] ==> CommandOk(s, cs[0], now, lo) && CommandsOk(Do(s, cs[0]), cs[1..], now, lo)
  }

  ghost function DoAll(s: State, cs: seq<Command>, now: nat, lo: nat): State
    requires CommandsOk(s, cs, now, lo)
    decreases |cs|
  {
    if cs == [] then s else DoAll(Do(s, cs[0]), cs[1..], now, lo)
  }

  /** In no state does a callback panic or leave the range of the clock. */
  ghost predicate WellBehaved(cb: Callbacks, now: nat, lo: nat) {
    forall s: State, id: TimerId {:trigger cb(s, id)} ::
      s.Valid(lo) && id in s.timers && !Has(s.queue, id) ==> CommandsOk(s, cb(s, id), now, lo)
  }

  /** A timer with a period can be queued again now. */
  ghost predicate PeriodsFit(s: State, now: nat, lo: nat) {
    forall id {:trigger s.timers[id]} :: id in s.timers ==> now + s.timers[id].period < lo + HALF
  }

  lemma DoKeeps(s: State, c: Command, now: nat, lo: nat)
    requires s.Valid(lo) && CommandOk(s, c, now, lo)
    ensures Do(s, c).Valid(lo) && Do(s, c).timers.Keys == s.timers.Keys + {c.id}
    ensures PeriodsFit(s, now, lo) ==> PeriodsFit(Do(s, c), now, lo)
  {
    match c
    case SetOneshot(id, at, arm, delay) => s.SetKeeps(id, at, arm, AtLeastOne(delay), 0, lo);
    case SetPeriodic(id, at, arm, period) => s.SetKeeps(id, at, arm, AtLeastOne(period), AtLeastOne(period), lo);
    case Cancel(id, at, arm) => s.CancelKeeps(id, at, arm, lo);
  }

  lemma {:induction false} DoAllKeeps(s: State, cs: seq<Command>, now: nat, lo: nat)
    requires s.Valid(lo) && PeriodsFit(s, now, lo) && CommandsOk(s, cs, now, lo)
    ensures var s' := DoAll(s, cs, now, lo);
      s'.Valid(lo) && PeriodsFit(s', now, lo) && s.timers.Keys <= s'.timers.Keys
    decreases |cs|
  {
    if cs != [] {
      DoKeeps(s, cs[0], now, lo);
      DoAllKeeps(Do(s, cs[0]), cs[1..], now, lo);
    }
  }

  // ---- the due part of a queue --------------------------------------------------------------------

  function Due(q: seq<Entry>, now: nat): seq<Entry> {
    q[..DueBy(q, now)]
  }

  lemma InsertDue(q: seq<Entry>, e: Entry, now: nat)
    requires e.due > now
    ensures Due(Insert(q, e), now) == Due(q, now)
  {
    var i, r := DueBy(q, now), Insert(q, e);
    assert i <= DueBy(q, e.due);
    forall j: nat | j < i
      ensures r[j] == q[j]
    {
      InsertPlaces(q, e, j);
    }
    InsertPlaces(q, e, i);
    DueByIs(r, now, i);
  }

  lemma RemoveDue(q: seq<Entry>, id: TimerId, now: nat)
    requires Sorted(q)
    ensures Due(Remove(q, id), now) == Remove(Due(q, now), id)
  {
    var d, n := Due(q, now), DueBy(q, now);
    if Has(q, id) {
      var i := At(q, id);
      if i < n {
        assert d[i].id == id;
        RemoveFromFront(q, id, n);
        DueByIs(Remove(q, id), now, n - 1);
      } else {
        NotInFront(q, id, n);
        RemoveBehind(q, id, n);
        if n < |q| - 1 {
          SortedFacts(q, n, n + 1);
        }
        DueByIs(Remove(q, id), now, n);
      }
    } else {
      assert !Has(d, id);
    }
  }

  lemma RemoveFromFront(q: seq<Entry>, id: TimerId, n: nat)
    requires Sorted(q) && Has(q, id) && At(q, id) < n <= |q|
    ensures Has(q[..n], id) && Remove(q, id)[..n - 1] == Remove(q[..n], id)
    ensures n < |q| ==> Remove(q, id)[n - 1] == q[n]
    ensures forall j: nat :: j < n - 1 ==> Remove(q, id)[j] == q[if j < At(q, id) then j else j + 1]
  {
    var d := q[..n];
    SortedParts(q, n);
    AtIs(d, id, At(q, id));
    forall j: nat | j < n - 1
      ensures Remove(q, id)[j] == q[if j < At(q, id) then j else j + 1] == Remove(d, id)[j]
    {
      RemovePlaces(q, id, j);
      RemovePlaces(d, id, j);
    }
    if n < |q| {
      RemovePlaces(q, id, n - 1);
    }
    assert |Remove(d, id)| == n - 1;
  }

  lemma RemoveBehind(q: seq<Entry>, id: TimerId, n: nat)
    requires Sorted(q) && Has(q, id) && n <= At(q, id)
    ensures Remove(q, id)[..n] == q[..n]
    ensures n < |q| - 1 ==> Remove(q, id)[n] == q[n] || Remove(q, id)[n] == q[n + 1]
  {
  }

  lemma NotInFront(q: seq<Entry>, id: TimerId, n: nat)
    requires Sorted(q) && Has(q, id) && n <= At(q, id)
    ensures !Has(q[..n], id)
  {
    forall j: nat | j < n
      ensures q[j].id != id
    {
      SortedFacts(q, j, At(q, id));
    }
  }

  /** A list of timers without those that the commands cancel. */
  function WithoutCancelled(q: seq<Entry>, cs: seq<Command>): seq<Entry>
    decreases |cs|
  {
    if cs == [] then q
    else WithoutCancelled(if cs[0].Cancel? then Remove(q, cs[0].id) else q, cs[1..])
  }

  lemma DoDue(s: State, c: Command, now: nat, lo: nat)
    requires s.Valid(lo) && CommandOk(s, c, now, lo)
    ensures Due(Do(s, c).queue, now) == if c.Cancel? then Remove(Due(s.queue, now), c.id) else Due(s.queue, now)
  {
    match c
    case SetOneshot(id, at, arm, delay) => InsertDue(s.queue, Entry(id, at + AtLeastOne(delay)), now);
    case SetPeriodic(id, at, arm, period) => InsertDue(s.queue, Entry(id, at + AtLeastOne(period)), now);
    case Cancel(id, at, arm) => RemoveDue(s.queue, id, now);
  }

  /** Commands affect what is due only by cancelling: whatever they set is due later. */
  lemma {:induction false} DoAllDue(s: State, cs: seq<Command>, now: nat, lo: nat)
    requires s.Valid(lo) && CommandsOk(s, cs, now, lo)
    ensures Due(DoAll(s, cs, now, lo).queue, now) == WithoutCancelled(Due(s.queue, now), cs)
    decreases |cs|
  {
    if cs != [] {
      DoKeeps(s, cs[0], now, lo);
      DoDue(s, cs[0], now, lo);
      DoAllDue(Do(s, cs[0]), cs[1..], now, lo);
    }
  }

  // ---- one timer ----------------------------------------------------------------------------------

  /** All that the loop of timer_tick relies on. */
  ghost predicate Ready(s: State, now: nat, cb: Callbacks, lo: nat) {
    s.Valid(lo) && lo <= now < lo + HALF && PeriodsFit(s, now, lo) && WellBehaved(cb, now, lo)
  }

  function Popped(s: State): State
    requires s.queue != []
  {
    s.(queue := s.queue[1..])
  }

  lemma PoppedKeeps(s: State, lo: nat)
    requires s.Valid(lo) && s.queue != []
    ensures Popped(s).Valid(lo) && s.queue[0].id in s.timers && !Has(Popped(s).queue, s.queue[0].id)
  {
    assert s.queue[0] in s.queue;
    assert s.EntryOk(s.queue[0], lo);
    SortedParts(s.queue, 1);
    forall j: nat | 0 < j < |s.queue|
      ensures s.queue[j].id != s.queue[0].id
    {
      SortedFacts(s.queue, 0, j);
    }
    forall e | e in Popped(s).queue
      ensures Popped(s).EntryOk(e, lo)
    {
      assert e in s.queue && s.EntryOk(e, lo);
    }
    assert forall id :: id in s.timers ==> s.PeriodOk(id);
  }

  /** After its callback: a timer that was periodic, still is, and is not queued, is queued again. */
  function Requeued(s: State, id: TimerId, periodic: bool, now: nat): State
    requires id in s.timers
  {
    if periodic && !Has(s.queue, id) && s.timers[id].period > 0 then
      var due := now + s.timers[id].period;
      s.(timers := s.timers[id := s.timers[id].(scheduled := Reading(due))], queue := Insert(s.queue, Entry(id, due)))
    else s
  }

  lemma RequeuedKeeps(s: State, id: TimerId, periodic: bool, now: nat, lo: nat)
    requires s.Valid(lo) && PeriodsFit(s, now, lo) && id in s.timers && lo <= now
    ensures var s' := Requeued(s, id, periodic, now);
      s'.Valid(lo) && PeriodsFit(s', now, lo) && s'.timers.Keys == s.timers.Keys
  {
    var s' := Requeued(s, id, periodic, now);
    if s' != s {
      var e := Entry(id, now + s.timers[id].period);
      InsertSorted(s.queue, e);
      InsertMember(s.queue, e);
      HasMember(s.queue, id);
      assert s.PeriodOk(id);
      forall x | x in s'.queue
        ensures s'.EntryOk(x, lo)
      {
        assert x == e || s.EntryOk(x, lo);
      }
      forall n | n in s'.timers
        ensures s'.PeriodOk(n)
      {
        assert s.PeriodOk(n);
      }
    }
  }

  lemma RequeuedDue(s: State, id: TimerId, periodic: bool, now: nat)
    requires id in s.timers
    ensures Due(Requeued(s, id, periodic, now).queue, now) == Due(s.queue, now)
  {
    if Requeued(s, id, periodic, now) != s {
      InsertDue(s.queue, Entry(id, now + s.timers[id].period), now);
    }
  }

  /** One round of the loop: the first timer leaves the queue, its callback runs, and it may return. */
  ghost function Fired(s: State, now: nat, cb: Callbacks, lo: nat): (r: State)
    requires Ready(s, now, cb, lo) && s.queue != []
    ensures Ready(r, now, cb, lo)
  {
    PoppedKeeps(s, lo);
    var id, s1 := s.queue[0].id, Popped(s);
    DoAllKeeps(s1, cb(s1, id), now, lo);
    var s2 := DoAll(s1, cb(s1, id), now, lo);
    RequeuedKeeps(s2, id, s.timers[id].period > 0, now, lo);
    Requeued(s2, id, s.timers[id].period > 0, now)
  }

  /** What is due after a round is what was due, without the first and without what its callback
      cancelled. */
  lemma FiredDue(s: State, now: nat, cb: Callbacks, lo: nat)
    requires Ready(s, now, cb, lo) && s.queue != [] && s.queue[0].due <= now
    ensures Due(Fired(s, now, cb, lo).queue, now) == WithoutCancelled(Due(s.queue, now)[1..], cb(Popped(s), s.queue[0].id))
  {
    PoppedKeeps(s, lo);
    var id, s1 := s.queue[0].id, Popped(s);
    DoAllKeeps(s1, cb(s1, id), now, lo);
    DoAllDue(s1, cb(s1, id), now, lo);
    RequeuedDue(DoAll(s1, cb(s1, id), now, lo), id, s.timers[id].period > 0, now);
    assert Due(s1.queue, now) == Due(s.queue, now)[1..];
  }

  lemma {:induction false} CancelledShrinks(q: seq<Entry>, cs: seq<Command>)
    requires Sorted(q)
    ensures |WithoutCancelled(q, cs)| <= |q| && IsPart(WithoutCancelled(q, cs), q) && Sorted(WithoutCancelled(q, cs))
    decreases |cs|
  {
    if cs != [] {
      var r := if cs[0].Cancel? then Remove(q, cs[0].id) else q;
      RemoveSorted(q, cs[0].id);
      CancelledShrinks(r, cs[1..]);
      if r != q {
        RemoveIsPart(q, At(q, cs[0].id));
        PartOfPart(WithoutCancelled(r, cs[1..]), r, q);
      } else {
        PartOfSelf(q);
      }
    } else {
      PartOfSelf(q);
    }
  }

  // ---- order-preserving parts of a list -----------------------------------------------------------

  /** p arises from q by leaving entries out. */
  predicate IsPart(p: seq<Entry>, q: seq<Entry>)
    decreases |q|
  {
    p == [] || (q != [] && if p[0] == q[0] then IsPart(p[1..], q[1..]) else IsPart(p, q[1..]))
  }

  lemma {:induction false} PartOfSelf(q: seq<Entry>)
    ensures IsPart(q, q)
    decreases |q|
  {
    if q != [] {
      PartOfSelf(q[1..]);
    }
  }

  lemma {:induction false} RemoveIsPart(q: seq<Entry>, i: nat)
    requires i < |q| && Sorted(q)
    ensures IsPart(Without(q, i), q)
    decreases |q|
  {
    if i == 0 {
      PartOfSelf(q[1..]);
      assert Without(q, 0) == q[1..];
      if |q| > 1 {
        SortedFacts(q, 0, 1);
      }
    } else {
      SortedParts(q, 1);
      RemoveIsPart(q[1..], i - 1);
      assert Without(q, i)[1..] == Without(q[1..], i - 1);
    }
  }

  /** Leaving out more. */
  lemma {:induction false} PartOfPart(o: seq<Entry>, p: seq<Entry>, q: seq<Entry>)
    requires IsPart(o, p) && IsPart(p, q)
    ensures IsPart(o, q)
    decreases |q|
  {
    if o != [] {
      if p[0] == q[0] {
        if o[0] == p[0] {
          PartOfPart(o[1..], p[1..], q[1..]);
        } else {
          PartOfPart(o, p[1..], q[1..]);
        }
      } else {
        PartOfPart(o, p, q[1..]);
        PartTail(o, q);
      }
    }
  }

  lemma {:induction false} PartTail(o: seq<Entry>, q: seq<Entry>)
    requires q != [] && IsPart(o, q[1..])
    ensures IsPart(o, q)
    decreases |q|, 0
  {
    if o != [] && o[0] == q[0] {
      PartRest(o, q[1..]);
    }
  }

  lemma {:induction false} PartRest(o: seq<Entry>, q: seq<Entry>)
    requires o != [] && IsPart(o, q)
    ensures IsPart(o[1..], q)
    decreases |q|, 1
  {
    if o[0] == q[0] {
      PartTail(o[1..], q);
    } else {
      PartRest(o, q[1..]);
      PartTail(o[1..], q);
    }
  }

  lemma {:induction false} PartMember(p: seq<Entry>, q: seq<Entry>, e: Entry)
    requires IsPart(p, q) && e in p
    ensures e in q
    decreases |q|
  {
    if p[0] == q[0] {
      if e != p[0] {
        PartMember(p[1..], q[1..], e);
      }
    } else {
      PartMember(p, q[1..], e);
    }
  }

  // ---- the whole loop -----------------------------------------------------------------------------

  /** The number of due timers falls in every round: the loop of timer_tick ends for any callbacks. */
  lemma FewerDue(s: State, now: nat, cb: Callbacks, lo: nat)
    requires Ready(s, now, cb, lo) && s.queue != [] && s.queue[0].due <= now
    ensures DueBy(Fired(s, now, cb, lo).queue, now) < DueBy(s.queue, now)
    ensures IsPart(Due(Fired(s, now, cb, lo).queue, now), Due(s.queue, now)[1..])
  {
    FiredDue(s, now, cb, lo);
    var d := Due(s.queue, now);
    SortedParts(s.queue, DueBy(s.queue, now));
    SortedParts(d, 1);
    CancelledShrinks(d[1..], cb(Popped(s), s.queue[0].id));
    assert |Due(Fired(s, now, cb, lo).queue, now)| == DueBy(Fired(s, now, cb, lo).queue, now);
  }

  lemma NoneDue(q: seq<Entry>, now: nat)
    requires Sorted(q) && (q == [] || q[0].due > now)
    ensures forall e :: e in q ==> e.due > now
  {
    forall j: nat | j < |q|
      ensures q[j].due > now
    {
      SortedFacts(q, 0, j);
    }
  }

  /** The state at the end of the loop of timer_tick, and the timers that fired, in order. */
  ghost function Expire(s: State, now: nat, cb: Callbacks, lo: nat): (r: (State, seq<Entry>))
    requires Ready(s, now, cb, lo)
    ensures Ready(r.0, now, cb, lo)
    ensures forall e :: e in r.0.queue ==> e.due > now
    decreases DueBy(s.queue, now)
  {
    if s.queue == [] || s.queue[0].due > now then
      NoneDue(s.queue, now);
      (s, [])
    else
      FewerDue(s, now, cb, lo);
      var (s', fired) := Expire(Fired(s, now, cb, lo), now, cb, lo);
      (s', [s.queue[0]] + fired)
  }

  /** What fires was queued and due when the interrupt came, and fires in the order of the queue, at
      most once. */
  lemma {:induction false} FiresInOrder(s: State, now: nat, cb: Callbacks, lo: nat)
    requires Ready(s, now, cb, lo)
    ensures IsPart(Expire(s, now, cb, lo).1, Due(s.queue, now))
    decreases DueBy(s.queue, now)
  {
    if s.queue != [] && s.queue[0].due <= now {
      FewerDue(s, now, cb, lo);
      var s1 := Fired(s, now, cb, lo);
      FiresInOrder(s1, now, cb, lo);
      PartOfPart(Expire(s1, now, cb, lo).1, Due(s1.queue, now), Due(s.queue, now)[1..]);
    }
  }

  /** So no timer fires early, and none that was set during the expiry. */
  lemma FiresOnlyDue(s: State, now: nat, cb: Callbacks, lo: nat, e: Entry)
    requires Ready(s, now, cb, lo) && e in Expire(s, now, cb, lo).1
    ensures e in s.queue && e.due <= now
  {
    FiresInOrder(s, now, cb, lo);
    PartMember(Expire(s, now, cb, lo).1, Due(s.queue, now), e);
  }

  /** The ids that the callbacks of a whole expiry cancel. */
  ghost function CancelledIds(s: State, now: nat, cb: Callbacks, lo: nat): set<TimerId>
    requires Ready(s, now, cb, lo)
    decreases DueBy(s.queue, now)
  {
    if s.queue == [] || s.queue[0].due > now then {}
    else
      FewerDue(s, now, cb, lo);
      Cancels(cb(Popped(s), s.queue[0].id)) + CancelledIds(Fired(s, now, cb, lo), now, cb, lo)
  }

  function Cancels(cs: seq<Command>): set<TimerId> {
    set c | c in cs && c.Cancel? :: c.id
  }

  lemma {:induction false} NotCancelledStays(q: seq<Entry>, cs: seq<Command>, e: Entry)
    requires Sorted(q) && e in q && e.id !in Cancels(cs)
    ensures e in WithoutCancelled(q, cs)
    decreases |cs|
  {
    if cs != [] {
      assert cs[0] in cs && (forall c :: c in cs[1..] ==> c in cs);
      RemoveSorted(q, cs[0].id);
      RemoveMember(q, cs[0].id);
      NotCancelledStays(if cs[0].Cancel? then Remove(q, cs[0].id) else q, cs[1..], e);
    }
  }

  lemma DueMember(q: seq<Entry>, e: Entry, now: nat)
    requires Sorted(q) && e in q && e.due <= now
    ensures e in Due(q, now) && q[0].due <= now
  {
    var j :| 0 <= j < |q| && q[j] == e;
    SortedFacts(q, 0, j);
    if DueBy(q, now) <= j {
      SortedFacts(q, DueBy(q, now), j);
      assert false;
    }
    assert Due(q, now)[j] == e;
  }

  /** Every timer that was due has fired, unless one of the callbacks cancelled it. */
  lemma {:induction false} DueFires(s: State, now: nat, cb: Callbacks, lo: nat, e: Entry)
    requires Ready(s, now, cb, lo) && e in s.queue && e.due <= now
    requires e.id !in CancelledIds(s, now, cb, lo)
    ensures e in Expire(s, now, cb, lo).1
    decreases DueBy(s.queue, now)
  {
    DueMember(s.queue, e, now);
    FewerDue(s, now, cb, lo);
    if e != s.queue[0] {
      var d, s1 := Due(s.queue, now), Fired(s, now, cb, lo);
      SortedParts(s.queue, DueBy(s.queue, now));
      SortedParts(d, 1);
      assert e in d[1..];
      FiredDue(s, now, cb, lo);
      NotCancelledStays(d[1..], cb(Popped(s), s.queue[0].id), e);
      DueFires(s1, now, cb, lo, e);
    }
  }

  // ---- periodic timers ----------------------------------------------------------------------------

  /** No callback sets or cancels the timer. */
  ghost predicate Untouched(cb: Callbacks, id: TimerId) {
    forall s: State, n: TimerId, c: Command :: c in cb(s, n) ==> c.id != id
  }

  /** Nothing about timer id differs. */
  ghost predicate SameTimer(s: State, s': State, id: TimerId) {
    && id in s.timers && id in s'.timers && s'.timers[id] == s.timers[id]
    && forall due: nat :: Entry(id, due) in s'.queue <==> Entry(id, due) in s.queue
  }

  lemma {:induction false} DoAllOther(s: State, cs: seq<Command>, now: nat, lo: nat, id: TimerId)
    requires s.Valid(lo) && CommandsOk(s, cs, now, lo) && id in s.timers && forall c :: c in cs ==> c.id != id
    ensures SameTimer(s, DoAll(s, cs, now, lo), id)
    decreases |cs|
  {
    if cs != [] {
      var c := cs[0];
      DoKeeps(s, c, now, lo);
      match c {
        case SetOneshot(n, at, _, delay) => InsertMember(s.queue, Entry(n, at + AtLeastOne(delay)));
        case SetPeriodic(n, at, _, period) => InsertMember(s.queue, Entry(n, at + AtLeastOne(period)));
        case Cancel(n, _, _) => RemoveMember(s.queue, n);
      }
      DoAllOther(Do(s, c), cs[1..], now, lo, id);
    }
  }

  /** A round for another timer. */
  lemma FiredOther(s: State, now: nat, cb: Callbacks, lo: nat, id: TimerId)
    requires Ready(s, now, cb, lo) && s.queue != [] && s.queue[0].id != id && id in s.timers && Untouched(cb, id)
    ensures SameTimer(s, Fired(s, now, cb, lo), id)
  {
    PoppedKeeps(s, lo);
    var n, s1 := s.queue[0].id, Popped(s);
    DoAllOther(s1, cb(s1, n), now, lo, id);
    DoAllKeeps(s1, cb(s1, n), now, lo);
    var s2 := DoAll(s1, cb(s1, n), now, lo);
    InsertMember(s2.queue, Entry(n, now + s2.timers[n].period));
  }

  lemma StillNotQueued(s: State, s': State, id: TimerId)
    requires SameTimer(s, s', id) && !Has(s.queue, id)
    ensures !Has(s'.queue, id)
  {
    HasMember(s.queue, id);
    HasMember(s'.queue, id);
    assert forall e :: e in s'.queue && e.id == id ==> e == Entry(id, e.due) && e in s.queue;
  }

  /** A round for the timer itself: it returns, due a period from now. */
  lemma FiredPeriodic(s: State, now: nat, cb: Callbacks, lo: nat, id: TimerId)
    requires Ready(s, now, cb, lo) && s.queue != [] && s.queue[0].id == id && id in s.timers && Untouched(cb, id)
    requires s.timers[id].period > 0
    ensures var s' := Fired(s, now, cb, lo);
      id in s'.timers && s'.timers[id].period == s.timers[id].period && Entry(id, now + s.timers[id].period) in s'.queue
  {
    PoppedKeeps(s, lo);
    var s1 := Popped(s);
    DoAllOther(s1, cb(s1, id), now, lo, id);
    DoAllKeeps(s1, cb(s1, id), now, lo);
    var s2 := DoAll(s1, cb(s1, id), now, lo);
    StillNotQueued(s1, s2, id);
    InsertMember(s2.queue, Entry(id, now + s2.timers[id].period));
  }

  /** A timer that is not due and that no callback touches is still queued afterwards. */
  lemma {:induction false} NotDueStays(s: State, now: nat, cb: Callbacks, lo: nat, id: TimerId, due: nat)
    requires Ready(s, now, cb, lo) && Entry(id, due) in s.queue && due > now && id in s.timers && Untouched(cb, id)
    ensures Entry(id, due) in Expire(s, now, cb, lo).0.queue
    decreases DueBy(s.queue, now)
  {
    if s.queue[0].due <= now {
      FewerDue(s, now, cb, lo);
      var j :| 0 <= j < |s.queue| && s.queue[j] == Entry(id, due);
      SortedFacts(s.queue, 0, j);
      FiredOther(s, now, cb, lo, id);
      NotDueStays(Fired(s, now, cb, lo), now, cb, lo, id, due);
    }
  }

  /** A periodic timer whose turn it is, and that no callback touches, is queued for a period later. */
  lemma FirstReturns(s: State, now: nat, cb: Callbacks, lo: nat, id: TimerId)
    requires Ready(s, now, cb, lo) && s.queue != [] && s.queue[0].id == id && id in s.timers && Untouched(cb, id)
    requires s.queue[0].due <= now && s.timers[id].period > 0
    ensures Entry(id, now + s.timers[id].period) in Expire(s, now, cb, lo).0.queue
  {
    FiredPeriodic(s, now, cb, lo, id);
    FewerDue(s, now, cb, lo);
    NotDueStays(Fired(s, now, cb, lo), now, cb, lo, id, now + s.timers[id].period);
  }

  lemma StillDue(s: State, now: nat, cb: Callbacks, lo: nat, id: TimerId, due: nat)
    requires Ready(s, now, cb, lo) && Entry(id, due) in s.queue && s.queue[0].id != id && id in s.timers && Untouched(cb, id)
    ensures var s' := Fired(s, now, cb, lo);
      id in s'.timers && s'.timers[id] == s.timers[id] && Entry(id, due) in s'.queue
  {
    FiredOther(s, now, cb, lo, id);
  }

  /** So is every periodic timer that was due. */
  lemma {:induction false} PeriodicReturns(s: State, now: nat, cb: Callbacks, lo: nat, id: TimerId, due: nat, period: nat)
    requires Ready(s, now, cb, lo) && Entry(id, due) in s.queue && due <= now && id in s.timers && Untouched(cb, id)
    requires s.timers[id].period == period > 0
    ensures Entry(id, now + period) in Expire(s, now, cb, lo).0.queue
    decreases DueBy(s.queue, now)
  {
    DueMember(s.queue, Entry(id, due), now);
    if s.queue[0].id == id {
      FirstReturns(s, now, cb, lo, id);
    } else {
      StillDue(s, now, cb, lo, id, due);
      FewerDue(s, now, cb, lo);
      PeriodicReturns(Fired(s, now, cb, lo), now, cb, lo, id, due, period);
      assert Expire(s, now, cb, lo).0 == Expire(Fired(s, now, cb, lo), now, cb, lo).0;
    }
  }

  // ---- the interrupt and whole runs ---------------------------------------------------------------

  /** The queue does not depend on the hardware. */
  lemma AnyHardware(s: State, hw: Hardware, lo: nat)
    requires s.Valid(lo)
    ensures s.(hw := hw).Valid(lo)
  {
    assert forall e :: e in s.queue ==> s.EntryOk(e, lo);
    assert forall id :: id in s.timers ==> s.PeriodOk(id);
  }

  /** timer_tick for an interrupt at `now`, ending at instant `end`: the one-shot interrupt is used up,
      and is armed again for the first timer that is left. */
  ghost function Tick(s: State, now: nat, end: nat, cb: Callbacks, lo: nat): (r: State)
    requires Ready(s, now, cb, lo)
    ensures r.Valid(lo) && forall e :: e in r.queue ==> e.due > now
  {
    AnyHardware(s, Stopped, lo);
    var s1 := Expire(s.(hw := Stopped), now, cb, lo).0;
    if s1.queue == [] then s1
    else
      var hw := Armed(end, end + (s1.queue[0].due - now));
      AnyHardware(s1, hw, lo);
      s1.(hw := hw)
  }

  /** The delay is computed from the instant of the interrupt but counts from the end of the tick: the
      next interrupt is late by exactly the time that the tick took. */
  lemma TickSlips(s: State, now: nat, end: nat, cb: Callbacks, lo: nat)
    requires Ready(s, now, cb, lo) && now <= end
    ensures var s' := Tick(s, now, end, cb, lo);
      s'.queue != [] ==> s'.hw == Armed(end, s'.queue[0].due + (end - now))
    ensures var s' := Tick(s, now, end, cb, lo);
      s'.queue != [] ==> (s'.Guarded(0) <==> end == now)
    ensures Tick(s, now, end, cb, lo).Guarded(end - now)
  {
    var s' := Tick(s, now, end, cb, lo);
    assert s'.queue != [] ==> s'.queue[0] in s'.queue;
  }

  datatype Event =
    | Call(command: Command)
    | Interrupt(now: nat, end: nat, cb: Callbacks)

  ghost predicate EventOk(s: State, event: Event, lo: nat) {
    s.Valid(lo) &&
    match event
    case Call(c) => CommandOk(s, c, lo, lo)
    case Interrupt(now, end, cb) => Ready(s, now, cb, lo) && now <= end
  }

  ghost predicate Step(s: State, event: Event, lo: nat, s': State)
    requires EventOk(s, event, lo)
  {
    match event
    case Call(c) => s' == Do(s, c)
    case Interrupt(now, end, cb) => s' == Tick(s, now, end, cb, lo)
  }

  /** A run; los says, for each event, from when on half the range of the clock holds all instants. */
  ghost predicate Run(states: seq<State>, events: seq<Event>, los: seq<nat>) {
    && |states| == |events| + 1 && |los| == |events|
    && forall i :: 0 <= i < |events| ==> EventOk(states[i], events[i], los[i]) && Step(states[i], events[i], los[i], states[i + 1])
  }

  /** What passes between reading the clock and arming the interrupt. What the callbacks of a tick arm
      does not count: the tick arms the interrupt again. */
  function Lag(event: Event): int {
    match event
    case Call(c) => c.arm - c.at
    case Interrupt(now, end, _) => end - now
  }

  /** Through any run in which no call and no tick takes longer than `slip` for that, a queue that is not
      empty has an interrupt armed, no later than its first timer is due or than it was last armed, plus
      `slip`. */
  lemma {:induction false} AlwaysGuarded(states: seq<State>, events: seq<Event>, los: seq<nat>, slip: nat, n: nat)
    requires Run(states, events, los) && states[0].Guarded(slip) && n <= |events|
    requires forall i :: 0 <= i < |events| ==> Lag(events[i]) <= slip
    ensures states[n].Guarded(slip)
    decreases n
  {
    if n > 0 {
      AlwaysGuarded(states, events, los, slip, n - 1);
      var s, lo := states[n - 1], los[n - 1];
      assert EventOk(s, events[n - 1], lo) && Step(s, events[n - 1], lo, states[n]);
      match events[n - 1]
      case Call(c) =>
        match c {
          case SetOneshot(id, at, arm, delay) => s.SetGuards(id, at, arm, AtLeastOne(delay), 0, slip);
          case SetPeriodic(id, at, arm, period) => s.SetGuards(id, at, arm, AtLeastOne(period), AtLeastOne(period), slip);
          case Cancel(id, at, arm) => s.CancelGuards(id, at, arm, slip, lo);
        }
      case Interrupt(now, end, cb) => TickSlips(s, now, end, cb, lo);
    }
  }
}
