/**
 top/init.c: the hooks of a range of levels are called in the order of a stable sort by level, by
 scanning the unsorted table again for each call.
 */
module InitLevel {
  import opened Common

  type Level = nat

  /** enum lk_init_flags; flags are combined as sets. */
  datatype Flag = PrimaryCpu | SecondaryCpus | CpuSuspend | CpuResume
  type Flags = set<Flag>

  /** struct lk_init_struct; a hook is known by its position in the table. */
  datatype Hook = Hook(level: Level, flags: Flags)

  predicate Eligible(h: Hook, required: Flags, start: Level, stop: Level) {
    h.flags * required != {} && start <= h.level <= stop
  }

  /** Hook i comes before hook j: by level, and by position on the same level. */
  predicate Before(hooks: seq<Hook>, i: nat, j: nat)
    requires i < |hooks| && j < |hooks|
  {
    hooks[i].level < hooks[j].level || (hooks[i].level == hooks[j].level && i < j)
  }

  ghost predicate InOrder(hooks: seq<Hook>, calls: seq<nat>, a: nat, b: nat)
    requires a < b < |calls|
  {
    calls[a] < |hooks| && calls[b] < |hooks| && Before(hooks, calls[a], calls[b])
  }

  /** The calls are those of the eligible hooks, each once, by level and then by position. */
  ghost predicate StableOrder(hooks: seq<Hook>, required: Flags, start: Level, stop: Level, calls: seq<nat>) {
    && (forall a: nat, b: nat :: a < b < |calls| ==> InOrder(hooks, calls, a, b))
    && forall i: nat :: i in calls <==> i < |hooks| && Eligible(hooks[i], required, start, stop)
  }

  /** There is only one such order. */
  lemma {:induction false} OrderUnique(hooks: seq<Hook>, c: seq<nat>, d: seq<nat>)
    requires forall a: nat, b: nat :: a < b < |c| ==> InOrder(hooks, c, a, b)
    requires forall a: nat, b: nat :: a < b < |d| ==> InOrder(hooks, d, a, b)
    requires forall i: nat :: i in c <==> i in d
    requires forall i: nat :: i in c ==> i < |hooks|
    ensures c == d
    decreases |c|
  {
    assert c != [] ==> c[0] in c;
    assert d != [] ==> d[0] in d;
    if c != [] {
      FirstIsLeast(hooks, c, d[0]);
      FirstIsLeast(hooks, d, c[0]);
      TailMembers(hooks, c);
      TailMembers(hooks, d);
      TailInOrder(hooks, c);
      TailInOrder(hooks, d);
      OrderUnique(hooks, c[1..], d[1..]);
    }
  }

  lemma FirstIsLeast(hooks: seq<Hook>, c: seq<nat>, i: nat)
    requires forall a: nat, b: nat :: a < b < |c| ==> InOrder(hooks, c, a, b)
    requires i in c && i < |hooks| && forall k: nat :: k in c ==> k < |hooks|
    ensures c[0] in c && (c[0] == i || Before(hooks, c[0], i))
  {
    var j :| 0 <= j < |c| && c[j] == i;
    assert j > 0 ==> InOrder(hooks, c, 0, j);
  }

  lemma TailMembers(hooks: seq<Hook>, c: seq<nat>)
    requires c != [] && forall a: nat, b: nat :: a < b < |c| ==> InOrder(hooks, c, a, b)
    ensures forall i: nat :: i in c[1..] <==> i in c && i != c[0]
  {
    forall b: nat | 0 < b < |c|
      ensures c[b] != c[0]
    {
      assert InOrder(hooks, c, 0, b);
    }
  }

  lemma TailInOrder(hooks: seq<Hook>, c: seq<nat>)
    requires c != [] && forall a: nat, b: nat :: a < b < |c| ==> InOrder(hooks, c, a, b)
    ensures forall a: nat, b: nat :: a < b < |c[1..]| ==> InOrder(hooks, c[1..], a, b)
  {
    forall a: nat, b: nat | a < b < |c[1..]|
      ensures InOrder(hooks, c[1..], a, b)
    {
      assert InOrder(hooks, c, a + 1, b + 1);
    }
  }

  /** Adjacent ranges, one after the other, call the same hooks in the same order as their union. */
  lemma AdjacentRanges(hooks: seq<Hook>, required: Flags, start: Level, mid: Level, stop: Level, c: seq<nat>, d: seq<nat>, all: seq<nat>)
    requires start <= mid <= stop
    requires StableOrder(hooks, required, start, mid, c) && StableOrder(hooks, required, mid + 1, stop, d)
    requires StableOrder(hooks, required, start, stop, all)
    ensures c + d == all
  {
    var e := c + d;
    forall a: nat, b: nat | a < b < |e|
      ensures InOrder(hooks, e, a, b)
    {
      if b < |c| {
        assert InOrder(hooks, c, a, b);
      } else if a >= |c| {
        assert InOrder(hooks, d, a - |c|, b - |c|);
      } else {
        assert e[a] in c && e[b] in d;
      }
    }
    OrderUnique(hooks, e, all);
  }

  // ---- the scan -----------------------------------------------------------------------------------

  /** Hook i is still to be called after `last`, the last one that was. */
  predicate Pending(hooks: seq<Hook>, required: Flags, start: Level, stop: Level, last: Option<nat>, i: nat)
    requires i < |hooks| && (last.Some? ==> last.value < |hooks|)
  {
    Eligible(hooks[i], required, start, stop) && (last.Some? ==> Before(hooks, last.value, i))
  }

  /** The first pending hook among the first n. */
  ghost predicate FirstPending(hooks: seq<Hook>, required: Flags, start: Level, stop: Level, last: Option<nat>, n: nat, found: Option<nat>)
    requires n <= |hooks| && (last.Some? ==> last.value < |hooks|)
  {
    match found
    case None => forall i: nat :: i < n ==> !Pending(hooks, required, start, stop, last, i)
    case Some(f) =>
      && f < n && Pending(hooks, required, start, stop, last, f)
      && forall i: nat :: i < n && Pending(hooks, required, start, stop, last, i) ==> i == f || Before(hooks, f, i)
  }

  /** The inner loop of lk_init_level: one scan for the next hook to call. */
  method FindNext(hooks: seq<Hook>, required: Flags, start: Level, stop: Level, last: Option<nat>, lastCalledLevel: Level)
    returns (found: Option<nat>)
    requires start > 0
    requires last.None? ==> lastCalledLevel == start - 1
    requires last.Some? ==> last.value < |hooks| && lastCalledLevel == hooks[last.value].level && start <= lastCalledLevel
    ensures FirstPending(hooks, required, start, stop, last, |hooks|, found)
  {
    found := None;
    var seenLast := false;
    var ptr: nat := 0;
    while ptr < |hooks|
      invariant ptr <= |hooks|
      invariant seenLast <==> last.Some? && last.value < ptr
      invariant FirstPending(hooks, required, start, stop, last, ptr, found)
      invariant found.Some? ==> hooks[found.value].level > lastCalledLevel
    {
      var h := hooks[ptr];
      ghost var pending := Pending(hooks, required, start, stop, last, ptr);
      if last == Some(ptr) {
        seenLast := true;
      }
      if h.flags * required == {} || h.level > stop || h.level < lastCalledLevel {
        // rejected
        assert !pending;
      } else if found.Some? && hooks[found.value].level <= h.level {
        assert Before(hooks, found.value, ptr);
      } else if h.level >= start && h.level > lastCalledLevel {
        found := Some(ptr);
      } else if h.level == lastCalledLevel && last != Some(ptr) && seenLast {
        found := Some(ptr);
        Early(hooks, required, start, stop, last, ptr);
        return;
      } else {
        assert !pending;
      }
      ptr := ptr + 1;
    }
  }

  /** The early exit: on the level of the last hook called, the first one behind it is next. */
  lemma Early(hooks: seq<Hook>, required: Flags, start: Level, stop: Level, last: Option<nat>, ptr: nat)
    requires ptr < |hooks| && last.Some? && last.value < ptr && hooks[ptr].level == hooks[last.value].level
    requires Pending(hooks, required, start, stop, last, ptr)
    requires forall i: nat :: i < ptr && Pending(hooks, required, start, stop, last, i) ==> hooks[i].level > hooks[last.value].level
    ensures FirstPending(hooks, required, start, stop, last, |hooks|, Some(ptr))
  {
  }

  ghost function Remaining(hooks: seq<Hook>, required: Flags, start: Level, stop: Level, last: Option<nat>): set<nat>
    requires last.Some? ==> last.value < |hooks|
  {
    set i: nat | i < |hooks| && Pending(hooks, required, start, stop, last, i)
  }

  /** lk_init_level: the positions of the hooks that it calls, in that order. */
  method InitLevel(hooks: seq<Hook>, required: Flags, start: Level, stop: Level) returns (calls: seq<nat>)
    requires start > 0
    ensures StableOrder(hooks, required, start, stop, calls)
    ensures forall i: nat :: i in calls <==>
      i < |hooks| && (exists f :: f in required && f in hooks[i].flags) && start <= hooks[i].level && hooks[i].level <= stop
  {
    var lastCalledLevel: nat := start - 1;
    var last: Option<nat> := None;
    calls := [];
    while true
      invariant last.None? ==> lastCalledLevel == start - 1 && calls == []
      invariant last.Some? ==> last.value < |hooks| && lastCalledLevel == hooks[last.value].level && start <= lastCalledLevel
      invariant last.Some? ==> calls != [] && calls[|calls| - 1] == last.value
      invariant forall a: nat, b: nat :: a < b < |calls| ==> InOrder(hooks, calls, a, b)
      invariant forall i: nat :: i in calls <==> i < |hooks| && Eligible(hooks[i], required, start, stop) && !Pending(hooks, required, start, stop, last, i)
      decreases Remaining(hooks, required, start, stop, last)
    {
      var found := FindNext(hooks, required, start, stop, last, lastCalledLevel);
      if found.None? {
        break;
      }
      ghost var before := last;
      OneMore(hooks, required, start, stop, calls, last, found.value);
      calls := calls + [found.value];
      lastCalledLevel := hooks[found.value].level;
      last := found;
      assert found.value in Remaining(hooks, required, start, stop, before) - Remaining(hooks, required, start, stop, last);
    }
    forall i: nat | i < |hooks|
      ensures hooks[i].flags * required != {} <==> exists f :: f in required && f in hooks[i].flags
    {
      Shared(hooks[i].flags, required);
    }
  }

  lemma Shared(a: Flags, b: Flags)
    ensures a * b != {} <==> exists f :: f in b && f in a
  {
    if a * b != {} {
      var f :| f in a * b;
      assert f in b && f in a;
    } else {
      forall f | f in b && f in a
        ensures f in a * b
      {
      }
    }
  }

  lemma OneMore(hooks: seq<Hook>, required: Flags, start: Level, stop: Level, calls: seq<nat>, last: Option<nat>, f: nat)
    requires last.Some? ==> last.value < |hooks| && calls != [] && calls[|calls| - 1] == last.value
    requires last.None? ==> calls == []
    requires forall a: nat, b: nat :: a < b < |calls| ==> InOrder(hooks, calls, a, b)
    requires forall i: nat :: i in calls <==> i < |hooks| && Eligible(hooks[i], required, start, stop) && !Pending(hooks, required, start, stop, last, i)
    requires FirstPending(hooks, required, start, stop, last, |hooks|, Some(f))
    ensures var d := calls + [f];
      && (forall a: nat, b: nat :: a < b < |d| ==> InOrder(hooks, d, a, b))
      && (forall i: nat :: i in d <==> i < |hooks| && Eligible(hooks[i], required, start, stop) && !Pending(hooks, required, start, stop, Some(f), i))
      && (forall i: nat :: i < |hooks| && Pending(hooks, required, start, stop, Some(f), i) ==> Pending(hooks, required, start, stop, last, i))
  {
    var d := calls + [f];
    forall a: nat, b: nat | a < b < |d|
      ensures InOrder(hooks, d, a, b)
    {
      if b < |calls| {
        assert InOrder(hooks, calls, a, b);
      } else if a < |calls| - 1 {
        assert InOrder(hooks, calls, a, |calls| - 1);
      }
    }
  }
}
