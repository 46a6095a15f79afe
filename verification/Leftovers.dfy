/**
 What empty tables mean to the callers of arch/arm64/mmu.c: without them a mapping fails only for a translation
 in its range or for want of pages; and exactly which call leaves one.
 */
module Leftovers {
  import opened Blocks
  import opened Capacity
  import opened Common
  import opened PageTable
  import opened Tidy
  import opened Translation

  /** No table but the root is empty. */
  ghost predicate TidySpace(l: Layout, s: Store)
    requires l.Ok() && l.Valid(s)
  {
    TidyTable(l.geometry, s.mem, l.root, l.top)
  }

  /** The range and the alignment are accepted. */
  predicate Accepts(l: Layout, vaddr: nat, paddr: nat, size: nat) {
    l.base <= vaddr && vaddr + size <= l.base + l.Size() && l.geometry.PageAligned(vaddr - l.base, paddr, size)
  }

  /** The call leaves an empty table behind. */
  ghost predicate Leaves(l: Layout, s: Store, op: Op)
    requires l.Ok() && l.Valid(s)
  {
    && op.Map? && op.size > 0 && Accepts(l, op.vaddr, op.paddr, op.size)
    && LeavesTable(l.geometry, s.mem, |s.free|, l.root, l.top, op.vaddr - l.base, op.size, op.paddr)
  }

  ghost predicate TidyStep(l: Layout, s: Store, op: Op, s': Store)
    requires l.Ok() && l.Valid(s) && l.Valid(s')
  {
    TidySpace(l, s) ==> (TidySpace(l, s') <==> !Leaves(l, s, op))
  }

  /** Arguments that are not accepted change nothing. */
  lemma {:induction false} RefusedTidy(l: Layout, s: Store, op: Op)
    requires l.Ok() && l.Valid(s) && op.Map? && (op.size > 0 ==> !Accepts(l, op.vaddr, op.paddr, op.size))
    ensures TidyStep(l, s, op, s)
  {
  }

  lemma {:induction false} LeavesFails(l: Layout, s: Store, op: Op)
    requires l.Ok() && l.Valid(s) && Leaves(l, s, op)
    ensures !CanMap(l.geometry, s, l.root, l.top, op.vaddr - l.base, op.size, op.paddr)
  {
    if CanMap(l.geometry, s, l.root, l.top, op.vaddr - l.base, op.size, op.paddr) {
      RoomLeavesNone(l.geometry, s.mem, |s.free|, l.root, l.top, op.vaddr - l.base, op.size, op.paddr);
      assert false;
    }
  }

  /** A mapping that leaves a table fails, and changes no translation. */
  lemma {:induction false} LeftByFailure(l: Layout, s: Store, op: Op, r: Status, s': Store)
    requires l.Ok() && l.Valid(s) && l.Valid(s') && TidySpace(l, s) && Leaves(l, s, op) && TidyStep(l, s, op, s')
    requires l.MapStep(s, op.vaddr, op.paddr, op.size, op.attrs, r, s') && r != NoError
    ensures !TidySpace(l, s') && l.Unchanged(s, s')
  {
  }

  lemma {:induction false} UntidyEntry(l: Layout, s: Store) returns (i: nat)
    requires l.Ok() && l.Valid(s) && !TidySpace(l, s)
    ensures i < |s.mem[l.root]| && s.mem[l.root][i].Table?
  {
    i :| i < |s.mem[l.root]| && !TidyEntry(l.geometry, s.mem, s.mem[l.root][i], l.top);
  }

  /** In a tidy address space, a mapping succeeds if and only if no address of its range is translated and there
      are enough pages for the tables that it takes. */
  lemma {:induction false} MapsIff(l: Layout, s: Store, vaddr: nat, paddr: nat, size: nat)
    requires l.Ok() && l.Valid(s) && TidySpace(l, s)
    requires l.base <= vaddr && vaddr + size <= l.base + l.Size()
    ensures CanMap(l.geometry, s, l.root, l.top, vaddr - l.base, size, paddr) <==>
      && (forall v: nat :: vaddr <= v < vaddr + size ==> l.Translate(s, v) == None)
      && NeedTable(l.geometry, s.mem, l.root, l.top, vaddr - l.base, size, paddr) <= |s.free|
  {
    var g, rel := l.geometry, vaddr - l.base;
    TidyFitsIff(g, s.mem, l.root, l.top, rel, size, paddr);
    forall v: nat | vaddr <= v < vaddr + size
      ensures l.Translate(s, v) == None <==> g.Lookup(s.mem, l.root, l.top, v - l.base) == None
    {
    }
    if forall v: nat :: vaddr <= v < vaddr + size ==> l.Translate(s, v) == None {
      forall w: nat | rel <= w < rel + size
        ensures g.Lookup(s.mem, l.root, l.top, w) == None
      {
        assert l.Translate(s, l.base + w) == None;
      }
    }
  }

  lemma {:induction false} SameRoot(l: Layout, s: Store, s': Store)
    requires l.Ok() && l.Valid(s) && l.Valid(s')
    ensures |s'.mem[l.root]| == |s.mem[l.root]|
  {
    var n, n', b := |s.mem[l.root]|, |s'.mem[l.root]|, l.geometry.block[l.top];
    if n < n' {
      StartMonotone(n, n', b);
    } else if n' < n {
      StartMonotone(n', n, b);
    }
  }

  /** The success of a mapping whose arguments are accepted. */
  ghost predicate SucceedsIff(l: Layout, s: Store, vaddr: nat, paddr: nat, size: nat, ok: bool)
    requires l.Ok() && l.Valid(s)
  {
    TidySpace(l, s) && size > 0 && Accepts(l, vaddr, paddr, size) ==>
      (ok <==>
         && (forall v: nat :: vaddr <= v < vaddr + size ==> l.Translate(s, v) == None)
         && NeedTable(l.geometry, s.mem, l.root, l.top, vaddr - l.base, size, paddr) <= |s.free|)
  }

  /** What arm64_mmu_map does to the tables, from what arm64_mmu_map_pt did at offset rel. */
  lemma {:induction false} MapTidy(l: Layout, s: Store, rel: nat, vaddr: nat, paddr: nat, size: nat, attrs: Attrs, r: Status, s': Store)
    requires l.Ok() && l.Valid(s) && l.Valid(s') && rel + size <= l.Size() && (size > 0 ==> vaddr == l.base + rel)
    requires r == ErrInvalidArgs <==> !l.geometry.PageAligned(rel, paddr, size)
    requires if r == ErrInvalidArgs then s' == s else RangeTidy(l.geometry, s, s', l.root, l.top, rel, size, paddr)
    requires r != ErrInvalidArgs ==> (r == NoError <==> CanMap(l.geometry, s, l.root, l.top, rel, size, paddr))
    ensures TidyStep(l, s, Op.Map(vaddr, paddr, size, attrs), s') && SucceedsIff(l, s, vaddr, paddr, size, r == NoError)
  {
    if TidySpace(l, s) && size > 0 && Accepts(l, vaddr, paddr, size) {
      MapsIff(l, s, vaddr, paddr, size);
    }
  }

  /** Through any run from a tidy address space, an empty one say, in which no mapping ran out of pages below a
      table that it had just allocated, the address space stays tidy. */
  lemma {:induction false} RunTidy(l: Layout, states: seq<Store>, history: seq<Call>)
    requires l.Ok() && l.Run(states, history) && TidySpace(l, states[0])
    requires forall i :: 0 <= i < |history| ==>
      TidyStep(l, states[i], history[i].op, states[i + 1]) && !Leaves(l, states[i], history[i].op)
    ensures TidySpace(l, states[|history|])
    decreases |history|
  {
    if history != [] {
      var n := |history| - 1;
      l.RunPrefix(states, history);
      RunTidy(l, states[..n + 1], history[..n]);
      assert TidyStep(l, states[n], history[n].op, states[n + 1]);
    }
  }
}
