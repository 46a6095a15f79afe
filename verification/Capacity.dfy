/**
 Exactly when arm64_mmu_map_pt succeeds: where descriptors stand in the way of a mapping,
 and how many fresh tables it takes.
 */
module Capacity {
  import opened Blocks
  import opened Common
  import opened LeafSizes
  import opened PageTable

  /** Largest index_shift at which a block descriptor may be used. */
  const BLOCK_MAX_SHIFT := 30

  /** The chunk is one whole, aligned block of a level that has leaves. */
  predicate Leafable(g: Geometry, k: nat, rem: nat, chunk: nat, p: nat)
    requires k < |g.block|
  {
    rem == 0 && Rem(p, g.block[k]) == 0 && chunk == g.block[k] && g.IndexShift(k) <= BLOCK_MAX_SHIFT
  }

  /** The descriptor in the entry, of level k, does not stand in the way of the chunk. */
  ghost predicate FitsEntry(g: Geometry, m: Memory, e: Pte, k: nat, rem: nat, chunk: nat, p: nat)
    requires k < |g.block|
    decreases k, 0, 0
  {
    if Leafable(g, k, rem, chunk, p) then e == Invalid
    else
      match e
      case Invalid => true
      case Table(c) => k > 0 && c in m && FitsTable(g, m, c, k - 1, rem, chunk, p)
      case Block(_, _) => false
      case Page(_, _) => false
  }

  ghost predicate FitsTable(g: Geometry, m: Memory, f: Frame, k: nat, cur: nat, left: nat, p: nat)
    requires k < |g.block| && f in m
    decreases k, 1, left
  {
    left == 0 ||
    var rem := Rem(cur, g.block[k]);
    var chunk := Chunk(left, rem, g.block[k]);
    var i := Slot(cur, g.block[k]);
    && i < |m[f]|
    && FitsEntry(g, m, m[f][i], k, rem, chunk, p)
    && FitsTable(g, m, f, k, cur + chunk, left - chunk, p + chunk)
  }

  // ---- what stands in the way ---------------------------------------------------------------------

  /** Where the chunk would be written as one leaf, the entry leads to no table. */
  ghost predicate NoTableEntry(g: Geometry, m: Memory, e: Pte, k: nat, rem: nat, chunk: nat, p: nat)
    requires k < |g.block|
    decreases k, 0, 0
  {
    e.Table? ==> !Leafable(g, k, rem, chunk, p) && (k > 0 && e.frame in m ==> NoTable(g, m, e.frame, k - 1, rem, chunk, p))
  }

  ghost predicate NoTable(g: Geometry, m: Memory, f: Frame, k: nat, cur: nat, left: nat, p: nat)
    requires k < |g.block| && f in m
    decreases k, 1, left
  {
    left == 0 ||
    var rem := Rem(cur, g.block[k]);
    var chunk := Chunk(left, rem, g.block[k]);
    var i := Slot(cur, g.block[k]);
    && (i < |m[f]| ==> NoTableEntry(g, m, m[f][i], k, rem, chunk, p))
    && NoTable(g, m, f, k, cur + chunk, left - chunk, p + chunk)
  }

  ghost predicate Untranslated(g: Geometry, m: Memory, f: Frame, k: nat, cur: nat, left: nat)
    requires k < |g.block| && f in m
  {
    forall v: nat :: cur <= v < cur + left ==> g.Lookup(m, f, k, v) == None
  }

  ghost predicate UntranslatedEntry(g: Geometry, m: Memory, e: Pte, k: nat, rem: nat, chunk: nat)
    requires k < |g.block|
  {
    forall v: nat :: rem <= v < rem + chunk ==> g.LookupEntry(m, e, k, v) == None
  }

  lemma {:induction false} EntryFitsIff(g: Geometry, m: Memory, e: Pte, k: nat, rem: nat, chunk: nat, p: nat)
    requires g.Valid() && k < |g.block| && g.TreeEntry(m, e, k) && chunk > 0 && rem + chunk <= g.block[k]
    ensures FitsEntry(g, m, e, k, rem, chunk, p) <==> UntranslatedEntry(g, m, e, k, rem, chunk) && NoTableEntry(g, m, e, k, rem, chunk, p)
    decreases k, 0, 0
  {
    match e
    case Invalid =>
    case Table(c) =>
      g.BlockStep(k - 1);
      FitsIff(g, m, c, k - 1, rem, chunk, p);
      var l := k - 1;
      assert forall v: nat :: g.LookupEntry(m, e, k, v) == g.Lookup(m, c, l, v);
      assert UntranslatedEntry(g, m, e, k, rem, chunk) ==> Untranslated(g, m, c, l, rem, chunk);
    case Block(_, _) => assert g.LookupEntry(m, e, k, rem).Some?;
    case Page(_, _) => assert g.LookupEntry(m, e, k, rem).Some?;
  }

  /** Nothing stands in the way of a mapping if and only if every address of its range is untranslated, and
      no table, which may be empty, is where the mapping would write a leaf. */
  lemma {:induction false} FitsIff(g: Geometry, m: Memory, f: Frame, k: nat, cur: nat, left: nat, p: nat)
    requires g.Valid() && k < |g.block| && g.IsTree(m, f, k) && cur + left <= Start(|m[f]|, g.block[k])
    ensures FitsTable(g, m, f, k, cur, left, p) <==> Untranslated(g, m, f, k, cur, left) && NoTable(g, m, f, k, cur, left, p)
    decreases k, 1, left
  {
    if left > 0 {
      var b := g.block[k];
      var rem := Rem(cur, b);
      var chunk := Chunk(left, rem, b);
      var i := Slot(cur, b);
      InTable(cur, left, b, |m[f]|);
      assert g.TreeEntry(m, m[f][i], k);
      EntryFitsIff(g, m, m[f][i], k, rem, chunk, p);
      SlotUntranslated(g, m, f, k, i, cur, rem, chunk);
      FitsIff(g, m, f, k, cur + chunk, left - chunk, p + chunk);
      assert Untranslated(g, m, f, k, cur, left) <==>
        Untranslated(g, m, f, k, cur, chunk) && Untranslated(g, m, f, k, cur + chunk, left - chunk);
    }
  }

  lemma InTable(cur: nat, left: nat, b: pos, n: nat)
    requires left > 0 && cur + left <= Start(n, b)
    ensures Slot(cur, b) < n && cur == Start(Slot(cur, b), b) + Rem(cur, b)
  {
    SlotBounds(cur, b);
    if n < Slot(cur, b) {
      StartMonotone(n, Slot(cur, b), b);
    }
  }

  lemma SlotUntranslated(g: Geometry, m: Memory, f: Frame, k: nat, i: nat, cur: nat, rem: nat, chunk: nat)
    requires k < |g.block| && f in m && i < |m[f]| && cur == Start(i, g.block[k]) + rem && rem + chunk <= g.block[k]
    ensures Untranslated(g, m, f, k, cur, chunk) <==> UntranslatedEntry(g, m, m[f][i], k, rem, chunk)
  {
    var off := Start(i, g.block[k]);
    forall v: nat | rem <= v < rem + chunk
      ensures g.Lookup(m, f, k, off + v) == None <==> g.LookupEntry(m, m[f][i], k, v) == None
    {
      SlotUnique(off + v, i, g.block[k]);
    }
    if UntranslatedEntry(g, m, m[f][i], k, rem, chunk) {
      forall v: nat | cur <= v < cur + chunk
        ensures g.Lookup(m, f, k, v) == None
      {
        var w: nat := v - off;
        assert g.LookupEntry(m, m[f][i], k, w) == None && v == off + w;
      }
    }
  }

  // ---- what it takes ------------------------------------------------------------------------------

  /** The fresh tables the chunk takes below the entry. */
  ghost function NeedEntry(g: Geometry, m: Memory, e: Pte, k: nat, rem: nat, chunk: nat, p: nat): nat
    requires k < |g.block|
    decreases k, 0, 0
  {
    if Leafable(g, k, rem, chunk, p) || k == 0 then 0
    else
      match e
      case Invalid => 1 + NeedFresh(g, k - 1, rem, chunk, p)
      case Table(c) => if c in m then NeedTable(g, m, c, k - 1, rem, chunk, p) else 0
      case Block(_, _) => 0
      case Page(_, _) => 0
  }

  ghost function NeedTable(g: Geometry, m: Memory, f: Frame, k: nat, cur: nat, left: nat, p: nat): nat
    requires k < |g.block| && f in m
    decreases k, 1, left
  {
    if left == 0 then 0
    else
      var rem := Rem(cur, g.block[k]);
      var chunk := Chunk(left, rem, g.block[k]);
      var i := Slot(cur, g.block[k]);
      (if i < |m[f]| then NeedEntry(g, m, m[f][i], k, rem, chunk, p) else 0)
      + NeedTable(g, m, f, k, cur + chunk, left - chunk, p + chunk)
  }

  /** The same in a table that is still empty. */
  ghost function NeedFresh(g: Geometry, k: nat, cur: nat, left: nat, p: nat): nat
    requires k < |g.block|
    decreases k, 1, left
  {
    if left == 0 then 0
    else
      var rem := Rem(cur, g.block[k]);
      var chunk := Chunk(left, rem, g.block[k]);
      NeedEntry(g, map[], Invalid, k, rem, chunk, p) + NeedFresh(g, k, cur + chunk, left - chunk, p + chunk)
  }

  /** Nothing stands in the way of the mapping and enough pages are free for its tables. */
  ghost predicate CanMap(g: Geometry, s: Store, f: Frame, k: nat, cur: nat, left: nat, p: nat)
    requires k < |g.block| && f in s.mem
  {
    FitsTable(g, s.mem, f, k, cur, left, p) && NeedTable(g, s.mem, f, k, cur, left, p) <= |s.free|
  }

  ghost predicate CanMapEntry(g: Geometry, s: Store, e: Pte, k: nat, rem: nat, chunk: nat, p: nat)
    requires k < |g.block|
  {
    FitsEntry(g, s.mem, e, k, rem, chunk, p) && NeedEntry(g, s.mem, e, k, rem, chunk, p) <= |s.free|
  }

  /** The tables below e are the same in both memories. */
  ghost predicate Agree(g: Geometry, m: Memory, m': Memory, e: Pte, k: nat) {
    forall c :: c in g.ReachEntry(m, e, k) ==> c in m && c in m' && m'[c] == m[c]
  }

  lemma {:induction false} AgreeingEntry(g: Geometry, m: Memory, m': Memory, e: Pte, k: nat, rem: nat, chunk: nat, p: nat)
    requires k < |g.block| && Agree(g, m, m', e, k)
    ensures FitsEntry(g, m', e, k, rem, chunk, p) == FitsEntry(g, m, e, k, rem, chunk, p)
    ensures NeedEntry(g, m', e, k, rem, chunk, p) == NeedEntry(g, m, e, k, rem, chunk, p)
    decreases k, 0, 0
  {
    if e.Table? && k > 0 {
      assert e.frame in g.Reach(m, e.frame, k - 1);
      AgreeingTable(g, m, m', e.frame, k - 1, rem, chunk, p);
    }
  }

  lemma {:induction false} AgreeingTable(g: Geometry, m: Memory, m': Memory, f: Frame, k: nat, cur: nat, left: nat, p: nat)
    requires k < |g.block| && Agree(g, m, m', Table(f), k + 1) && f in m && f in m' && m'[f] == m[f]
    ensures FitsTable(g, m', f, k, cur, left, p) == FitsTable(g, m, f, k, cur, left, p)
    ensures NeedTable(g, m', f, k, cur, left, p) == NeedTable(g, m, f, k, cur, left, p)
    decreases k, 1, left
  {
    if left > 0 {
      var rem := Rem(cur, g.block[k]);
      var chunk := Chunk(left, rem, g.block[k]);
      var i := Slot(cur, g.block[k]);
      if i < |m[f]| {
        assert g.ReachEntry(m, m[f][i], k) <= g.Reach(m, f, k);
        AgreeingEntry(g, m, m', m[f][i], k, rem, chunk, p);
      }
      AgreeingTable(g, m, m', f, k, cur + chunk, left - chunk, p + chunk);
    }
  }

  /** Entry i of f and what is below it may have changed, nothing else of f. */
  ghost predicate OthersKept(g: Geometry, m: Memory, m': Memory, f: Frame, k: nat, i: nat)
  {
    && f in m && f in m' && |m'[f]| == |m[f]|
    && forall j: nat :: j < |m[f]| && j != i ==> OtherKept(g, m, m', f, k, j)
  }

  ghost predicate OtherKept(g: Geometry, m: Memory, m': Memory, f: Frame, k: nat, j: nat)
    requires f in m && f in m' && j < |m[f]| == |m'[f]|
  {
    m'[f][j] == m[f][j] && Agree(g, m, m', m[f][j], k)
  }

  /** What lies beyond entry i is judged the same before and after a change of that entry. */
  lemma {:induction false} RestUnaffected(g: Geometry, m: Memory, m': Memory, f: Frame, k: nat, i: nat, cur: nat, left: nat, p: nat)
    requires k < |g.block| && OthersKept(g, m, m', f, k, i)
    requires left > 0 ==> Start(i + 1, g.block[k]) <= cur
    ensures FitsTable(g, m', f, k, cur, left, p) == FitsTable(g, m, f, k, cur, left, p)
    ensures NeedTable(g, m', f, k, cur, left, p) == NeedTable(g, m, f, k, cur, left, p)
    decreases left
  {
    if left > 0 {
      var b := g.block[k];
      var rem := Rem(cur, b);
      var chunk := Chunk(left, rem, b);
      var j := Slot(cur, b);
      SlotBounds(cur, b);
      if j <= i {
        StartMonotone(j, i + 1, b);
        assert false;
      }
      if j < |m[f]| {
        assert OtherKept(g, m, m', f, k, j);
        AgreeingEntry(g, m, m', m[f][j], k, rem, chunk, p);
      }
      RestUnaffected(g, m, m', f, k, i, cur + chunk, left - chunk, p + chunk);
    }
  }

  /** An empty table takes anything that is aligned, at the price of NeedFresh. */
  lemma {:induction false} EmptyFits(g: Geometry, m: Memory, f: Frame, k: nat, cur: nat, left: nat, p: nat)
    requires g.Valid() && k < |g.block| && g.Empty(m, f) && cur + left <= Start(|m[f]|, g.block[k])
    ensures FitsTable(g, m, f, k, cur, left, p)
    ensures NeedTable(g, m, f, k, cur, left, p) == NeedFresh(g, k, cur, left, p)
    decreases left
  {
    if left > 0 {
      var b := g.block[k];
      var rem := Rem(cur, b);
      var chunk := Chunk(left, rem, b);
      var i := Slot(cur, b);
      SlotBounds(cur, b);
      if |m[f]| <= i {
        if |m[f]| < i {
          StartMonotone(|m[f]|, i, b);
        }
        assert false;
      }
      assert m[f][i] == Invalid;
      EmptyFits(g, m, f, k, cur + chunk, left - chunk, p + chunk);
    }
  }

  // ---- keeping account through the steps of a mapping ------------------------------------------

  /** A write to entry i of f, a fresh table c included, leaves the other entries alone. */
  lemma {:induction false} WriteKeepsOthers(g: Geometry, m: Memory, m': Memory, f: Frame, k: nat, i: nat)
    requires k < |g.block| && g.IsTree(m, f, k) && i < |m[f]|
    requires f in m' && |m'[f]| == |m[f]| && forall j: nat :: j < |m[f]| && j != i ==> m'[f][j] == m[f][j]
    requires forall c :: c in m && c != f ==> c in m' && m'[c] == m[c]
    ensures OthersKept(g, m, m', f, k, i)
  {
    g.ReachAllocated(m, f, k);
    forall j: nat | j < |m[f]| && j != i
      ensures OtherKept(g, m, m', f, k, j)
    {
      assert g.TreeEntry(m, m[f][j], k);
      assert g.ReachEntry(m, m[f][j], k) <= g.Reach(m, f, k);
    }
  }

  /** A change below entry i of f leaves the other entries alone. */
  lemma {:induction false} BelowKeepsOthers(g: Geometry, s: Store, s': Store, f: Frame, k: nat, i: nat, c: Frame)
    requires 0 < k < |g.block| && g.IsTree(s.mem, f, k) && i < |s.mem[f]| && s.mem[f][i] == Table(c)
    requires g.Keeps(s.mem, s.free, s'.mem, s'.free, c, k - 1)
    requires f in s'.mem && s'.mem[f] == s.mem[f]
    ensures OthersKept(g, s.mem, s'.mem, f, k, i)
  {
    var m, m' := s.mem, s'.mem;
    g.ReachAllocated(m, f, k);
    assert g.ReachEntry(m, m[f][i], k) == g.Reach(m, c, k - 1);
    forall j: nat | j < |m[f]| && j != i
      ensures OtherKept(g, m, m', f, k, j)
    {
      assert j < i ==> g.Apart(m, m[f], k, j, i);
      assert i < j ==> g.Apart(m, m[f], k, i, j);
      assert g.ReachEntry(m, m[f][j], k) <= g.Reach(m, f, k);
      forall x | x in g.ReachEntry(m, m[f][j], k)
        ensures x in m && x in m' && m'[x] == m[x]
      {
        assert g.KeptAt(m, s.free, m', s'.free, c, k - 1, x);
      }
    }
  }

  lemma {:induction false} OthersKeptCompose(g: Geometry, m: Memory, m1: Memory, m2: Memory, f: Frame, k: nat, i: nat)
    requires k < |g.block| && g.IsTree(m, f, k)
    requires OthersKept(g, m, m1, f, k, i) && OthersKept(g, m1, m2, f, k, i)
    ensures OthersKept(g, m, m2, f, k, i)
  {
    forall j: nat | j < |m[f]| && j != i
      ensures OtherKept(g, m, m2, f, k, j)
    {
      assert g.TreeEntry(m, m[f][j], k);
      assert OtherKept(g, m, m1, f, k, j) && OtherKept(g, m1, m2, f, k, j);
      g.SameEntry(m, m1, m[f][j], k);
      assert g.SameWalk(m, m1, m[f][j], k);
    }
  }

  /** The table that a chunk is mapped in, found below the entry or freshly put there. */
  ghost predicate GotTable(g: Geometry, s: Store, s1: Store, f: Frame, k: nat, i: nat, c: Frame) {
    match (s, s1)
    case (Store(m, free), Store(m1, free1)) =>
      && f in m && f in m1 && i < |m[f]| == |m1[f]| && m1[f][i] == Table(c)
      && ((m[f][i] == Table(c) && s1 == s) ||
          (m[f][i] == Invalid && c in m1 && g.Empty(m1, c) && |m1[c]| == g.Entries() && |free1| == |free| - 1))
      && OthersKept(g, m, m1, f, k, i)
  }

  /** Mapping the chunk in that table is possible exactly when mapping it below the entry was. */
  lemma {:induction false} CapacityBelow(g: Geometry, s: Store, s1: Store, f: Frame, k: nat, i: nat, c: Frame, rem: nat, chunk: nat, p: nat)
    requires g.Valid() && 0 < k < |g.block| && GotTable(g, s, s1, f, k, i, c) && c in s1.mem
    requires rem + chunk <= g.block[k] && !Leafable(g, k, rem, chunk, p)
    ensures CanMapEntry(g, s, s.mem[f][i], k, rem, chunk, p) <==> CanMap(g, s1, c, k - 1, rem, chunk, p)
    ensures |s1.free| - NeedTable(g, s1.mem, c, k - 1, rem, chunk, p) == |s.free| - NeedEntry(g, s.mem, s.mem[f][i], k, rem, chunk, p)
  {
    if s.mem[f][i] == Invalid {
      g.BlockStep(k - 1);
      EmptyFits(g, s1.mem, c, k - 1, rem, chunk, p);
    }
  }

  /** From state s, at the beginning of a loop over chunks, to s', where left is still to be mapped
      from cur on: the whole can be mapped if and only if the rest can. */
  ghost predicate OnCourse(g: Geometry, s: Store, s': Store, f: Frame, k: nat, rel: nat, size: nat, paddr: nat, cur: nat, left: nat, p: nat)
    requires k < |g.block|
  {
    && f in s.mem && f in s'.mem
    && (CanMap(g, s, f, k, rel, size, paddr) <==> CanMap(g, s', f, k, cur, left, p))
    && |s'.free| - NeedTable(g, s'.mem, f, k, cur, left, p) == |s.free| - NeedTable(g, s.mem, f, k, rel, size, paddr)
  }

  lemma {:induction false} NextOnCourse(g: Geometry, s: Store, s1: Store, s2: Store, f: Frame, k: nat, rel: nat, size: nat, paddr: nat, cur: nat, left: nat, p: nat,
                     i: nat, rem: nat, chunk: nat)
    requires k < |g.block| && OnCourse(g, s, s1, f, k, rel, size, paddr, cur, left, p)
    requires InSlot(cur, left, g.block[k], rem, chunk) && i == Slot(cur, g.block[k]) < |s1.mem[f]|
    requires CanMapEntry(g, s1, s1.mem[f][i], k, rem, chunk, p)
    requires OthersKept(g, s1.mem, s2.mem, f, k, i)
    requires |s2.free| == |s1.free| - NeedEntry(g, s1.mem, s1.mem[f][i], k, rem, chunk, p)
    ensures OnCourse(g, s, s2, f, k, rel, size, paddr, cur + chunk, left - chunk, p + chunk)
  {
    SlotBounds(cur, g.block[k]);
    RestUnaffected(g, s1.mem, s2.mem, f, k, i, cur + chunk, left - chunk, p + chunk);
  }

  /** How the loop ends: it comes through exactly when the whole can be mapped, and then it has
      taken exactly the pages that this needs. */
  ghost predicate Outcome(g: Geometry, s: Store, s': Store, f: Frame, k: nat, rel: nat, size: nat, paddr: nat, ok: bool)
    requires k < |g.block|
  {
    && f in s.mem
    && (ok <==> CanMap(g, s, f, k, rel, size, paddr))
    && (ok ==> |s'.free| == |s.free| - NeedTable(g, s.mem, f, k, rel, size, paddr))
  }

  lemma {:induction false} Arrived(g: Geometry, s: Store, s': Store, f: Frame, k: nat, rel: nat, size: nat, paddr: nat, cur: nat, p: nat)
    requires k < |g.block| && OnCourse(g, s, s', f, k, rel, size, paddr, cur, 0, p)
    ensures Outcome(g, s, s', f, k, rel, size, paddr, true)
  {
  }

  /** The chunk at cur cannot be mapped, so neither can the whole. */
  lemma {:induction false} OffCourse(g: Geometry, s: Store, s1: Store, s2: Store, f: Frame, k: nat, rel: nat, size: nat, paddr: nat,
                  cur: nat, left: nat, p: nat, i: nat, rem: nat, chunk: nat)
    requires k < |g.block| && OnCourse(g, s, s1, f, k, rel, size, paddr, cur, left, p)
    requires InSlot(cur, left, g.block[k], rem, chunk) && i == Slot(cur, g.block[k]) < |s1.mem[f]|
    requires !CanMapEntry(g, s1, s1.mem[f][i], k, rem, chunk, p)
    ensures Outcome(g, s, s2, f, k, rel, size, paddr, false)
  {
  }

  /** The invariant of the loop of arm64_mmu_map_pt: from s, what lies before cur has been mapped. */
  ghost predicate SoFar(g: Geometry, s: Store, s1: Store, f: Frame, k: nat, rel: nat, size: nat, paddr: nat, attrs: Attrs, cur: nat, left: nat, p: nat)
    requires k < |g.block|
  {
    && cur + left == rel + size && rel <= cur && p == paddr + (cur - rel) && g.PageAligned(cur, p, left)
    && g.Mapped(s, s1, f, k, rel, cur, paddr, attrs)
    && OnCourse(g, s, s1, f, k, rel, size, paddr, cur, left, p)
  }

  /** One more chunk is mapped: what the loop of arm64_mmu_map_pt keeps. */
  lemma {:induction false} NextRound(g: Geometry, s: Store, s1: Store, s2: Store, f: Frame, k: nat, rel: nat, size: nat, paddr: nat, attrs: Attrs,
                  cur: nat, left: nat, p: nat, i: nat, rem: nat, chunk: nat)
    requires g.Valid() && k < |g.block| && SoFar(g, s, s1, f, k, rel, size, paddr, attrs, cur, left, p)
    requires g.Mapped(s1, s2, f, k, cur, cur + chunk, p, attrs)
    requires InSlot(cur, left, g.block[k], rem, chunk) && i == Slot(cur, g.block[k]) && f in s1.mem && i < |s1.mem[f]|
    requires CanMapEntry(g, s1, s1.mem[f][i], k, rem, chunk, p) && g.PageAligned(rem, p, chunk)
    requires OthersKept(g, s1.mem, s2.mem, f, k, i)
    requires |s2.free| == |s1.free| - NeedEntry(g, s1.mem, s1.mem[f][i], k, rem, chunk, p)
    ensures chunk <= left && SoFar(g, s, s2, f, k, rel, size, paddr, attrs, cur + chunk, left - chunk, p + chunk)
  {
    NextOnCourse(g, s, s1, s2, f, k, rel, size, paddr, cur, left, p, i, rem, chunk);
    g.MappedCompose(s, s1, s2, f, k, rel, cur, cur + chunk, paddr, attrs);
    g.NextAligned(cur, p, left, chunk, cur + chunk, p + chunk, left - chunk);
  }

  /** A chunk that was mapped in the table below entry i, seen from the table above. */
  lemma {:induction false} MappedInTable(g: Geometry, s: Store, s1: Store, s2: Store, f: Frame, k: nat, i: nat, c: Frame,
                                         rem: nat, chunk: nat, p: nat, attrs: Attrs)
    requires g.Valid() && 0 < k < |g.block| && g.Sound(s, f, k) && g.Restores(s, s1, f, k)
    requires i < |s.mem[f]| && GotTable(g, s, s1, f, k, i, c) && rem + chunk <= g.block[k]
    requires g.Mapped(s1, s2, c, k - 1, rem, rem + chunk, p, attrs)
    requires !Leafable(g, k, rem, chunk, p) && AllBest(g, s2.mem, c, k - 1, rem, rem + chunk, p)
    ensures g.Mapped(s, s2, f, k, Start(i, g.block[k]) + rem, Start(i, g.block[k]) + (rem + chunk), p, attrs)
    ensures OthersKept(g, s.mem, s2.mem, f, k, i)
    ensures f in s2.mem && AllBest(g, s2.mem, f, k, Start(i, g.block[k]) + rem, Start(i, g.block[k]) + (rem + chunk), p)
  {
    g.MappedBelow(s, s1, s2, f, k, i, c, rem, rem + chunk, p, attrs);
    BelowKeepsOthers(g, s1, s2, f, k, i, c);
    OthersKeptCompose(g, s.mem, s1.mem, s2.mem, f, k, i);
    BestBelow(g, s2.mem, f, k, i, c, rem, rem + chunk, p);
  }
}
