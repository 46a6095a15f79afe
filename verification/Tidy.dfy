/**
 Empty tables (arch/arm64/mmu.c): unmapping releases every table that it leaves empty, and so does a mapping
 that succeeds or is undone, except one that runs out of pages below a table that it has just allocated.
 */
module Tidy {
  import opened Blocks
  import opened Capacity
  import opened Common
  import opened PageTable

  ghost predicate TidyEntry(g: Geometry, m: Memory, e: Pte, k: nat)
    requires k < |g.block|
    decreases k, 0
  {
    e.Table? && k > 0 && e.frame in m ==> !g.Empty(m, e.frame) && TidyTable(g, m, e.frame, k - 1)
  }

  /** No table below f is empty. */
  ghost predicate TidyTable(g: Geometry, m: Memory, f: Frame, k: nat)
    requires k < |g.block| && f in m
    decreases k, 1
  {
    forall i: nat :: i < |m[f]| ==> TidyEntry(g, m, m[f][i], k)
  }

  lemma {:induction false} EmptyIsTidy(g: Geometry, m: Memory, f: Frame, k: nat)
    requires k < |g.block| && g.Empty(m, f)
    ensures TidyTable(g, m, f, k)
  {
    forall i: nat | i < |m[f]|
      ensures TidyEntry(g, m, m[f][i], k)
    {
      assert m[f][i] == Invalid;
    }
  }

  // ---- what it is good for --------------------------------------------------------------------------

  /** Every table of a tidy tree translates something. */
  lemma {:induction false} TidyTranslates(g: Geometry, m: Memory, f: Frame, k: nat) returns (v: nat)
    requires g.Valid() && k < |g.block| && g.IsTree(m, f, k) && TidyTable(g, m, f, k) && !g.Empty(m, f)
    ensures v < Start(|m[f]|, g.block[k]) && g.Lookup(m, f, k, v).Some?
    decreases k
  {
    var b := g.block[k];
    var i: nat :| i < |m[f]| && m[f][i] != Invalid;
    assert g.TreeEntry(m, m[f][i], k) && TidyEntry(g, m, m[f][i], k);
    StartMonotone(i, |m[f]|, b);
    var low: nat := 0;
    if m[f][i].Table? {
      low := TidyTranslates(g, m, m[f][i].frame, k - 1);
      g.BlockStep(k - 1);
    }
    v := Start(i, b) + low;
    SlotUnique(v, i, b);
  }

  lemma {:induction false} NoTableEntryInTheWay(g: Geometry, m: Memory, e: Pte, k: nat, rem: nat, chunk: nat, p: nat)
    requires g.Valid() && k < |g.block| && g.TreeEntry(m, e, k) && TidyEntry(g, m, e, k)
    requires chunk > 0 && rem + chunk <= g.block[k] && UntranslatedEntry(g, m, e, k, rem, chunk)
    ensures NoTableEntry(g, m, e, k, rem, chunk, p)
    decreases k, 0, 0
  {
    if e.Table? {
      var c, l := e.frame, k - 1;
      g.BlockStep(l);
      assert forall v: nat :: g.LookupEntry(m, e, k, v) == g.Lookup(m, c, l, v);
      var v := TidyTranslates(g, m, c, l);
      assert g.LookupEntry(m, e, k, v).Some?;
      NoTableInTheWay(g, m, c, l, rem, chunk, p);
    }
  }

  lemma {:induction false} NoTableInTheWay(g: Geometry, m: Memory, f: Frame, k: nat, cur: nat, left: nat, p: nat)
    requires g.Valid() && k < |g.block| && g.IsTree(m, f, k) && TidyTable(g, m, f, k)
    requires cur + left <= Start(|m[f]|, g.block[k]) && Untranslated(g, m, f, k, cur, left)
    ensures NoTable(g, m, f, k, cur, left, p)
    decreases k, 1, left
  {
    if left > 0 {
      var b := g.block[k];
      var rem := Rem(cur, b);
      var chunk := Chunk(left, rem, b);
      var i := Slot(cur, b);
      InTable(cur, left, b, |m[f]|);
      assert g.TreeEntry(m, m[f][i], k) && TidyEntry(g, m, m[f][i], k);
      SlotUntranslated(g, m, f, k, i, cur, rem, chunk);
      NoTableEntryInTheWay(g, m, m[f][i], k, rem, chunk, p);
      NoTableInTheWay(g, m, f, k, cur + chunk, left - chunk, p + chunk);
    }
  }

  /** In a tidy tree nothing but a translation stands in the way of a mapping. */
  lemma {:induction false} TidyFitsIff(g: Geometry, m: Memory, f: Frame, k: nat, cur: nat, left: nat, p: nat)
    requires g.Valid() && k < |g.block| && g.IsTree(m, f, k) && TidyTable(g, m, f, k)
    requires cur + left <= Start(|m[f]|, g.block[k])
    ensures FitsTable(g, m, f, k, cur, left, p) <==> Untranslated(g, m, f, k, cur, left)
  {
    FitsIff(g, m, f, k, cur, left, p);
    if Untranslated(g, m, f, k, cur, left) {
      NoTableInTheWay(g, m, f, k, cur, left, p);
    }
  }

  // ---- changes of one entry -------------------------------------------------------------------------

  lemma {:induction false} AgreeingTidy(g: Geometry, m: Memory, m': Memory, e: Pte, k: nat)
    requires k < |g.block| && Agree(g, m, m', e, k)
    ensures TidyEntry(g, m', e, k) == TidyEntry(g, m, e, k)
    decreases k
  {
    if e.Table? && k > 0 {
      var c := e.frame;
      assert c in g.Reach(m, c, k - 1);
      forall i: nat | i < |m[c]|
        ensures TidyEntry(g, m', m[c][i], k - 1) == TidyEntry(g, m, m[c][i], k - 1)
      {
        assert g.ReachEntry(m, m[c][i], k - 1) <= g.Reach(m, c, k - 1);
        AgreeingTidy(g, m, m', m[c][i], k - 1);
      }
    }
  }

  lemma {:induction false} OthersTidy(g: Geometry, m: Memory, m': Memory, f: Frame, k: nat, i: nat)
    requires k < |g.block| && OthersKept(g, m, m', f, k, i) && i < |m[f]| && TidyTable(g, m, f, k)
    ensures TidyTable(g, m', f, k) <==> TidyEntry(g, m', m'[f][i], k)
  {
    forall j: nat | j < |m[f]| && j != i
      ensures TidyEntry(g, m', m'[f][j], k)
    {
      assert OtherKept(g, m, m', f, k, j) && TidyEntry(g, m, m[f][j], k);
      AgreeingTidy(g, m, m', m[f][j], k);
    }
  }

  // ---- unmapping ------------------------------------------------------------------------------------

  /** The entries of f that begin at hi or beyond are as before, and so is all that they lead to. */
  ghost predicate BeyondKept(g: Geometry, m: Memory, m': Memory, f: Frame, k: nat, hi: nat)
    requires k < |g.block|
  {
    && f in m && f in m' && |m'[f]| == |m[f]|
    && forall j: nat :: j < |m[f]| && Start(j, g.block[k]) >= hi ==> OtherKept(g, m, m', f, k, j)
  }

  /** Unmapping up to hi leaves no empty table behind, and leaves alone what lies beyond. */
  ghost predicate UnmapsTidily(g: Geometry, m: Memory, m': Memory, f: Frame, k: nat, hi: nat)
    requires k < |g.block|
  {
    BeyondKept(g, m, m', f, k, hi) && (TidyTable(g, m, f, k) ==> TidyTable(g, m', f, k))
  }

  lemma {:induction false} NothingUnmapped(g: Geometry, m: Memory, f: Frame, k: nat, hi: nat)
    requires k < |g.block| && g.IsTree(m, f, k)
    ensures UnmapsTidily(g, m, m, f, k, hi)
  {
    g.ReachAllocated(m, f, k);
    forall j: nat | j < |m[f]|
      ensures OtherKept(g, m, m, f, k, j)
    {
      assert g.ReachEntry(m, m[f][j], k) <= g.Reach(m, f, k);
    }
  }

  /** One more chunk, which ends at hi in entry i. */
  lemma {:induction false} NextUnmapped(g: Geometry, m: Memory, m1: Memory, m2: Memory, f: Frame, k: nat, cur: nat, i: nat, hi: nat)
    requires k < |g.block| && g.IsTree(m, f, k) && UnmapsTidily(g, m, m1, f, k, cur) && i < |m[f]|
    requires Start(i, g.block[k]) < hi && cur <= hi && OthersKept(g, m1, m2, f, k, i)
    requires TidyTable(g, m1, f, k) ==> TidyTable(g, m2, f, k)
    ensures UnmapsTidily(g, m, m2, f, k, hi)
  {
    forall j: nat | j < |m[f]| && Start(j, g.block[k]) >= hi
      ensures OtherKept(g, m, m2, f, k, j)
    {
      assert g.TreeEntry(m, m[f][j], k);
      assert OtherKept(g, m, m1, f, k, j) && OtherKept(g, m1, m2, f, k, j);
      g.SameEntry(m, m1, m[f][j], k);
      assert g.SameWalk(m, m1, m[f][j], k);
    }
  }

  /** One round of the loop of arm64_mmu_unmap_pt, from s1 to s2, after the rounds from s to s1. */
  lemma {:induction false} UnmapRound(g: Geometry, s: Store, s1: Store, s2: Store, f: Frame, k: nat, rel: nat, end: nat, cur: nat, left: nat, next: nat,
                   i: nat, rem: nat, chunk: nat)
    requires g.Valid() && k < |g.block| && g.Sound(s, f, k) && end <= Start(|s.mem[f]|, g.block[k])
    requires g.UnmappedSoFar(s, s1, f, k, rel, end, cur, left, next) && UnmapsTidily(g, s.mem, s1.mem, f, k, cur)
    requires cur == Start(i, g.block[k]) + rem && 0 < chunk <= left && rem + chunk <= g.block[k] && i < |s1.mem[f]|
    requires chunk < left ==> cur + chunk == Start(i + 1, g.block[k])
    requires cur == Start(next, g.block[k]) ==> rem == 0
    requires g.Unmaps(s1, s2, f, k, cur, cur + chunk) && (s2.mem[f] == s1.mem[f] || s2.mem[f] == s1.mem[f][i := Invalid])
    requires chunk == g.block[k] ==> s2.mem[f][i] == Invalid
    requires OthersKept(g, s1.mem, s2.mem, f, k, i) && (TidyTable(g, s1.mem, f, k) ==> TidyTable(g, s2.mem, f, k))
    ensures g.UnmappedSoFar(s, s2, f, k, rel, end, cur + chunk, left - chunk, i + 1)
    ensures UnmapsTidily(g, s.mem, s2.mem, f, k, cur + chunk)
  {
    g.UnmapsCompose(s, s1, s2, f, k, rel, cur, cur + chunk);
    g.OneMoreChunk(s1.mem, s2.mem, f, k, rel, cur, i, rem, chunk);
    NextUnmapped(g, s.mem, s1.mem, s2.mem, f, k, cur, i, cur + chunk);
  }

  lemma {:induction false} ReleaseKeepsOthers(g: Geometry, s: Store, f: Frame, k: nat, i: nat, c: Frame)
    requires 0 < k < |g.block| && g.IsTree(s.mem, f, k) && i < |s.mem[f]| && s.mem[f][i] == Table(c)
    ensures OthersKept(g, s.mem, g.Released(s, f, i, c).mem, f, k, i)
  {
    var m, m' := s.mem, g.Released(s, f, i, c).mem;
    g.ReachAllocated(m, f, k);
    assert c in g.ReachEntry(m, m[f][i], k) && g.TreeEntry(m, m[f][i], k) && f !in g.ReachEntry(m, m[f][i], k);
    forall j: nat | j < |m[f]| && j != i
      ensures OtherKept(g, m, m', f, k, j)
    {
      assert j < i ==> g.Apart(m, m[f], k, j, i);
      assert i < j ==> g.Apart(m, m[f], k, i, j);
      assert g.TreeEntry(m, m[f][j], k);
      assert g.ReachEntry(m, m[f][j], k) <= g.Reach(m, f, k);
    }
  }

  /** Unmapping in the table below entry i, which is released if it is left empty. */
  lemma {:induction false} UnmapBelowTidy(g: Geometry, s: Store, s1: Store, f: Frame, k: nat, i: nat, c: Frame, lo: nat, hi: nat)
    requires g.Valid() && 0 < k < |g.block| && g.Sound(s, f, k) && i < |s.mem[f]| && s.mem[f][i] == Table(c)
    requires c in s.mem && g.Unmaps(s, s1, c, k - 1, lo, hi)
    requires TidyTable(g, s.mem, c, k - 1) ==> TidyTable(g, s1.mem, c, k - 1)
    ensures f in s1.mem && i < |s1.mem[f]| && OthersKept(g, s.mem, g.Released(s1, f, i, c).mem, f, k, i)
    ensures TidyTable(g, s.mem, f, k) ==> TidyTable(g, g.Released(s1, f, i, c).mem, f, k)
  {
    assert g.TreeEntry(s.mem, s.mem[f][i], k);
    g.ChildChanged(s.mem, s.free, s1.mem, s1.free, f, k, i);
    BelowKeepsOthers(g, s, s1, f, k, i, c);
    ReleaseKeepsOthers(g, s1, f, k, i, c);
    var m2 := g.Released(s1, f, i, c).mem;
    OthersKeptCompose(g, s.mem, s1.mem, m2, f, k, i);
    if TidyTable(g, s.mem, f, k) {
      assert TidyEntry(g, s.mem, s.mem[f][i], k);
      assert TidyEntry(g, m2, m2[f][i], k);
      OthersTidy(g, s.mem, m2, f, k, i);
    }
  }

  lemma {:induction false} UnmapLeafTidy(g: Geometry, m: Memory, m': Memory, f: Frame, k: nat, i: nat)
    requires k < |g.block| && g.IsTree(m, f, k) && i < |m[f]| && m' == m[f := m[f][i := Invalid]]
    ensures OthersKept(g, m, m', f, k, i) && (TidyTable(g, m, f, k) ==> TidyTable(g, m', f, k))
  {
    WriteKeepsOthers(g, m, m', f, k, i);
    if TidyTable(g, m, f, k) {
      OthersTidy(g, m, m', f, k, i);
    }
  }

  // ---- mapping --------------------------------------------------------------------------------------

  /** Mapping the chunk in the entry, with n pages free, fails and leaves a table behind: one page is free for a
      table below the entry, but not all that are needed below that table. */
  ghost predicate LeavesEntry(g: Geometry, m: Memory, n: int, e: Pte, k: nat, rem: nat, chunk: nat, p: nat)
    requires k < |g.block|
    decreases k, 0, 0
  {
    && !Leafable(g, k, rem, chunk, p) && k > 0
    && match e
       case Invalid => 0 < n < NeedEntry(g, m, e, k, rem, chunk, p)
       case Table(c) => c in m && LeavesTable(g, m, n, c, k - 1, rem, chunk, p)
       case Block(_, _) => false
       case Page(_, _) => false
  }

  /** So does mapping [cur, cur + left) in table f: it is the first chunk that cannot be mapped that decides. */
  ghost predicate LeavesTable(g: Geometry, m: Memory, n: int, f: Frame, k: nat, cur: nat, left: nat, p: nat)
    requires k < |g.block| && f in m
    decreases k, 1, left
  {
    left > 0 &&
    var rem := Rem(cur, g.block[k]);
    var chunk := Chunk(left, rem, g.block[k]);
    var i := Slot(cur, g.block[k]);
    i < |m[f]| &&
    var need := NeedEntry(g, m, m[f][i], k, rem, chunk, p);
    if FitsEntry(g, m, m[f][i], k, rem, chunk, p) && need <= n then
      LeavesTable(g, m, n - need, f, k, cur + chunk, left - chunk, p + chunk)
    else
      LeavesEntry(g, m, n, m[f][i], k, rem, chunk, p)
  }

  lemma {:induction false} AgreeingLeavesEntry(g: Geometry, m: Memory, m': Memory, n: int, e: Pte, k: nat, rem: nat, chunk: nat, p: nat)
    requires k < |g.block| && Agree(g, m, m', e, k)
    ensures LeavesEntry(g, m', n, e, k, rem, chunk, p) == LeavesEntry(g, m, n, e, k, rem, chunk, p)
    decreases k, 0, 0
  {
    AgreeingEntry(g, m, m', e, k, rem, chunk, p);
    if e.Table? && k > 0 {
      assert e.frame in g.Reach(m, e.frame, k - 1);
      AgreeingLeaves(g, m, m', n, e.frame, k - 1, rem, chunk, p);
    }
  }

  lemma {:induction false} AgreeingLeaves(g: Geometry, m: Memory, m': Memory, n: int, f: Frame, k: nat, cur: nat, left: nat, p: nat)
    requires k < |g.block| && Agree(g, m, m', Table(f), k + 1) && f in m && f in m' && m'[f] == m[f]
    ensures LeavesTable(g, m', n, f, k, cur, left, p) == LeavesTable(g, m, n, f, k, cur, left, p)
    decreases k, 1, left
  {
    if left > 0 {
      var rem := Rem(cur, g.block[k]);
      var chunk := Chunk(left, rem, g.block[k]);
      var i := Slot(cur, g.block[k]);
      if i < |m[f]| {
        assert g.ReachEntry(m, m[f][i], k) <= g.Reach(m, f, k);
        AgreeingEntry(g, m, m', m[f][i], k, rem, chunk, p);
        AgreeingLeavesEntry(g, m, m', n, m[f][i], k, rem, chunk, p);
        AgreeingLeaves(g, m, m', n - NeedEntry(g, m, m[f][i], k, rem, chunk, p), f, k, cur + chunk, left - chunk, p + chunk);
      }
    }
  }

  /** What lies beyond entry i is judged the same before and after a change of that entry. */
  lemma {:induction false} RestLeaves(g: Geometry, m: Memory, m': Memory, n: int, f: Frame, k: nat, i: nat, cur: nat, left: nat, p: nat)
    requires k < |g.block| && OthersKept(g, m, m', f, k, i)
    requires left > 0 ==> Start(i + 1, g.block[k]) <= cur
    ensures LeavesTable(g, m', n, f, k, cur, left, p) == LeavesTable(g, m, n, f, k, cur, left, p)
    decreases left
  {
    if left > 0 {
      var b := g.block[k];
      var rem := Rem(cur, b);
      var chunk := Chunk(left, rem, b);
      var j := Slot(cur, b);
      Beyond(i, cur, b);
      if j < |m[f]| {
        assert OtherKept(g, m, m', f, k, j);
        AgreeingEntry(g, m, m', m[f][j], k, rem, chunk, p);
        AgreeingLeavesEntry(g, m, m', n, m[f][j], k, rem, chunk, p);
        RestLeaves(g, m, m', n - NeedEntry(g, m, m[f][j], k, rem, chunk, p), f, k, i, cur + chunk, left - chunk, p + chunk);
      }
    }
  }

  lemma {:induction false} Beyond(i: nat, cur: nat, b: pos)
    requires Start(i + 1, b) <= cur
    ensures Slot(cur, b) > i
  {
    SlotBounds(cur, b);
    if Slot(cur, b) < i + 1 {
      StartMonotone(Slot(cur, b), i + 1, b);
    }
  }

  /** A mapping that succeeds leaves none. */
  lemma {:induction false} RoomLeavesNone(g: Geometry, m: Memory, n: int, f: Frame, k: nat, cur: nat, left: nat, p: nat)
    requires k < |g.block| && f in m && FitsTable(g, m, f, k, cur, left, p) && NeedTable(g, m, f, k, cur, left, p) <= n
    ensures !LeavesTable(g, m, n, f, k, cur, left, p)
    decreases left
  {
    if left > 0 {
      var rem := Rem(cur, g.block[k]);
      var chunk := Chunk(left, rem, g.block[k]);
      var need := NeedEntry(g, m, m[f][Slot(cur, g.block[k])], k, rem, chunk, p);
      RoomLeavesNone(g, m, n - need, f, k, cur + chunk, left - chunk, p + chunk);
    }
  }

  /** What mapping the chunk in entry i, from s to s', does to that entry: if it fails, it leaves an empty table
      in it exactly as LeavesEntry says. */
  ghost predicate ChunkTidy(g: Geometry, s: Store, s': Store, f: Frame, k: nat, i: nat, rem: nat, chunk: nat, p: nat, ok: bool)
    requires k < |g.block|
  {
    && OthersKept(g, s.mem, s'.mem, f, k, i) && i < |s.mem[f]|
    && (TidyTable(g, s.mem, f, k) ==>
         (TidyEntry(g, s'.mem, s'.mem[f][i], k) <==> ok || !LeavesEntry(g, s.mem, |s.free|, s.mem[f][i], k, rem, chunk, p)))
  }

  /** The same of a range of a table. */
  ghost predicate RangeTidy(g: Geometry, s: Store, s': Store, f: Frame, k: nat, rel: nat, size: nat, p: nat)
    requires k < |g.block|
  {
    && f in s.mem && f in s'.mem
    && (TidyTable(g, s.mem, f, k) ==> (TidyTable(g, s'.mem, f, k) <==> !LeavesTable(g, s.mem, |s.free|, f, k, rel, size, p)))
  }

  /** No table could be had. */
  lemma {:induction false} NoTableGot(g: Geometry, s: Store, f: Frame, k: nat, i: nat, rem: nat, chunk: nat, p: nat)
    requires k < |g.block| && g.Sound(s, f, k) && i < |s.mem[f]|
    requires s.mem[f][i].Block? || s.mem[f][i].Page? || (s.mem[f][i] == Invalid && s.free == {}) || Leafable(g, k, rem, chunk, p)
    ensures ChunkTidy(g, s, s, f, k, i, rem, chunk, p, false)
  {
    WriteKeepsOthers(g, s.mem, s.mem, f, k, i);
  }

  lemma {:induction false} LeafTidy(g: Geometry, s: Store, s': Store, f: Frame, k: nat, i: nat, rem: nat, chunk: nat, p: nat, e: Pte)
    requires k < |g.block| && g.Sound(s, f, k) && i < |s.mem[f]| && !e.Table?
    requires s'.mem == s.mem[f := s.mem[f][i := e]]
    ensures ChunkTidy(g, s, s', f, k, i, rem, chunk, p, true)
  {
    WriteKeepsOthers(g, s.mem, s'.mem, f, k, i);
  }

  /** Translated addresses show that a table is not empty. */
  lemma {:induction false} TranslatesSo(g: Geometry, m: Memory, f: Frame, k: nat, v: nat)
    requires k < |g.block| && f in m && g.Lookup(m, f, k, v).Some?
    ensures !g.Empty(m, f)
  {
    if g.Empty(m, f) {
      g.EmptyTable(m, f, k);
      assert false;
    }
  }

  /** The chunk was mapped in the table c below entry i, from s1 to s2. */
  lemma {:induction false} MappedBelowTidy(g: Geometry, s: Store, s1: Store, s2: Store, f: Frame, k: nat, i: nat, c: Frame, rem: nat, chunk: nat, p: nat, attrs: Attrs)
    requires g.Valid() && 0 < k < |g.block| && g.Sound(s, f, k) && g.Sound(s1, f, k) && i < |s.mem[f]|
    requires GotTable(g, s, s1, f, k, i, c) && c in s1.mem && g.Mapped(s1, s2, c, k - 1, rem, rem + chunk, p, attrs) && chunk > 0
    requires RangeTidy(g, s1, s2, c, k - 1, rem, chunk, p) && CanMap(g, s1, c, k - 1, rem, chunk, p)
    ensures ChunkTidy(g, s, s2, f, k, i, rem, chunk, p, true)
  {
    RoomLeavesNone(g, s1.mem, |s1.free|, c, k - 1, rem, chunk, p);
    assert g.TreeEntry(s1.mem, s1.mem[f][i], k);
    g.ChildChanged(s1.mem, s1.free, s2.mem, s2.free, f, k, i);
    BelowKeepsOthers(g, s1, s2, f, k, i, c);
    OthersKeptCompose(g, s.mem, s1.mem, s2.mem, f, k, i);
    assert g.Lookup(s2.mem, c, k - 1, rem).Some?;
    TranslatesSo(g, s2.mem, c, k - 1, rem);
    if TidyTable(g, s.mem, f, k) {
      ChildTidy(g, s, s1, f, k, i, c);
    }
  }

  lemma {:induction false} ChildTidy(g: Geometry, s: Store, s1: Store, f: Frame, k: nat, i: nat, c: Frame)
    requires 0 < k < |g.block| && GotTable(g, s, s1, f, k, i, c) && c in s1.mem && TidyTable(g, s.mem, f, k)
    ensures TidyTable(g, s1.mem, c, k - 1)
  {
    if s.mem[f][i] == Invalid {
      EmptyIsTidy(g, s1.mem, c, k - 1);
    } else {
      assert TidyEntry(g, s.mem, s.mem[f][i], k);
    }
  }

  /** A fresh table in which a mapping failed is still empty, or leads to one that is. */
  lemma {:induction false} FreshFailed(g: Geometry, s1: Store, s2: Store, c: Frame, k: nat)
    requires g.Valid() && k < |g.block| && g.Empty(s1.mem, c) && g.Restores(s1, s2, c, k)
    ensures g.Empty(s2.mem, c) || !TidyTable(g, s2.mem, c, k)
  {
    if !g.Empty(s2.mem, c) && TidyTable(g, s2.mem, c, k) {
      var v := TidyTranslates(g, s2.mem, c, k);
      g.EmptyTable(s1.mem, c, k);
      assert false;
    }
  }

  /** A table that was there before is not empty after a failure. */
  lemma {:induction false} FoundFailed(g: Geometry, s1: Store, s2: Store, c: Frame, k: nat)
    requires g.Valid() && k < |g.block| && g.Sound(s1, c, k) && TidyTable(g, s1.mem, c, k) && !g.Empty(s1.mem, c)
    requires g.Restores(s1, s2, c, k)
    ensures !g.Empty(s2.mem, c)
  {
    var v := TidyTranslates(g, s1.mem, c, k);
    TranslatesSo(g, s2.mem, c, k, v);
  }

  /** It failed there. */
  lemma {:induction false} FailedBelowTidy(g: Geometry, s: Store, s1: Store, s2: Store, f: Frame, k: nat, i: nat, c: Frame, rem: nat, chunk: nat, p: nat)
    requires g.Valid() && 0 < k < |g.block| && g.Sound(s, f, k) && g.Sound(s1, f, k) && i < |s.mem[f]|
    requires GotTable(g, s, s1, f, k, i, c) && c in s1.mem && g.Restores(s1, s2, c, k - 1) && g.Sound(s1, c, k - 1)
    requires !Leafable(g, k, rem, chunk, p) && !CanMapEntry(g, s, s.mem[f][i], k, rem, chunk, p)
    requires s.mem[f][i] == Invalid ==> |s.free| > 0
    requires RangeTidy(g, s1, s2, c, k - 1, rem, chunk, p)
    ensures ChunkTidy(g, s, s2, f, k, i, rem, chunk, p, false)
  {
    assert g.TreeEntry(s1.mem, s1.mem[f][i], k);
    g.ChildChanged(s1.mem, s1.free, s2.mem, s2.free, f, k, i);
    BelowKeepsOthers(g, s1, s2, f, k, i, c);
    OthersKeptCompose(g, s.mem, s1.mem, s2.mem, f, k, i);
    if TidyTable(g, s.mem, f, k) {
      ChildTidy(g, s, s1, f, k, i, c);
      if s.mem[f][i] == Invalid {
        FreshFailed(g, s1, s2, c, k - 1);
      } else {
        assert TidyEntry(g, s.mem, s.mem[f][i], k);
        FoundFailed(g, s1, s2, c, k - 1);
      }
    }
  }

  // ---- the loop of a mapping ------------------------------------------------------------------------

  /** From s to s1 the mapping has come to cur without leaving a table, and whether it leaves one is decided by
      the rest. */
  ghost predicate TidySoFar(g: Geometry, s: Store, s1: Store, f: Frame, k: nat, rel: nat, size: nat, paddr: nat, cur: nat, left: nat, p: nat)
    requires k < |g.block|
  {
    && f in s.mem && f in s1.mem
    && (TidyTable(g, s.mem, f, k) ==> TidyTable(g, s1.mem, f, k))
    && LeavesTable(g, s.mem, |s.free|, f, k, rel, size, paddr) == LeavesTable(g, s1.mem, |s1.free|, f, k, cur, left, p)
    && (left == 0 || cur == rel || Rem(cur, g.block[k]) == 0)
  }

  lemma {:induction false} NothingTidy(g: Geometry, s: Store, f: Frame, k: nat, rel: nat, size: nat, paddr: nat)
    requires k < |g.block| && f in s.mem
    ensures TidySoFar(g, s, s, f, k, rel, size, paddr, rel, size, paddr)
  {
  }

  lemma {:induction false} LeavesStep(g: Geometry, m: Memory, n: int, f: Frame, k: nat, cur: nat, left: nat, p: nat, i: nat, rem: nat, chunk: nat)
    requires k < |g.block| && f in m && InSlot(cur, left, g.block[k], rem, chunk) && i == Slot(cur, g.block[k]) < |m[f]|
    requires FitsEntry(g, m, m[f][i], k, rem, chunk, p) && NeedEntry(g, m, m[f][i], k, rem, chunk, p) <= n
    ensures LeavesTable(g, m, n, f, k, cur, left, p) ==
      LeavesTable(g, m, n - NeedEntry(g, m, m[f][i], k, rem, chunk, p), f, k, cur + chunk, left - chunk, p + chunk)
  {
  }

  /** A chunk that is not the last ends with its block. */
  lemma {:induction false} ChunkEnds(cur: nat, left: nat, b: pos, rem: nat, chunk: nat)
    requires InSlot(cur, left, b, rem, chunk) && chunk < left
    ensures Rem(cur + chunk, b) == 0 && Start(Slot(cur, b) + 1, b) == cur + chunk
  {
    SlotBounds(cur, b);
    SlotUnique(cur + chunk, Slot(cur, b) + 1, b);
  }

  lemma {:induction false} NextTidy(g: Geometry, s: Store, s1: Store, s2: Store, f: Frame, k: nat, rel: nat, size: nat, paddr: nat,
                 cur: nat, left: nat, p: nat, i: nat, rem: nat, chunk: nat)
    requires k < |g.block| && TidySoFar(g, s, s1, f, k, rel, size, paddr, cur, left, p)
    requires InSlot(cur, left, g.block[k], rem, chunk) && i == Slot(cur, g.block[k]) < |s1.mem[f]|
    requires CanMapEntry(g, s1, s1.mem[f][i], k, rem, chunk, p) && ChunkTidy(g, s1, s2, f, k, i, rem, chunk, p, true)
    requires |s2.free| == |s1.free| - NeedEntry(g, s1.mem, s1.mem[f][i], k, rem, chunk, p)
    ensures TidySoFar(g, s, s2, f, k, rel, size, paddr, cur + chunk, left - chunk, p + chunk)
  {
    LeavesStep(g, s1.mem, |s1.free|, f, k, cur, left, p, i, rem, chunk);
    if chunk < left {
      ChunkEnds(cur, left, g.block[k], rem, chunk);
    }
    RestLeaves(g, s1.mem, s2.mem, |s2.free|, f, k, i, cur + chunk, left - chunk, p + chunk);
    if TidyTable(g, s1.mem, f, k) {
      OthersTidy(g, s1.mem, s2.mem, f, k, i);
    }
  }

  /** An entry of f that begins at cur or beyond, or any if nothing lies before cur, leads to an empty table. */
  ghost predicate LeftBehind(g: Geometry, m: Memory, f: Frame, k: nat, rel: nat, cur: nat)
    requires k < |g.block| && f in m
  {
    exists j: nat :: j < |m[f]| && (Start(j, g.block[k]) >= cur || cur == rel) && !TidyEntry(g, m, m[f][j], k)
  }

  /** How the loop ends at a chunk that fails. */
  ghost predicate FailedTidy(g: Geometry, s: Store, s': Store, f: Frame, k: nat, rel: nat, size: nat, paddr: nat, cur: nat)
    requires k < |g.block|
  {
    && f in s.mem && f in s'.mem
    && (TidyTable(g, s.mem, f, k) ==>
         if LeavesTable(g, s.mem, |s.free|, f, k, rel, size, paddr) then LeftBehind(g, s'.mem, f, k, rel, cur)
         else TidyTable(g, s'.mem, f, k))
  }

  lemma {:induction false} LastTidy(g: Geometry, s: Store, s1: Store, s2: Store, f: Frame, k: nat, rel: nat, size: nat, paddr: nat,
                 cur: nat, left: nat, p: nat, i: nat, rem: nat, chunk: nat)
    requires k < |g.block| && TidySoFar(g, s, s1, f, k, rel, size, paddr, cur, left, p)
    requires InSlot(cur, left, g.block[k], rem, chunk) && i == Slot(cur, g.block[k]) < |s1.mem[f]|
    requires !CanMapEntry(g, s1, s1.mem[f][i], k, rem, chunk, p) && ChunkTidy(g, s1, s2, f, k, i, rem, chunk, p, false)
    ensures FailedTidy(g, s, s2, f, k, rel, size, paddr, cur)
  {
    SlotBounds(cur, g.block[k]);
    if TidyTable(g, s.mem, f, k) {
      OthersTidy(g, s1.mem, s2.mem, f, k, i);
    }
  }

  /** Undoing what lies before cur does not touch the table left behind. */
  lemma {:induction false} UndoneTidy(g: Geometry, s: Store, s2: Store, s3: Store, f: Frame, k: nat, rel: nat, size: nat, paddr: nat, cur: nat)
    requires k < |g.block| && FailedTidy(g, s, s2, f, k, rel, size, paddr, cur)
    requires UnmapsTidily(g, s2.mem, s3.mem, f, k, cur) && (cur == rel ==> s3 == s2)
    ensures RangeTidy(g, s, s3, f, k, rel, size, paddr)
  {
    if TidyTable(g, s.mem, f, k) && LeavesTable(g, s.mem, |s.free|, f, k, rel, size, paddr) {
      var j: nat :| j < |s2.mem[f]| && (Start(j, g.block[k]) >= cur || cur == rel) && !TidyEntry(g, s2.mem, s2.mem[f][j], k);
      if s3 != s2 {
        assert OtherKept(g, s2.mem, s3.mem, f, k, j);
        AgreeingTidy(g, s2.mem, s3.mem, s2.mem[f][j], k);
        assert !TidyEntry(g, s3.mem, s3.mem[f][j], k);
      }
    }
  }
}
