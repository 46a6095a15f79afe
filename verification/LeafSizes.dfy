/**
 Which block or page a mapping uses (arch/arm64/mmu.c): for each address the largest that its range and the
 alignment of its physical address allow.
 */
module LeafSizes {
  import opened Blocks
  import opened Common
  import opened PageTable

  /** The block of level j at address v lies in [lo, hi), which is mapped to p onwards; its physical address
      is aligned as it is itself; and the level has leaves. */
  predicate FitsAt(g: Geometry, j: nat, v: nat, lo: nat, hi: nat, p: nat)
    requires j < |g.block|
  {
    var b := g.block[j];
    var start: int := v - Rem(v, b);
    lo <= start && start + b <= hi && Rem(p + (start - lo), b) == 0 && g.IndexShift(j) <= 30
  }

  /** The same with quotient and remainder written out. */
  lemma FitsMeans(g: Geometry, j: nat, v: nat, lo: nat, hi: nat, p: nat)
    requires j < |g.block|
    ensures var b: int := g.block[j]; var start := v - v % b;
      FitsAt(g, j, v, lo, hi, p) <==> lo <= start && start + b <= hi && (p + (start - lo)) % b == 0 && g.IndexShift(j) <= 30
  {
    var b := g.block[j];
    SlotIsQuotient(v, b);
    if lo <= v - Rem(v, b) {
      SlotIsQuotient(p + (v - Rem(v, b) - lo), b);
    }
  }

  /** The largest level up to k whose block fits. */
  function Best(g: Geometry, k: nat, v: nat, lo: nat, hi: nat, p: nat): (j: nat)
    requires k < |g.block|
    ensures j <= k
  {
    if k == 0 || FitsAt(g, k, v, lo, hi, p) then k else Best(g, k - 1, v, lo, hi, p)
  }

  lemma {:induction false} BestIsLargest(g: Geometry, k: nat, v: nat, lo: nat, hi: nat, p: nat, i: nat)
    requires k < |g.block| && i <= k
    ensures Best(g, k, v, lo, hi, p) < i ==> !FitsAt(g, i, v, lo, hi, p)
    decreases k
  {
    if k > 0 && i < k {
      BestIsLargest(g, k - 1, v, lo, hi, p, i);
    }
  }

  /** The leaf found at v is that block. */
  ghost predicate IsBest(g: Geometry, h: Option<Leaf>, k: nat, v: nat, lo: nat, hi: nat, p: nat)
    requires k < |g.block|
  {
    var j := Best(g, k, v, lo, hi, p);
    h.Some? && h.value.size == g.block[j] && h.value.base == v - Rem(v, g.block[j]) && FitsAt(g, j, v, lo, hi, p)
  }

  ghost predicate AllBest(g: Geometry, m: Memory, f: Frame, k: nat, lo: nat, hi: nat, p: nat)
    requires k < |g.block| && f in m
  {
    forall v: nat {:trigger BestAt(g, m, f, k, lo, hi, p, v)} :: lo <= v < hi ==> BestAt(g, m, f, k, lo, hi, p, v)
  }

  ghost predicate BestAt(g: Geometry, m: Memory, f: Frame, k: nat, lo: nat, hi: nat, p: nat, v: nat)
    requires k < |g.block| && f in m
  {
    IsBest(g, g.Lookup(m, f, k, v), k, v, lo, hi, p)
  }

  // ---- moving and joining ranges ------------------------------------------------------------------

  lemma {:induction false} RemShift(x: nat, y: nat, b: pos)
    requires Aligned(x, b)
    ensures Rem(x + y, b) == Rem(y, b)
    decreases x
  {
    if x >= b {
      RemShift(x - b, y, b);
      assert Rem(x + y, b) == Rem(x + y - b, b);
    }
  }

  lemma {:induction false} BlockMultiple(g: Geometry, j: nat, k: nat)
    requires g.Valid() && j <= k < |g.block|
    ensures Aligned(g.block[k], g.block[j])
    decreases k
  {
    if j < k {
      BlockMultiple(g, j, k - 1);
      g.BlockStep(k - 1);
      AlignedStart(g.Entries(), g.block[k - 1], g.block[j]);
    }
  }

  lemma SlotMultiple(g: Geometry, i: nat, j: nat, k: nat)
    requires g.Valid() && j <= k < |g.block|
    ensures Aligned(Start(i, g.block[k]), g.block[j])
  {
    BlockMultiple(g, j, k);
    AlignedStart(i, g.block[k], g.block[j]);
  }

  lemma {:induction false} FitsShift(g: Geometry, j: nat, off: nat, v: nat, lo: nat, hi: nat, p: nat)
    requires j < |g.block| && Aligned(off, g.block[j])
    ensures Rem(off + v, g.block[j]) == Rem(v, g.block[j])
    ensures FitsAt(g, j, off + v, off + lo, off + hi, p) <==> FitsAt(g, j, v, lo, hi, p)
  {
    RemShift(off, v, g.block[j]);
  }

  /** Entry i of a table of level k + 1, seen from that table. */
  lemma {:induction false} BestShift(g: Geometry, k: nat, top: nat, i: nat, v: nat, lo: nat, hi: nat, p: nat)
    requires g.Valid() && k <= top < |g.block|
    ensures var off := Start(i, g.block[top]);
      && Best(g, k, off + v, off + lo, off + hi, p) == Best(g, k, v, lo, hi, p)
    decreases k
  {
    SlotMultiple(g, i, k, top);
    FitsShift(g, k, Start(i, g.block[top]), v, lo, hi, p);
    if k > 0 {
      BestShift(g, k - 1, top, i, v, lo, hi, p);
    }
  }

  /** A block on one side of a boundary that is aligned to it does not care about the other side. */
  lemma {:induction false} FitsJoin(g: Geometry, j: nat, v: nat, lo: nat, mid: nat, hi: nat, p: nat)
    requires j < |g.block| && lo <= mid <= hi && Aligned(mid, g.block[j])
    ensures lo <= v < mid ==> (FitsAt(g, j, v, lo, hi, p) <==> FitsAt(g, j, v, lo, mid, p))
    ensures mid <= v < hi ==> (FitsAt(g, j, v, lo, hi, p) <==> FitsAt(g, j, v, mid, hi, p + (mid - lo)))
  {
    var b := g.block[j];
    SlotBounds(v, b);
    if v < mid {
      SlotBounds(mid, b);
      NoCrossing(v, mid, b);
    } else {
      RemShift(mid, v - mid, b);
      SlotBounds(v - mid, b);
    }
  }

  lemma NoCrossing(v: nat, mid: nat, b: pos)
    requires v < mid && Aligned(mid, b)
    ensures v - Rem(v, b) + b <= mid
  {
    SlotBounds(v, b);
    SlotBounds(mid, b);
    var i, j := Slot(v, b), Slot(mid, b);
    if j < i {
      StartMonotone(j, i, b);
    } else if i < j {
      StartMonotone(i, j, b);
    }
  }

  lemma {:induction false} BestJoin(g: Geometry, k: nat, top: nat, i: nat, v: nat, lo: nat, mid: nat, hi: nat, p: nat)
    requires g.Valid() && k <= top < |g.block| && lo <= mid <= hi && mid == Start(i, g.block[top])
    ensures lo <= v < mid ==> Best(g, k, v, lo, hi, p) == Best(g, k, v, lo, mid, p)
    ensures mid <= v < hi ==> Best(g, k, v, lo, hi, p) == Best(g, k, v, mid, hi, p + (mid - lo))
    decreases k
  {
    SlotMultiple(g, i, k, top);
    FitsJoin(g, k, v, lo, mid, hi, p);
    if k > 0 {
      BestJoin(g, k - 1, top, i, v, lo, mid, hi, p);
    }
  }

  // ---- through the levels -------------------------------------------------------------------------

  lemma BestNothing(g: Geometry, m: Memory, f: Frame, k: nat, lo: nat, p: nat)
    requires k < |g.block| && f in m
    ensures AllBest(g, m, f, k, lo, lo, p)
  {
  }

  /** One more chunk, behind a boundary between entries, that was mapped without touching the others. */
  lemma {:induction false} BestCompose(g: Geometry, m1: Memory, m2: Memory, f: Frame, k: nat, i: nat, lo: nat, mid: nat, hi: nat, p: nat)
    requires g.Valid() && k < |g.block| && f in m1 && f in m2 && lo <= mid <= hi && (lo == mid || mid == Start(i, g.block[k]))
    requires AllBest(g, m1, f, k, lo, mid, p) && AllBest(g, m2, f, k, mid, hi, p + (mid - lo))
    requires forall v: nat :: lo <= v < mid ==> g.Lookup(m2, f, k, v) == g.Lookup(m1, f, k, v)
    ensures AllBest(g, m2, f, k, lo, hi, p)
  {
    forall v: nat | lo <= v < hi
      ensures BestAt(g, m2, f, k, lo, hi, p, v)
    {
      if lo != mid {
        BestJoin(g, k, k, i, v, lo, mid, hi, p);
        var j := Best(g, k, v, lo, hi, p);
        SlotMultiple(g, i, j, k);
        FitsJoin(g, j, v, lo, mid, hi, p);
        assert v < mid ==> BestAt(g, m1, f, k, lo, mid, p, v);
      }
      assert mid <= v ==> BestAt(g, m2, f, k, mid, hi, p + (mid - lo), v);
    }
  }

  lemma {:induction false} BestLeafAt(g: Geometry, m: Memory, f: Frame, k: nat, i: nat, v: nat, p: nat)
    requires g.Valid() && k < |g.block| && f in m && i < |m[f]| && (m[f][i].Block? || m[f][i].Page?)
    requires Rem(p, g.block[k]) == 0 && g.IndexShift(k) <= 30
    requires Start(i, g.block[k]) <= v < Start(i, g.block[k]) + g.block[k]
    ensures IsBest(g, g.Lookup(m, f, k, v), k, v, Start(i, g.block[k]), Start(i, g.block[k]) + g.block[k], p)
  {
    var b, off := g.block[k], Start(i, g.block[k]);
    SlotUnique(v, i, b);
    assert FitsAt(g, k, v, off, off + b, p);
    assert g.Lookup(m, f, k, v).Some?;
  }

  /** A whole aligned block written into entry i. */
  lemma {:induction false} BestLeaf(g: Geometry, m: Memory, f: Frame, k: nat, i: nat, p: nat)
    requires g.Valid() && k < |g.block| && f in m && i < |m[f]| && (m[f][i].Block? || m[f][i].Page?)
    requires Rem(p, g.block[k]) == 0 && g.IndexShift(k) <= 30
    ensures AllBest(g, m, f, k, Start(i, g.block[k]), Start(i, g.block[k]) + g.block[k], p)
  {
    var lo, hi := Start(i, g.block[k]), Start(i, g.block[k]) + g.block[k];
    forall v: nat | lo <= v < hi
      ensures BestAt(g, m, f, k, lo, hi, p, v)
    {
      BestLeafAt(g, m, f, k, i, v, p);
    }
  }

  /** Its block is not that of the entry ... */
  lemma {:induction false} NotWhole(g: Geometry, k: nat, i: nat, w: nat, lo: nat, hi: nat, p: nat)
    requires k < |g.block| && lo <= w < hi <= g.block[k]
    requires !(lo == 0 && hi == g.block[k] && Rem(p, g.block[k]) == 0 && g.IndexShift(k) <= 30)
    ensures !FitsAt(g, k, Start(i, g.block[k]) + w, Start(i, g.block[k]) + lo, Start(i, g.block[k]) + hi, p)
  {
    SlotUnique(Start(i, g.block[k]) + w, i, g.block[k]);
  }

  /** ... but the same as seen from the table below. */
  lemma {:induction false} BestOneLess(g: Geometry, k: nat, i: nat, w: nat, lo: nat, hi: nat, p: nat, j: nat)
    requires g.Valid() && 0 < k < |g.block| && lo <= w < hi <= g.block[k]
    requires !(lo == 0 && hi == g.block[k] && Rem(p, g.block[k]) == 0 && g.IndexShift(k) <= 30)
    requires j == Best(g, k - 1, w, lo, hi, p)
    ensures var off := Start(i, g.block[k]);
      Best(g, k, off + w, off + lo, off + hi, p) == j && Rem(off + w, g.block[j]) == Rem(w, g.block[j])
    ensures var off := Start(i, g.block[k]); FitsAt(g, j, w, lo, hi, p) ==> FitsAt(g, j, off + w, off + lo, off + hi, p)
  {
    NotWhole(g, k, i, w, lo, hi, p);
    BestShift(g, k - 1, k, i, w, lo, hi, p);
    SlotMultiple(g, i, j, k);
    FitsShift(g, j, Start(i, g.block[k]), w, lo, hi, p);
  }

  lemma {:induction false} IsBestBelow(g: Geometry, h: Option<Leaf>, h': Option<Leaf>, k: nat, i: nat, w: nat, lo: nat, hi: nat, p: nat)
    requires g.Valid() && 0 < k < |g.block| && lo <= w < hi <= g.block[k]
    requires !(lo == 0 && hi == g.block[k] && Rem(p, g.block[k]) == 0 && g.IndexShift(k) <= 30)
    requires IsBest(g, h, k - 1, w, lo, hi, p) && h' == Some(h.value.Shift(Start(i, g.block[k])))
    ensures var off := Start(i, g.block[k]); IsBest(g, h', k, off + w, off + lo, off + hi, p)
  {
    BestOneLess(g, k, i, w, lo, hi, p, Best(g, k - 1, w, lo, hi, p));
  }

  lemma {:induction false} LookupBelow(g: Geometry, m: Memory, f: Frame, k: nat, i: nat, c: Frame, w: nat)
    requires 0 < k < |g.block| && f in m && i < |m[f]| && m[f][i] == Table(c) && c in m && w < g.block[k]
    ensures var off := Start(i, g.block[k]);
      g.Lookup(m, c, k - 1, w).Some? ==> g.Lookup(m, f, k, off + w) == Some(g.Lookup(m, c, k - 1, w).value.Shift(off))
  {
    SlotUnique(Start(i, g.block[k]) + w, i, g.block[k]);
  }

  lemma {:induction false} BestAtBelow(g: Geometry, m: Memory, f: Frame, k: nat, i: nat, c: Frame, lo: nat, hi: nat, p: nat, w: nat)
    requires g.Valid() && 0 < k < |g.block| && f in m && i < |m[f]| && m[f][i] == Table(c) && c in m
    requires lo <= w < hi <= g.block[k]
    requires !(lo == 0 && hi == g.block[k] && Rem(p, g.block[k]) == 0 && g.IndexShift(k) <= 30)
    requires BestAt(g, m, c, k - 1, lo, hi, p, w)
    ensures var off := Start(i, g.block[k]); BestAt(g, m, f, k, off + lo, off + hi, p, off + w)
  {
    LookupBelow(g, m, f, k, i, c, w);
    IsBestBelow(g, g.Lookup(m, c, k - 1, w), g.Lookup(m, f, k, Start(i, g.block[k]) + w), k, i, w, lo, hi, p);
  }

  lemma {:induction false} BestAtAddress(g: Geometry, m: Memory, f: Frame, k: nat, i: nat, c: Frame, lo: nat, hi: nat, p: nat, v: nat)
    requires g.Valid() && 0 < k < |g.block| && f in m && i < |m[f]| && m[f][i] == Table(c) && c in m
    requires lo <= hi <= g.block[k] && Start(i, g.block[k]) + lo <= v < Start(i, g.block[k]) + hi
    requires !(lo == 0 && hi == g.block[k] && Rem(p, g.block[k]) == 0 && g.IndexShift(k) <= 30)
    requires AllBest(g, m, c, k - 1, lo, hi, p)
    ensures BestAt(g, m, f, k, Start(i, g.block[k]) + lo, Start(i, g.block[k]) + hi, p, v)
  {
    var w: nat, l := v - Start(i, g.block[k]), k - 1;
    assert BestAt(g, m, c, l, lo, hi, p, w);
    BestAtBelow(g, m, f, k, i, c, lo, hi, p, w);
  }

  /** A chunk that is no whole aligned block, mapped in the table below entry i. */
  lemma {:induction false} BestBelow(g: Geometry, m: Memory, f: Frame, k: nat, i: nat, c: Frame, lo: nat, hi: nat, p: nat)
    requires g.Valid() && 0 < k < |g.block| && f in m && i < |m[f]| && m[f][i] == Table(c) && c in m
    requires lo <= hi <= g.block[k]
    requires !(lo == 0 && hi == g.block[k] && Rem(p, g.block[k]) == 0 && g.IndexShift(k) <= 30)
    requires AllBest(g, m, c, k - 1, lo, hi, p)
    ensures AllBest(g, m, f, k, Start(i, g.block[k]) + lo, Start(i, g.block[k]) + hi, p)
  {
    var from, to := Start(i, g.block[k]) + lo, Start(i, g.block[k]) + hi;
    forall v: nat | from <= v < to
      ensures BestAt(g, m, f, k, from, to, p, v)
    {
      BestAtAddress(g, m, f, k, i, c, lo, hi, p, v);
    }
  }

  // ---- the loop -----------------------------------------------------------------------------------

  /** The invariant of the loop of arm64_mmu_map_pt about the sizes of leaves: rounds other than the first
      begin with an entry. */
  ghost predicate BestSoFar(g: Geometry, m: Memory, f: Frame, k: nat, rel: nat, cur: nat, left: nat, p: nat)
    requires k < |g.block| && f in m
  {
    rel <= cur && AllBest(g, m, f, k, rel, cur, p) && (cur == rel || left == 0 || Rem(cur, g.block[k]) == 0)
  }

  lemma {:induction false} NextBest(g: Geometry, m1: Memory, m2: Memory, f: Frame, k: nat, rel: nat, cur: nat, left: nat, p: nat,
                                    rem: nat, chunk: nat, attrs: Attrs)
    requires g.Valid() && k < |g.block| && f in m1 && f in m2 && BestSoFar(g, m1, f, k, rel, cur, left, p)
    requires InSlot(cur, left, g.block[k], rem, chunk) && chunk <= left
    requires g.Maps(m1, m2, f, k, cur, cur + chunk, p + (cur - rel), attrs)
    requires AllBest(g, m2, f, k, cur, cur + chunk, p + (cur - rel))
    ensures BestSoFar(g, m2, f, k, rel, cur + chunk, left - chunk, p)
  {
    var b := g.block[k];
    var i := Slot(cur, b);
    SlotBounds(cur, b);
    if chunk < left {
      SlotUnique(cur + chunk, i + 1, b);
    }
    BestCompose(g, m1, m2, f, k, i, rel, cur, cur + chunk, p);
  }
}
