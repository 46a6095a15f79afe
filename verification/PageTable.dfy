/**
 The arm64 translation tables of arch/arm64/mmu.c as values: table frames, descriptors,
 the walk through the levels, and the ownership of frames by a table.
 Everything here is about one memory `m`; Mmu.dfy changes it in place.
 */
module PageTable {
  import opened Blocks
  import opened Common

  /** Number of the physical page that holds a table. */
  type Frame = nat

  type Attrs = bv64

  /** A descriptor. Blocks occur above the last level, pages only at the last level. */
  datatype Pte =
    | Invalid
    | Table(frame: Frame)
    | Block(addr: nat, attrs: Attrs)
    | Page(addr: nat, attrs: Attrs)

  /** The tables in memory; a frame that is not a key is not an allocated table. */
  type Memory = map<Frame, seq<Pte>>

  /** The state that mapping and unmapping change: the tables, and the free pages. */
  datatype Store = Store(mem: Memory, free: set<Frame>)

  /** The leaf that translates an address: the virtual range it covers, relative to the table,
      the physical address of its first byte, and its attributes. */
  datatype Leaf = Leaf(base: nat, size: nat, addr: nat, attrs: Attrs) {
    function Shift(offset: nat): Leaf {
      this.(base := base + offset)
    }

    predicate Meets(lo: nat, hi: nat) {
      lo < hi && base < hi && lo < base + size
    }

    predicate Within(lo: nat, hi: nat) {
      lo <= base && base + size <= hi
    }

    /** This leaf sends address v to physical address p. */
    predicate Sends(v: nat, p: nat) {
      base <= v < base + size && addr + (v - base) == p
    }
  }

  /** A leaf that meets [lo, hi) is gone, whole; any other stays. */
  ghost function Cleared(h: Option<Leaf>, lo: nat, hi: nat): Option<Leaf> {
    if h.Some? && h.value.Meets(lo, hi) then None else h
  }

  /** Address v of the range [lo, hi), mapped at p onwards, has a leaf inside that range
      that sends it to p + (v - lo). */
  ghost predicate MapsTo(h: Option<Leaf>, v: nat, lo: nat, hi: nat, p: nat, attrs: Attrs)
    requires lo <= v
  {
    h.Some? && h.value.Within(lo, hi) && h.value.Sends(v, p + (v - lo)) && h.value.attrs == attrs
  }

  function Pow2(n: nat): (p: nat)
    ensures p > 0
  {
    if n == 0 then 1 else 2 * Pow2(n - 1)
  }

  lemma {:induction false} Pow2Sum(a: nat, b: nat)
    ensures Pow2(a + b) == Pow2(a) * Pow2(b)
  {
    if b == 0 {
    } else {
      Pow2Sum(a, b - 1);
      assert a + b - 1 == a + (b - 1);
    }
  }

  /** page_size_shift: 12, 14 or 16 in the source. */
  type Shift = n: nat | 3 < n <= 30 witness 12

  /** How addresses are cut up: the page size, as a shift, and the block size of each level.
      A table of level k holds descriptors for block[k] bytes each; level 0 holds pages. */
  datatype Geometry = Geometry(pageShift: Shift, block: seq<pos>) {

    /** index_shift of level k; one level up adds pageShift - 3 bits. */
    function IndexShift(k: nat): nat
    {
      if k == 0 then pageShift else IndexShift(k - 1) + (pageShift - 3)
    }

    function Entries(): pos
    {
      Pow2(pageShift - 3)
    }

    function PageSize(): pos { Pow2(pageShift) }

    ghost predicate Valid() {
      forall k :: 0 <= k < |block| ==> block[k] == Pow2(IndexShift(k))
    }

    /** A table spans exactly one block of the level above. */
    lemma BlockStep(k: nat)
      requires Valid() && k + 1 < |block|
      ensures block[k + 1] == Start(Entries(), block[k])
    {
      Pow2Sum(IndexShift(k), pageShift - 3);
      StartIsProduct(Entries(), block[k]);
    }

    lemma {:induction false} BlockAligned(k: nat)
      requires Valid() && k < |block|
      ensures Aligned(block[k], PageSize())
      ensures k == 0 ==> block[k] == PageSize()
    {
      if k > 0 {
        BlockAligned(k - 1);
        BlockStep(k - 1);
        AlignedStart(Entries(), block[k - 1], PageSize());
      }
    }

    predicate PageAligned(rel: nat, paddr: nat, size: nat) {
      Aligned(rel, PageSize()) && Aligned(paddr, PageSize()) && Aligned(size, PageSize())
    }

    lemma PageAlignedMeans(rel: nat, paddr: nat, size: nat)
      ensures PageAligned(rel, paddr, size) <==> rel % PageSize() == 0 && paddr % PageSize() == 0 && size % PageSize() == 0
    {
      SlotIsQuotient(rel, PageSize());
      SlotIsQuotient(paddr, PageSize());
      SlotIsQuotient(size, PageSize());
    }

    /** The loop of arm64_mmu_map_pt makes aligned calls, whose ranges are whole pages ... */
    lemma ChunkAligned(rel: nat, paddr: nat, size: nat, k: nat, rem: nat, chunk: nat)
      requires Valid() && k < |block| && PageAligned(rel, paddr, size)
      requires InSlot(rel, size, block[k], rem, chunk)
      ensures PageAligned(rem, paddr, chunk)
      ensures k == 0 ==> rem == 0 && chunk == block[k] && Rem(paddr, block[k]) == 0
    {
      BlockAligned(k);
      AlignedChunk(rel, size, block[k], PageSize(), rem, chunk);
    }

    /** ... and keeps its variables aligned. */
    lemma NextAligned(rel: nat, paddr: nat, size: nat, chunk: nat, rel': nat, paddr': nat, size': nat)
      requires PageAligned(rel, paddr, size) && Aligned(chunk, PageSize())
      requires rel' == rel + chunk && paddr' == paddr + chunk && size == size' + chunk
      ensures PageAligned(rel', paddr', size')
    {
      AlignedSum(rel, chunk, PageSize());
      AlignedSum(paddr, chunk, PageSize());
      AlignedSum(chunk, size', PageSize());
    }

    // ---- the walk -------------------------------------------------------------------------

    /** The leaf for offset v below descriptor e of level k. */
    ghost function LookupEntry(m: Memory, e: Pte, k: nat, v: nat): Option<Leaf>
      requires k < |block|
      decreases k, 0
    {
      match e
      case Invalid => None
      case Table(f) => if k > 0 && f in m then Lookup(m, f, k - 1, v) else None
      case Block(a, attrs) => Some(Leaf(0, block[k], a, attrs))
      case Page(a, attrs) => Some(Leaf(0, block[k], a, attrs))
    }

    /** The leaf for offset v in table f of level k. */
    ghost function Lookup(m: Memory, f: Frame, k: nat, v: nat): Option<Leaf>
      requires k < |block| && f in m
      decreases k, 1
    {
      var i := Slot(v, block[k]);
      if i >= |m[f]| then None
      else
        match LookupEntry(m, m[f][i], k, Rem(v, block[k]))
        case None => None
        case Some(leaf) => Some(leaf.Shift(Start(i, block[k])))
    }

    lemma BeyondTable(m: Memory, f: Frame, k: nat, v: nat)
      requires k < |block| && f in m && Start(|m[f]|, block[k]) <= v
      ensures Lookup(m, f, k, v) == None
    {
      SlotBounds(v, block[k]);
      if Slot(v, block[k]) < |m[f]| {
        StartMonotone(Slot(v, block[k]), |m[f]|, block[k]);
      }
    }

    // ---- ownership ------------------------------------------------------------------------

    ghost function ReachEntry(m: Memory, e: Pte, k: nat): set<Frame>
      decreases k, 0
    {
      if e.Table? && k > 0 then Reach(m, e.frame, k - 1) else {}
    }

    /** The frames of table f of level k and of all tables below it. */
    ghost function Reach(m: Memory, f: Frame, k: nat): set<Frame>
      decreases k, 1
    {
      {f} + if f in m then set i, g | 0 <= i < |m[f]| && g in ReachEntry(m, m[f][i], k) :: g else {}
    }

    ghost predicate TreeEntry(m: Memory, e: Pte, k: nat)
      requires k < |block|
      decreases k, 0
    {
      match e
      case Invalid => true
      case Table(f) => k > 0 && f in m && |m[f]| == Entries() && IsTree(m, f, k - 1)
      case Block(_, _) => k > 0
      case Page(_, _) => k == 0
    }

    /** The tables below f form a tree: no frame is reached along two different ways. */
    ghost predicate IsTree(m: Memory, f: Frame, k: nat)
      requires k < |block|
      decreases k, 1
    {
      && f in m
      && (forall i {:trigger TreeEntry(m, m[f][i], k)} :: 0 <= i < |m[f]| ==> TreeEntry(m, m[f][i], k) && f !in ReachEntry(m, m[f][i], k))
      && (forall i: nat, j: nat :: i < j < |m[f]| ==> Apart(m, m[f], k, i, j))
    }

    ghost predicate Apart(m: Memory, table: seq<Pte>, k: nat, i: nat, j: nat)
      requires i < j < |table|
      decreases k, 0
    {
      ReachEntry(m, table[i], k) !! ReachEntry(m, table[j], k)
    }

    lemma {:induction false} ReachAllocated(m: Memory, f: Frame, k: nat)
      requires k < |block| && IsTree(m, f, k)
      ensures Reach(m, f, k) <= m.Keys
      decreases k
    {
      forall i, g | 0 <= i < |m[f]| && g in ReachEntry(m, m[f][i], k)
        ensures g in m
      {
        assert TreeEntry(m, m[f][i], k);
        ReachAllocated(m, m[f][i].frame, k - 1);
      }
    }

    ghost predicate SameWalk(m: Memory, m': Memory, e: Pte, k: nat)
      requires k < |block|
    {
      && (TreeEntry(m, e, k) ==> TreeEntry(m', e, k))
      && ReachEntry(m', e, k) == ReachEntry(m, e, k)
      && forall v: nat :: LookupEntry(m', e, k, v) == LookupEntry(m, e, k, v)
    }

    /** Memory outside the tables below e does not matter to e. */
    lemma {:induction false} SameEntry(m: Memory, m': Memory, e: Pte, k: nat)
      requires k < |block| && TreeEntry(m, e, k)
      requires forall g :: g in ReachEntry(m, e, k) ==> g in m && g in m' && m'[g] == m[g]
      ensures SameWalk(m, m', e, k)
      decreases k
    {
      if e.Table? {
        var f := e.frame;
        assert f in Reach(m, f, k - 1);
        forall i | 0 <= i < |m[f]|
          ensures SameWalk(m, m', m[f][i], k - 1) && TreeEntry(m, m[f][i], k - 1)
        {
          assert TreeEntry(m, m[f][i], k - 1);
          SameEntry(m, m', m[f][i], k - 1);
        }
        var l := k - 1;
        forall i: nat, j: nat | i < j < |m[f]|
          ensures Apart(m', m'[f], l, i, j)
        {
          assert Apart(m, m[f], l, i, j);
        }
        assert Reach(m', f, l) == Reach(m, f, l);
        forall v: nat
          ensures Lookup(m', f, l, v) == Lookup(m, f, l, v)
        {
          var i := Slot(v, block[l]);
          assert i < |m[f]| ==> SameWalk(m, m', m[f][i], l);
        }
      }
    }

    /** The two memories differ at most in the translation of slot i of table f. */
    ghost predicate SameOutside(m: Memory, m': Memory, f: Frame, k: nat, i: nat)
      requires k < |block| && f in m && f in m'
    {
      && |m'[f]| == |m[f]|
      && forall v: nat :: Slot(v, block[k]) != i ==> Lookup(m', f, k, v) == Lookup(m, f, k, v)
    }

    /** Entry j of f is the same in both memories, and so is all that it leads to. */
    ghost predicate SameAt(m: Memory, m': Memory, f: Frame, k: nat, j: nat)
      requires k < |block| && f in m && f in m' && j < |m[f]| == |m'[f]|
    {
      m'[f][j] == m[f][j] && TreeEntry(m', m[f][j], k) && SameWalk(m, m', m[f][j], k)
    }

    lemma OtherEntry(m: Memory, m': Memory, f: Frame, k: nat, i: nat, j: nat)
      requires k < |block| && IsTree(m, f, k) && i < |m[f]| && j < |m[f]| && j != i
      requires f in m' && |m'[f]| == |m[f]| && m'[f][j] == m[f][j]
      requires forall g :: g in Reach(m, f, k) && g != f && g !in ReachEntry(m, m[f][i], k) ==> g in m && g in m' && m'[g] == m[g]
      ensures SameAt(m, m', f, k, j) && f !in ReachEntry(m, m[f][j], k)
      ensures ReachEntry(m, m[f][j], k) <= Reach(m, f, k) - ReachEntry(m, m[f][i], k)
    {
      assert j < i ==> Apart(m, m[f], k, j, i);
      assert i < j ==> Apart(m, m[f], k, i, j);
      assert TreeEntry(m, m[f][j], k);
      SameEntry(m, m', m[f][j], k);
    }

    /** What writing one descriptor does: m' differs from m in entry i of f and below it. */
    lemma ReplaceEntry(m: Memory, m': Memory, f: Frame, k: nat, i: nat, e: Pte)
      requires k < |block| && IsTree(m, f, k) && i < |m[f]|
      requires f in m' && m'[f] == m[f][i := e] && TreeEntry(m', e, k)
      requires forall g :: g in Reach(m, f, k) && g != f && g !in ReachEntry(m, m[f][i], k) ==> g in m && g in m' && m'[g] == m[g]
      requires ReachEntry(m', e, k) !! (Reach(m, f, k) - ReachEntry(m, m[f][i], k))
      ensures IsTree(m', f, k)
      ensures Reach(m', f, k) == Reach(m, f, k) - ReachEntry(m, m[f][i], k) + ReachEntry(m', e, k)
      ensures SameOutside(m, m', f, k, i)
    {
      forall j: nat | j < |m[f]| && j != i
        ensures SameAt(m, m', f, k, j) && f !in ReachEntry(m, m[f][j], k)
        ensures ReachEntry(m, m[f][j], k) <= Reach(m, f, k) - ReachEntry(m, m[f][i], k)
      {
        OtherEntry(m, m', f, k, i, j);
      }
      assert TreeEntry(m, m[f][i], k);
      assert f in Reach(m, f, k) - ReachEntry(m, m[f][i], k);
      ReplacedTree(m, m', f, k, i, e);
      ReplaceReach(m, m', f, k, i, e);
      ReplacedWalk(m, m', f, k, i, e);
    }

    lemma ReplacedTree(m: Memory, m': Memory, f: Frame, k: nat, i: nat, e: Pte)
      requires k < |block| && IsTree(m, f, k) && i < |m[f]|
      requires f in m' && m'[f] == m[f][i := e] && TreeEntry(m', e, k) && f !in ReachEntry(m', e, k)
      requires forall j: nat :: j < |m[f]| && j != i ==> SameAt(m, m', f, k, j) && f !in ReachEntry(m, m[f][j], k)
      requires forall j: nat :: j < |m[f]| && j != i ==> ReachEntry(m, m[f][j], k) <= Reach(m, f, k) - ReachEntry(m, m[f][i], k)
      requires ReachEntry(m', e, k) !! (Reach(m, f, k) - ReachEntry(m, m[f][i], k))
      ensures IsTree(m', f, k)
    {
      forall j: nat | j < |m'[f]|
        ensures TreeEntry(m', m'[f][j], k) && f !in ReachEntry(m', m'[f][j], k)
      {
        assert j != i ==> SameAt(m, m', f, k, j);
      }
      forall a: nat, b: nat | a < b < |m'[f]|
        ensures Apart(m', m'[f], k, a, b)
      {
        assert Apart(m, m[f], k, a, b);
        assert a != i ==> SameAt(m, m', f, k, a);
        assert b != i ==> SameAt(m, m', f, k, b);
      }
    }

    lemma ReplacedWalk(m: Memory, m': Memory, f: Frame, k: nat, i: nat, e: Pte)
      requires k < |block| && f in m && f in m' && i < |m[f]| && m'[f] == m[f][i := e]
      requires forall j: nat :: j < |m[f]| && j != i ==> SameAt(m, m', f, k, j)
      ensures SameOutside(m, m', f, k, i)
    {
      forall v: nat | Slot(v, block[k]) != i
        ensures Lookup(m', f, k, v) == Lookup(m, f, k, v)
      {
        var j := Slot(v, block[k]);
        assert j < |m[f]| ==> SameAt(m, m', f, k, j);
      }
    }

    lemma ReplaceReach(m: Memory, m': Memory, f: Frame, k: nat, i: nat, e: Pte)
      requires k < |block| && IsTree(m, f, k) && i < |m[f]|
      requires f in m' && m'[f] == m[f][i := e]
      requires forall j: nat :: j < |m[f]| && j != i ==> SameAt(m, m', f, k, j)
      ensures Reach(m', f, k) == Reach(m, f, k) - ReachEntry(m, m[f][i], k) + ReachEntry(m', e, k)
    {
      assert TreeEntry(m, m[f][i], k);
      var before := ReachEntry(m, m[f][i], k);
      var rhs := Reach(m, f, k) - before + ReachEntry(m', e, k);
      forall g | g in Reach(m', f, k)
        ensures g in rhs
      {
        if g != f {
          var j :| 0 <= j < |m'[f]| && g in ReachEntry(m', m'[f][j], k);
          if j != i {
            assert SameAt(m, m', f, k, j);
            assert g in ReachEntry(m, m[f][j], k);
            assert j < i ==> Apart(m, m[f], k, j, i);
            assert i < j ==> Apart(m, m[f], k, i, j);
          }
        }
      }
      forall g | g in rhs
        ensures g in Reach(m', f, k)
      {
        if g in ReachEntry(m', e, k) {
          assert g in ReachEntry(m', m'[f][i], k);
        } else if g != f {
          var j :| 0 <= j < |m[f]| && g in ReachEntry(m, m[f][j], k);
          assert SameAt(m, m', f, k, j);
          assert g in ReachEntry(m', m'[f][j], k);
        }
      }
    }

    // ---- steps that keep the tree and account for its frames ----------------------------------

    /** From (m, free) to (m', free') only frames of table f changed hands: every other allocated
        table is as before, and no frame was lost or is both allocated and free. */
    ghost predicate Keeps(m: Memory, free: set<Frame>, m': Memory, free': set<Frame>, f: Frame, k: nat)
    {
      forall g: Frame :: KeptAt(m, free, m', free', f, k, g)
    }

    ghost predicate KeptAt(m: Memory, free: set<Frame>, m': Memory, free': set<Frame>, f: Frame, k: nat, g: Frame) {
      && (g in m' && g !in Reach(m', f, k) <==> g in m && g !in Reach(m, f, k))
      && (g in m && g !in Reach(m, f, k) ==> m'[g] == m[g])
      && (g in m' || g in free' <==> g in m || g in free)
      && !(g in m' && g in free')
    }

    /** ReplaceEntry with the frames accounted for. */
    lemma EntryReplaced(m: Memory, free: set<Frame>, m': Memory, free': set<Frame>, f: Frame, k: nat, i: nat, e: Pte)
      requires k < |block| && IsTree(m, f, k) && i < |m[f]|
      requires f in m' && m'[f] == m[f][i := e] && TreeEntry(m', e, k)
      requires forall g: Frame :: BelowKept(m, free, m', free', f, ReachEntry(m, m[f][i], k), ReachEntry(m', e, k), g)
      ensures IsTree(m', f, k) && SameOutside(m, m', f, k, i)
      ensures Keeps(m, free, m', free', f, k)
    {
      var r, r' := ReachEntry(m, m[f][i], k), ReachEntry(m', e, k);
      ReachAllocated(m, f, k);
      forall g | g in Reach(m, f, k) && g != f && g !in r
        ensures g in m && g in m' && m'[g] == m[g]
      {
        assert BelowKept(m, free, m', free', f, r, r', g);
      }
      forall g | g in Reach(m, f, k) && g !in r
        ensures g !in r'
      {
        assert BelowKept(m, free, m', free', f, r, r', g);
      }
      ReplaceEntry(m, m', f, k, i, e);
      assert r <= Reach(m, f, k);
      forall g: Frame
        ensures KeptAt(m, free, m', free', f, k, g)
      {
        assert BelowKept(m, free, m', free', f, r, r', g);
      }
    }

    /** Frame g through a change of entry i of f, which owned the frames r and now owns r'. */
    ghost predicate BelowKept(m: Memory, free: set<Frame>, m': Memory, free': set<Frame>, f: Frame, r: set<Frame>, r': set<Frame>, g: Frame) {
      && (g in m' && g !in r' <==> g in m && g !in r)
      && (g in m && g !in r && g != f ==> m'[g] == m[g])
      && (g in m' || g in free' <==> g in m || g in free)
      && !(g in m' && g in free')
    }

    /** A change below entry i, which stays the same table, is a change of the whole table. */
    lemma ChildChanged(m: Memory, free: set<Frame>, m': Memory, free': set<Frame>, f: Frame, k: nat, i: nat)
      requires 0 < k < |block| && IsTree(m, f, k)
      requires i < |m[f]| && m[f][i].Table?
      requires IsTree(m', m[f][i].frame, k - 1) && |m'[m[f][i].frame]| == Entries()
      requires Keeps(m, free, m', free', m[f][i].frame, k - 1)
      ensures f in m' && m'[f] == m[f] && IsTree(m', f, k)
      ensures Keeps(m, free, m', free', f, k) && SameOutside(m, m', f, k, i)
    {
      var e := m[f][i];
      var r, r' := ReachEntry(m, e, k), ReachEntry(m', e, k);
      assert TreeEntry(m, e, k) && f !in r;
      assert r == Reach(m, e.frame, k - 1);
      assert r' == Reach(m', e.frame, k - 1);
      forall g: Frame
        ensures BelowKept(m, free, m', free', f, r, r', g)
      {
        assert KeptAt(m, free, m', free', e.frame, k - 1, g);
      }
      assert KeptAt(m, free, m', free', e.frame, k - 1, f);
      assert m'[f] == m[f] == m[f][i := e];
      EntryReplaced(m, free, m', free', f, k, i, e);
    }

    ghost predicate Empty(m: Memory, c: Frame) {
      c in m && forall j :: 0 <= j < |m[c]| ==> m[c][j] == Invalid
    }

    lemma EmptyTable(m: Memory, c: Frame, k: nat)
      requires k < |block| && Empty(m, c)
      ensures IsTree(m, c, k) && Reach(m, c, k) == {c}
      ensures forall v: nat :: Lookup(m, c, k, v) == None
    {
      forall v: nat
        ensures Lookup(m, c, k, v) == None
      {
        assert Slot(v, block[k]) < |m[c]| ==> m[c][Slot(v, block[k])] == Invalid;
      }
      forall i | 0 <= i < |m[c]|
        ensures TreeEntry(m, m[c][i], k) && ReachEntry(m, m[c][i], k) == {}
      {
        assert m[c][i] == Invalid;
      }
      forall i: nat, j: nat | i < j < |m[c]|
        ensures Apart(m, m[c], k, i, j)
      {
        assert m[c][i] == Invalid;
      }
    }

    lemma EmptyChild(m: Memory, c: Frame, k: nat)
      requires 0 < k < |block| && Empty(m, c)
      ensures ReachEntry(m, Table(c), k) == {c}
      ensures |m[c]| == Entries() ==> TreeEntry(m, Table(c), k)
      ensures forall v: nat :: LookupEntry(m, Table(c), k, v) == None
    {
      EmptyTable(m, c, k - 1);
      var l := k - 1;
      assert forall v: nat :: Lookup(m, c, l, v) == None;
    }

    /** Entry i, whose table is empty, is cleared and the table's frame is released. */
    lemma EntryReleased(m: Memory, free: set<Frame>, m': Memory, f: Frame, k: nat, i: nat, c: Frame)
      requires 0 < k < |block| && IsTree(m, f, k) && m.Keys !! free
      requires i < |m[f]| && m[f][i] == Table(c) && Empty(m, c)
      requires m' == m[f := m[f][i := Invalid]] - {c}
      ensures f in m' && IsTree(m', f, k) && SameOutside(m, m', f, k, i)
      ensures Keeps(m, free, m', free + {c}, f, k)
      ensures forall v: nat :: LookupEntry(m, Table(c), k, v) == None
    {
      EmptyChild(m, c, k);
      assert TreeEntry(m, m[f][i], k) && f !in ReachEntry(m, m[f][i], k);
      EntryReplaced(m, free, m', free + {c}, f, k, i, Invalid);
    }

    /** A leaf or an invalid descriptor is written over another one. */
    lemma EntryWritten(m: Memory, free: set<Frame>, m': Memory, f: Frame, k: nat, i: nat, e: Pte)
      requires k < |block| && IsTree(m, f, k) && m.Keys !! free
      requires i < |m[f]| && !m[f][i].Table? && !e.Table? && TreeEntry(m, e, k)
      requires m' == m[f := m[f][i := e]]
      ensures IsTree(m', f, k) && SameOutside(m, m', f, k, i)
      ensures Keeps(m, free, m', free, f, k)
    {
      EntryReplaced(m, free, m', free, f, k, i, e);
    }

    /** A fresh, empty table is put in place of an invalid descriptor. */
    lemma EntryAllocated(m: Memory, free: set<Frame>, m': Memory, f: Frame, k: nat, i: nat, c: Frame)
      requires 0 < k < |block| && IsTree(m, f, k) && m.Keys !! free && c in free
      requires i < |m[f]| && m[f][i] == Invalid
      requires m' == m[c := seq(Entries(), _ => Invalid)][f := m[f][i := Table(c)]]
      ensures IsTree(m', f, k)
      ensures Keeps(m, free, m', free - {c}, f, k)
      ensures forall v: nat :: Lookup(m', f, k, v) == Lookup(m, f, k, v)
    {
      FreshTable(m', c, k);
      EntryReplaced(m, free, m', free - {c}, f, k, i, Table(c));
      NewSlot(m, m', f, k, i);
    }

    lemma FreshTable(m: Memory, c: Frame, k: nat)
      requires 0 < k < |block| && c in m && m[c] == seq(Entries(), _ => Invalid)
      ensures TreeEntry(m, Table(c), k) && ReachEntry(m, Table(c), k) == {c}
      ensures forall v: nat :: LookupEntry(m, Table(c), k, v) == None
    {
      assert Empty(m, c);
      EmptyChild(m, c, k);
    }

    lemma NewSlot(m: Memory, m': Memory, f: Frame, k: nat, i: nat)
      requires k < |block| && f in m && f in m' && SameOutside(m, m', f, k, i) && i < |m[f]|
      requires forall v: nat :: LookupEntry(m', m'[f][i], k, v) == LookupEntry(m, m[f][i], k, v)
      ensures forall v: nat :: Lookup(m', f, k, v) == Lookup(m, f, k, v)
    {
    }

    // ---- what unmapping and mapping do to the translation -----------------------------------

    ghost predicate CoveredEntry(m: Memory, e: Pte, k: nat, leaf: Leaf)
      requires k < |block|
    {
      && 0 < leaf.size && leaf.base + leaf.size <= block[k]
      && forall w: nat :: leaf.base <= w < leaf.base + leaf.size ==> LookupEntry(m, e, k, w) == Some(leaf)
    }

    ghost predicate Covered(m: Memory, f: Frame, k: nat, leaf: Leaf)
      requires k < |block| && f in m
    {
      forall w: nat :: leaf.base <= w < leaf.base + leaf.size ==> Lookup(m, f, k, w) == Some(leaf)
    }

    lemma {:induction false} EntryLeaf(m: Memory, e: Pte, k: nat, v: nat)
      requires Valid() && k < |block| && TreeEntry(m, e, k) && v < block[k]
      requires LookupEntry(m, e, k, v).Some?
      ensures var leaf := LookupEntry(m, e, k, v).value;
        leaf.base <= v < leaf.base + leaf.size && CoveredEntry(m, e, k, leaf)
      decreases k, 0
    {
      if e.Table? {
        var leaf := LookupEntry(m, e, k, v).value;
        TableLeaf(m, e.frame, k - 1, v);
        BlockStep(k - 1);
        StartMonotone(Slot(v, block[k - 1]), Entries(), block[k - 1]);
        forall w: nat | leaf.base <= w < leaf.base + leaf.size
          ensures LookupEntry(m, e, k, w) == Some(leaf)
        {
          assert Covered(m, e.frame, k - 1, leaf);
        }
      }
    }

    /** The walk ends at the one leaf that covers the address, inside the slot of its top-level
        descriptor; every address that leaf covers leads to the same leaf. */
    lemma {:induction false} TableLeaf(m: Memory, f: Frame, k: nat, v: nat)
      requires Valid() && k < |block| && IsTree(m, f, k)
      requires Lookup(m, f, k, v).Some?
      ensures var leaf, i := Lookup(m, f, k, v).value, Slot(v, block[k]);
        && i < |m[f]|
        && leaf.base <= v < leaf.base + leaf.size
        && leaf.Within(Start(i, block[k]), Start(i, block[k]) + block[k])
        && Covered(m, f, k, leaf)
      decreases k, 1
    {
      var leaf, i := Lookup(m, f, k, v).value, Slot(v, block[k]);
      SlotBounds(v, block[k]);
      assert TreeEntry(m, m[f][i], k);
      EntryLeaf(m, m[f][i], k, Rem(v, block[k]));
      var low := LookupEntry(m, m[f][i], k, Rem(v, block[k])).value;
      SlotLeaf(m, f, k, i, low);
    }

    lemma SlotLeaf(m: Memory, f: Frame, k: nat, i: nat, low: Leaf)
      requires k < |block| && f in m && i < |m[f]|
      requires CoveredEntry(m, m[f][i], k, low)
      ensures low.Shift(Start(i, block[k])).Within(Start(i, block[k]), Start(i, block[k]) + block[k])
      ensures Covered(m, f, k, low.Shift(Start(i, block[k])))
    {
      var off := Start(i, block[k]);
      var leaf := low.Shift(off);
      forall w: nat | leaf.base <= w < leaf.base + leaf.size
        ensures Lookup(m, f, k, w) == Some(leaf)
      {
        SlotUnique(w, i, block[k]);
        assert LookupEntry(m, m[f][i], k, w - off) == Some(low);
      }
    }

    lemma MeetingPoint(m: Memory, f: Frame, k: nat, v: nat, lo: nat, hi: nat) returns (w: nat)
      requires Valid() && k < |block| && IsTree(m, f, k)
      requires Lookup(m, f, k, v).Some? && Lookup(m, f, k, v).value.Meets(lo, hi)
      ensures lo <= w < hi && Lookup(m, f, k, w) == Lookup(m, f, k, v)
      ensures Lookup(m, f, k, v).value.base <= v < Lookup(m, f, k, v).value.base + Lookup(m, f, k, v).value.size
    {
      var leaf := Lookup(m, f, k, v).value;
      TableLeaf(m, f, k, v);
      w := if leaf.base < lo then lo else leaf.base;
    }

    /** m' translates as m does, except that every leaf meeting [lo, hi) is gone. */
    ghost predicate Clears(m: Memory, m': Memory, f: Frame, k: nat, lo: nat, hi: nat)
      requires k < |block| && f in m && f in m'
    {
      forall v: nat :: Lookup(m', f, k, v) == Cleared(Lookup(m, f, k, v), lo, hi)
    }

    ghost predicate ClearsEntry(m: Memory, e: Pte, m': Memory, e': Pte, k: nat, lo: nat, hi: nat)
      requires k < |block|
    {
      forall v: nat :: v < block[k] ==> LookupEntry(m', e', k, v) == Cleared(LookupEntry(m, e, k, v), lo, hi)
    }

    /** m' translates [lo, hi), untranslated in m, to p onwards with attrs, by leaves that stay
        inside that range, and translates every other address as m does. */
    ghost predicate Maps(m: Memory, m': Memory, f: Frame, k: nat, lo: nat, hi: nat, p: nat, attrs: Attrs)
      requires k < |block| && f in m && f in m'
    {
      forall v: nat ::
        if lo <= v < hi then
          Lookup(m, f, k, v).None? && MapsTo(Lookup(m', f, k, v), v, lo, hi, p, attrs)
        else
          Lookup(m', f, k, v) == Lookup(m, f, k, v)
    }

    ghost predicate MapsEntry(m: Memory, e: Pte, m': Memory, e': Pte, k: nat, lo: nat, hi: nat, p: nat, attrs: Attrs)
      requires k < |block|
    {
      forall v: nat :: v < block[k] ==>
        if lo <= v < hi then
          LookupEntry(m, e, k, v).None? && MapsTo(LookupEntry(m', e', k, v), v, lo, hi, p, attrs)
        else
          LookupEntry(m', e', k, v) == LookupEntry(m, e, k, v)
    }

    lemma ClearsSlot(m: Memory, m': Memory, f: Frame, k: nat, i: nat, lo: nat, hi: nat)
      requires Valid() && k < |block| && IsTree(m, f, k) && f in m' && SameOutside(m, m', f, k, i)
      requires i < |m[f]| && lo <= hi <= block[k]
      requires ClearsEntry(m, m[f][i], m', m'[f][i], k, lo, hi)
      ensures Clears(m, m', f, k, Start(i, block[k]) + lo, Start(i, block[k]) + hi)
    {
      var off := Start(i, block[k]);
      forall v: nat
        ensures Lookup(m', f, k, v) == Cleared(Lookup(m, f, k, v), off + lo, off + hi)
      {
        var j := Slot(v, block[k]);
        SlotBounds(v, block[k]);
        if j != i {
          if Lookup(m, f, k, v).Some? {
            TableLeaf(m, f, k, v);
            if j < i {
              StartMonotone(j, i, block[k]);
            } else {
              StartMonotone(i, j, block[k]);
            }
          }
        } else {
          assert Rem(v, block[k]) == v - off;
        }
      }
    }

    lemma ClearsCompose(m: Memory, m1: Memory, m2: Memory, f: Frame, k: nat, lo: nat, mid: nat, hi: nat)
      requires k < |block| && f in m && f in m1 && f in m2 && lo <= mid <= hi
      requires Valid() && IsTree(m, f, k)
      requires Clears(m, m1, f, k, lo, mid) && Clears(m1, m2, f, k, mid, hi)
      ensures Clears(m, m2, f, k, lo, hi)
    {
      forall v: nat
        ensures Lookup(m2, f, k, v) == Cleared(Lookup(m, f, k, v), lo, hi)
      {
        if Lookup(m, f, k, v).Some? {
          TableLeaf(m, f, k, v);
        }
        assert Lookup(m1, f, k, v) == Cleared(Lookup(m, f, k, v), lo, mid);
      }
    }

    lemma MapsCompose(m: Memory, m1: Memory, m2: Memory, f: Frame, k: nat, lo: nat, mid: nat, hi: nat, p: nat, attrs: Attrs)
      requires k < |block| && f in m && f in m1 && f in m2 && lo <= mid <= hi
      requires Maps(m, m1, f, k, lo, mid, p, attrs) && Maps(m1, m2, f, k, mid, hi, p + (mid - lo), attrs)
      ensures Maps(m, m2, f, k, lo, hi, p, attrs)
    {
      forall v: nat
        ensures
          if lo <= v < hi then
            Lookup(m, f, k, v).None? && MapsTo(Lookup(m2, f, k, v), v, lo, hi, p, attrs)
          else
            Lookup(m2, f, k, v) == Lookup(m, f, k, v)
      {
        assert lo <= v < mid ==> Lookup(m, f, k, v).None? && MapsTo(Lookup(m1, f, k, v), v, lo, mid, p, attrs);
        assert !(lo <= v < mid) ==> Lookup(m1, f, k, v) == Lookup(m, f, k, v);
        assert mid <= v < hi ==> MapsTo(Lookup(m2, f, k, v), v, mid, hi, p + (mid - lo), attrs);
      }
    }

    // ---- unmapping, step by step ----------------------------------------------------------

    /** A well-formed state in which f is a table of level k. */
    ghost predicate Sound(s: Store, f: Frame, k: nat)
      requires k < |block|
    {
      match s case Store(m, free) => IsTree(m, f, k) && m.Keys !! free
    }

    /** All that unmapping [lo, hi) of table f does. */
    ghost predicate Unmaps(s: Store, s': Store, f: Frame, k: nat, lo: nat, hi: nat)
      requires k < |block|
    {
      match (s, s')
      case (Store(m, free), Store(m', free')) =>
        && f in m && f in m' && |m'[f]| == |m[f]|
        && IsTree(m', f, k) && m'.Keys !! free'
        && Keeps(m, free, m', free', f, k)
        && Clears(m, m', f, k, lo, hi)
    }

    lemma UnmapsNothing(s: Store, f: Frame, k: nat, lo: nat)
      requires k < |block| && Sound(s, f, k)
      ensures Unmaps(s, s, f, k, lo, lo)
    {
    }

    lemma UnmapsCompose(s: Store, s1: Store, s2: Store, f: Frame, k: nat, lo: nat, mid: nat, hi: nat)
      requires Valid() && k < |block| && Sound(s, f, k) && lo <= mid <= hi
      requires Unmaps(s, s1, f, k, lo, mid) && Unmaps(s1, s2, f, k, mid, hi)
      ensures Unmaps(s, s2, f, k, lo, hi)
    {
      ClearsCompose(s.mem, s1.mem, s2.mem, f, k, lo, mid, hi);
      KeepsCompose(s, s1, s2, f, k);
    }

    lemma KeepsCompose(s: Store, s1: Store, s2: Store, f: Frame, k: nat)
      requires Keeps(s.mem, s.free, s1.mem, s1.free, f, k) && Keeps(s1.mem, s1.free, s2.mem, s2.free, f, k)
      ensures Keeps(s.mem, s.free, s2.mem, s2.free, f, k)
    {
      forall g: Frame
        ensures KeptAt(s.mem, s.free, s2.mem, s2.free, f, k, g)
      {
        assert KeptAt(s.mem, s.free, s1.mem, s1.free, f, k, g);
        assert KeptAt(s1.mem, s1.free, s2.mem, s2.free, f, k, g);
      }
    }

    /** The table below an entry spans exactly one block of the entry's level. */
    lemma WholeChild(s: Store, f: Frame, k: nat, i: nat, c: Frame)
      requires Valid() && 0 < k < |block| && Sound(s, f, k)
      requires i < |s.mem[f]| && s.mem[f][i] == Table(c)
      ensures c in s.mem && c != f && c !in s.free && Sound(s, c, k - 1)
      ensures Start(|s.mem[c]|, block[k - 1]) == block[k]
    {
      assert TreeEntry(s.mem, s.mem[f][i], k) && f !in ReachEntry(s.mem, s.mem[f][i], k);
      assert c in Reach(s.mem, c, k - 1);
      BlockStep(k - 1);
    }

    /** The state after entry i of f was cleared and its table freed, if that table is empty. */
    ghost function Released(s: Store, f: Frame, i: nat, c: Frame): Store
      requires f in s.mem && i < |s.mem[f]|
    {
      if Empty(s.mem, c) then Store(s.mem[f := s.mem[f][i := Invalid]] - {c}, s.free + {c}) else s
    }

    /** Unmapping in the table below entry i, and releasing that table if nothing is left in it,
        seen from table f. */
    lemma UnmapsBelow(s: Store, s': Store, f: Frame, k: nat, i: nat, c: Frame, lo: nat, hi: nat)
      requires Valid() && 0 < k < |block| && Sound(s, f, k)
      requires i < |s.mem[f]| && s.mem[f][i] == Table(c) && lo <= hi <= block[k]
      requires Unmaps(s, s', c, k - 1, lo, hi)
      ensures f in s'.mem && s'.mem[f] == s.mem[f] && c in s'.mem && c != f && c !in s'.free
      ensures Unmaps(s, Released(s', f, i, c), f, k, Start(i, block[k]) + lo, Start(i, block[k]) + hi)
    {
      var m, m' := s.mem, s'.mem;
      assert TreeEntry(m, m[f][i], k);
      ChildChanged(m, s.free, m', s'.free, f, k, i);
      assert ClearsEntry(m, m[f][i], m', m'[f][i], k, lo, hi);
      ClearsSlot(m, m', f, k, i, lo, hi);
      WholeChild(s', f, k, i, c);
      if Empty(m', c) {
        UnmapsReleased(s', f, k, i, c, Start(i, block[k]) + hi);
        UnmapsCompose(s, s', Released(s', f, i, c), f, k, Start(i, block[k]) + lo, Start(i, block[k]) + hi, Start(i, block[k]) + hi);
      }
    }

    /** Releasing an empty table changes no translation. */
    lemma UnmapsReleased(s: Store, f: Frame, k: nat, i: nat, c: Frame, lo: nat)
      requires 0 < k < |block| && Sound(s, f, k)
      requires i < |s.mem[f]| && s.mem[f][i] == Table(c) && Empty(s.mem, c)
      ensures Unmaps(s, Released(s, f, i, c), f, k, lo, lo)
    {
      var s' := Released(s, f, i, c);
      EntryReleased(s.mem, s.free, s'.mem, f, k, i, c);
      NewSlot(s.mem, s'.mem, f, k, i);
    }

    lemma UnmapsInvalid(s: Store, f: Frame, k: nat, i: nat, lo: nat, hi: nat)
      requires Valid() && k < |block| && Sound(s, f, k)
      requires i < |s.mem[f]| && s.mem[f][i] == Invalid && lo < hi <= block[k]
      ensures Unmaps(s, s, f, k, Start(i, block[k]) + lo, Start(i, block[k]) + hi)
    {
      ClearsSlot(s.mem, s.mem, f, k, i, lo, hi);
    }

    /** The leaf of entry i is cleared, whatever part of it the range meets. */
    lemma UnmapsLeaf(s: Store, s': Store, f: Frame, k: nat, i: nat, lo: nat, hi: nat)
      requires Valid() && k < |block| && Sound(s, f, k)
      requires i < |s.mem[f]| && (k == 0 || !s.mem[f][i].Table?) && lo < hi <= block[k]
      requires s' == Store(s.mem[f := s.mem[f][i := Invalid]], s.free)
      ensures Unmaps(s, s', f, k, Start(i, block[k]) + lo, Start(i, block[k]) + hi)
    {
      assert TreeEntry(s.mem, s.mem[f][i], k);
      EntryWritten(s.mem, s.free, s'.mem, f, k, i, Invalid);
      ClearsSlot(s.mem, s'.mem, f, k, i, lo, hi);
    }

    /** Every descriptor of table f whose block lies inside [lo, hi) is invalid. */
    ghost predicate WholeBlocksClear(m: Memory, f: Frame, k: nat, lo: nat, hi: nat)
      requires k < |block|
    {
      && f in m
      && lo <= hi
      && forall j: nat :: j < |m[f]| && lo <= Start(j, block[k]) && Start(j, block[k]) + block[k] <= hi ==> m[f][j] == Invalid
    }

    /** The invariant of the loop of arm64_mmu_unmap_pt: from s, what lies before cur has been unmapped;
        entry next begins at cur, except in the first round and after the last. */
    ghost predicate UnmappedSoFar(s: Store, s1: Store, f: Frame, k: nat, rel: nat, end: nat, cur: nat, left: nat, next: nat)
      requires k < |block|
    {
      && cur + left == end && rel <= cur
      && Unmaps(s, s1, f, k, rel, cur)
      && WholeBlocksClear(s1.mem, f, k, rel, cur)
      && (cur == rel || left == 0 || cur == Start(next, block[k]))
    }

    lemma OneMoreChunk(m: Memory, m': Memory, f: Frame, k: nat, lo: nat, cur: nat, i: nat, rem: nat, chunk: nat)
      requires k < |block| && WholeBlocksClear(m, f, k, lo, cur)
      requires cur == Start(i, block[k]) + rem && rem + chunk <= block[k] && i < |m[f]|
      requires f in m' && (m'[f] == m[f] || m'[f] == m[f][i := Invalid])
      requires chunk == block[k] ==> m'[f][i] == Invalid
      requires cur == lo || rem == 0
      ensures WholeBlocksClear(m', f, k, lo, cur + chunk)
    {
      forall j: nat | j < |m'[f]| && lo <= Start(j, block[k]) && Start(j, block[k]) + block[k] <= cur + chunk
        ensures m'[f][j] == Invalid
      {
        if j < i {
          StartMonotone(j, i, block[k]);
        } else if j > i {
          StartMonotone(i, j, block[k]);
        }
      }
    }

    /** A range that is the whole table leaves it empty. */
    lemma WholeTableClear(m: Memory, f: Frame, k: nat, lo: nat, hi: nat)
      requires k < |block| && WholeBlocksClear(m, f, k, lo, hi)
      ensures lo == 0 && hi == Start(|m[f]|, block[k]) ==> Empty(m, f)
    {
      if lo == 0 && hi == Start(|m[f]|, block[k]) {
        forall j: nat | j < |m[f]|
          ensures m[f][j] == Invalid
        {
          StartMonotone(j, |m[f]|, block[k]);
        }
      }
    }

    // ---- mapping, step by step ------------------------------------------------------------

    /** All that a successful mapping of [lo, hi) of table f to p onwards does. */
    ghost predicate Mapped(s: Store, s': Store, f: Frame, k: nat, lo: nat, hi: nat, p: nat, attrs: Attrs)
      requires k < |block|
    {
      match (s, s')
      case (Store(m, free), Store(m', free')) =>
        && f in m && f in m' && |m'[f]| == |m[f]|
        && IsTree(m', f, k) && m'.Keys !! free'
        && Keeps(m, free, m', free', f, k)
        && Maps(m, m', f, k, lo, hi, p, attrs)
    }

    /** All that a failed mapping does: tables may have come and gone, translations have not. */
    ghost predicate Restores(s: Store, s': Store, f: Frame, k: nat)
      requires k < |block|
    {
      match (s, s')
      case (Store(m, free), Store(m', free')) =>
        && f in m && f in m' && |m'[f]| == |m[f]|
        && IsTree(m', f, k) && m'.Keys !! free'
        && Keeps(m, free, m', free', f, k)
        && SameTranslation(m, m', f, k)
    }

    ghost predicate SameTranslation(m: Memory, m': Memory, f: Frame, k: nat)
      requires k < |block| && f in m && f in m'
    {
      forall v: nat :: Lookup(m', f, k, v) == Lookup(m, f, k, v)
    }

    lemma MappedNothing(s: Store, f: Frame, k: nat, lo: nat, p: nat, attrs: Attrs)
      requires k < |block| && Sound(s, f, k)
      ensures Mapped(s, s, f, k, lo, lo, p, attrs) && Restores(s, s, f, k)
    {
    }

    lemma MappedCompose(s: Store, s1: Store, s2: Store, f: Frame, k: nat, lo: nat, mid: nat, hi: nat, p: nat, attrs: Attrs)
      requires k < |block| && lo <= mid <= hi
      requires Mapped(s, s1, f, k, lo, mid, p, attrs) && Mapped(s1, s2, f, k, mid, hi, p + (mid - lo), attrs)
      ensures Mapped(s, s2, f, k, lo, hi, p, attrs)
    {
      MapsCompose(s.mem, s1.mem, s2.mem, f, k, lo, mid, hi, p, attrs);
      KeepsCompose(s, s1, s2, f, k);
    }

    /** Mapping in the table below entry i, found or allocated before, seen from table f. */
    lemma MappedBelow(s: Store, s1: Store, s2: Store, f: Frame, k: nat, i: nat, c: Frame, lo: nat, hi: nat, p: nat, attrs: Attrs)
      requires Valid() && 0 < k < |block| && Restores(s, s1, f, k)
      requires i < |s1.mem[f]| && s1.mem[f][i] == Table(c) && lo <= hi <= block[k]
      requires Mapped(s1, s2, c, k - 1, lo, hi, p, attrs)
      ensures f in s2.mem && s2.mem[f] == s1.mem[f]
      ensures Mapped(s, s2, f, k, Start(i, block[k]) + lo, Start(i, block[k]) + hi, p, attrs)
    {
      var m, m' := s1.mem, s2.mem;
      assert TreeEntry(m, m[f][i], k);
      ChildChanged(m, s1.free, m', s2.free, f, k, i);
      assert MapsEntry(m, m[f][i], m', m'[f][i], k, lo, hi, p, attrs);
      MapsSlot(m, m', f, k, i, lo, hi, p, attrs);
      KeepsCompose(s, s1, s2, f, k);
    }

    /** A mapping that failed in the table below entry i, seen from table f. */
    lemma RestoresBelow(s: Store, s1: Store, s2: Store, f: Frame, k: nat, i: nat, c: Frame)
      requires Valid() && 0 < k < |block| && Restores(s, s1, f, k)
      requires i < |s1.mem[f]| && s1.mem[f][i] == Table(c)
      requires Restores(s1, s2, c, k - 1)
      ensures Restores(s, s2, f, k)
    {
      var m, m' := s1.mem, s2.mem;
      assert TreeEntry(m, m[f][i], k);
      ChildChanged(m, s1.free, m', s2.free, f, k, i);
      NewSlot(m, m', f, k, i);
      KeepsCompose(s, s1, s2, f, k);
    }

    /** A block or page is written into an unused entry. */
    lemma MappedLeaf(s: Store, s': Store, f: Frame, k: nat, i: nat, p: nat, attrs: Attrs)
      requires Valid() && k < |block| && Sound(s, f, k)
      requires i < |s.mem[f]| && s.mem[f][i] == Invalid
      requires s' == Store(s.mem[f := s.mem[f][i := if k > 0 then Block(p, attrs) else Page(p, attrs)]], s.free)
      ensures Mapped(s, s', f, k, Start(i, block[k]), Start(i, block[k]) + block[k], p, attrs)
    {
      EntryWritten(s.mem, s.free, s'.mem, f, k, i, if k > 0 then Block(p, attrs) else Page(p, attrs));
      MapsSlot(s.mem, s'.mem, f, k, i, 0, block[k], p, attrs);
    }

    lemma MapsSlot(m: Memory, m': Memory, f: Frame, k: nat, i: nat, lo: nat, hi: nat, p: nat, attrs: Attrs)
      requires k < |block| && f in m && f in m' && SameOutside(m, m', f, k, i)
      requires i < |m[f]| && lo <= hi <= block[k]
      requires MapsEntry(m, m[f][i], m', m'[f][i], k, lo, hi, p, attrs)
      ensures Maps(m, m', f, k, Start(i, block[k]) + lo, Start(i, block[k]) + hi, p, attrs)
    {
      var off := Start(i, block[k]);
      forall v: nat
        ensures
          if off + lo <= v < off + hi then
            Lookup(m, f, k, v).None? && MapsTo(Lookup(m', f, k, v), v, off + lo, off + hi, p, attrs)
          else
            Lookup(m', f, k, v) == Lookup(m, f, k, v)
      {
        var j := Slot(v, block[k]);
        SlotBounds(v, block[k]);
        if off <= v < off + block[k] {
          SlotUnique(v, i, block[k]);
        }
      }
    }

    /** Clearing what was just mapped restores every translation: no older leaf can meet a
        range that was untranslated. */
    lemma ClearingUndoesMapping(m: Memory, m1: Memory, m2: Memory, f: Frame, k: nat, lo: nat, hi: nat, p: nat, attrs: Attrs)
      requires Valid() && k < |block| && IsTree(m, f, k) && f in m1 && f in m2
      requires Maps(m, m1, f, k, lo, hi, p, attrs) && Clears(m1, m2, f, k, lo, hi)
      ensures forall v: nat :: Lookup(m2, f, k, v) == Lookup(m, f, k, v)
    {
      forall v: nat
        ensures Lookup(m2, f, k, v) == Lookup(m, f, k, v)
      {
        if !(lo <= v < hi) && Lookup(m, f, k, v).Some? {
          var leaf := Lookup(m, f, k, v).value;
          TableLeaf(m, f, k, v);
          if leaf.Meets(lo, hi) {
            var w := MeetingPoint(m, f, k, v, lo, hi);
          }
        }
      }
    }

    /** Rolling back: what was mapped before the chunk that failed is unmapped again. */
    lemma RollbackRestores(s: Store, s1: Store, s2: Store, s3: Store, f: Frame, k: nat, lo: nat, hi: nat, p: nat, attrs: Attrs)
      requires Valid() && k < |block| && Sound(s, f, k)
      requires Mapped(s, s1, f, k, lo, hi, p, attrs) && Restores(s1, s2, f, k) && Unmaps(s2, s3, f, k, lo, hi)
      ensures Restores(s, s3, f, k)
    {
      ClearingUndoesMapping(s.mem, s2.mem, s3.mem, f, k, lo, hi, p, attrs);
      KeepsCompose(s, s1, s2, f, k);
      KeepsCompose(s, s2, s3, f, k);
    }

    /** No leaf reaches across an end of [lo, hi). */
    ghost predicate NoStraddle(m: Memory, f: Frame, k: nat, lo: nat, hi: nat)
      requires k < |block| && f in m
    {
      forall v: nat :: lo <= v < hi && Lookup(m, f, k, v).Some? ==> Lookup(m, f, k, v).value.Within(lo, hi)
    }

    /** m' translates [lo, hi) nowhere and every other address as m does. */
    ghost predicate ClearsExactly(m: Memory, m': Memory, f: Frame, k: nat, lo: nat, hi: nat)
      requires k < |block| && f in m && f in m'
    {
      forall v: nat :: Lookup(m', f, k, v) == if lo <= v < hi then None else Lookup(m, f, k, v)
    }

    /** Unmapping empties the range, and it keeps every other address exactly when no leaf
        straddles an end of the range. */
    lemma UnmapExactIff(m: Memory, m': Memory, f: Frame, k: nat, lo: nat, hi: nat)
      requires Valid() && k < |block| && IsTree(m, f, k) && f in m' && Clears(m, m', f, k, lo, hi)
      ensures forall v: nat :: lo <= v < hi ==> Lookup(m', f, k, v) == None
      ensures ClearsExactly(m, m', f, k, lo, hi) <==> NoStraddle(m, f, k, lo, hi)
    {
      forall v: nat | lo <= v < hi
        ensures Lookup(m', f, k, v) == None
      {
        if Lookup(m, f, k, v).Some? {
          TableLeaf(m, f, k, v);
        }
      }
      if ClearsExactly(m, m', f, k, lo, hi) {
        ExactMeansNoStraddle(m, m', f, k, lo, hi);
      }
      if NoStraddle(m, f, k, lo, hi) {
        NoStraddleMeansExact(m, m', f, k, lo, hi);
      }
    }

    lemma ExactMeansNoStraddle(m: Memory, m': Memory, f: Frame, k: nat, lo: nat, hi: nat)
      requires Valid() && k < |block| && IsTree(m, f, k) && f in m'
      requires Clears(m, m', f, k, lo, hi) && ClearsExactly(m, m', f, k, lo, hi)
      ensures NoStraddle(m, f, k, lo, hi)
    {
      forall v: nat | lo <= v < hi && Lookup(m, f, k, v).Some?
        ensures Lookup(m, f, k, v).value.Within(lo, hi)
      {
        TableLeaf(m, f, k, v);
        var leaf := Lookup(m, f, k, v).value;
        assert Lookup(m, f, k, leaf.base) == Some(leaf);
        assert Lookup(m, f, k, leaf.base + leaf.size - 1) == Some(leaf);
      }
    }

    lemma NoStraddleMeansExact(m: Memory, m': Memory, f: Frame, k: nat, lo: nat, hi: nat)
      requires Valid() && k < |block| && IsTree(m, f, k) && f in m'
      requires Clears(m, m', f, k, lo, hi) && NoStraddle(m, f, k, lo, hi)
      ensures ClearsExactly(m, m', f, k, lo, hi)
    {
      forall v: nat
        ensures Lookup(m', f, k, v) == if lo <= v < hi then None else Lookup(m, f, k, v)
      {
        if Lookup(m, f, k, v).Some? {
          TableLeaf(m, f, k, v);
          if Lookup(m, f, k, v).value.Meets(lo, hi) {
            var w := MeetingPoint(m, f, k, v, lo, hi);
          }
        }
      }
    }
  }
}
