/**
 An address space as a partial function from virtual to physical addresses, and what any run of
 mappings and unmappings does to it (the interface of arch/arm64/mmu.c).
 */
module Translation {
  import opened Blocks
  import opened Common
  import opened LeafSizes
  import opened PageTable

  datatype Status = NoError | ErrInvalidArgs | ErrGeneric | ErrOutOfRange | ErrNotFound

  const TWO64: nat := 0x1_0000_0000_0000_0000

  /** Subtraction of 64-bit unsigned values. */
  function Sub64(a: nat, b: nat): nat {
    (a - b) % TWO64
  }

  /** The range check of arm64_mmu_map and arm64_mmu_unmap. */
  predicate OutOfRange(rel: nat, size: nat, max: nat) {
    rel > Sub64(max, size) || size > max
  }

  /** The check is exact although its subtraction can wrap. */
  lemma RangeCheckExact(rel: nat, size: nat, max: nat)
    requires rel < TWO64 && size < TWO64 && max < TWO64
    ensures OutOfRange(rel, size, max) <==> rel + size > max
  {
    if size <= max {
      assert Sub64(max, size) == max - size;
    }
  }

  datatype Op =
    | Map(vaddr: nat, paddr: nat, size: nat, attrs: Attrs)
    | Unmap(vaddr: nat, size: nat)

  /** One completed call. */
  datatype Call = Call(op: Op, status: Status)

  /** The flat view: what address v is translated to after the calls of a history. */
  ghost function Flat(history: seq<Call>, v: nat): Option<(nat, Attrs)> {
    if history == [] then None
    else
      var Call(op, status) := history[|history| - 1];
      if status == NoError && op.vaddr <= v < op.vaddr + op.size then
        match op
        case Map(vaddr, paddr, _, attrs) => Some((paddr + (v - vaddr), attrs))
        case Unmap(_, _) => None
      else
        Flat(history[..|history| - 1], v)
  }

  /** The physical address that a leaf gives to offset v of its table. */
  ghost function Output(h: Option<Leaf>, v: nat): Option<(int, Attrs)> {
    match h
    case None => None
    case Some(leaf) => Some((leaf.addr + v - leaf.base, leaf.attrs))
  }

  /** Where the tables of an address space are and which virtual addresses they serve. */
  datatype Layout = Layout(geometry: Geometry, root: Frame, top: nat, base: nat, sizeShift: nat) {

    function Size(): nat { Pow2(sizeShift) }

    ghost predicate Ok() {
      && geometry.Valid() && top < |geometry.block|
      && Size() < TWO64 && base + Size() <= TWO64
    }

    /** The tables form a tree below the root table, the allocated frames are exactly those of
        this tree, and no frame is both allocated and free. */
    ghost predicate Valid(s: Store)
      requires Ok()
    {
      && geometry.Sound(s, root, top)
      && geometry.Reach(s.mem, root, top) == s.mem.Keys
      && Start(|s.mem[root]|, geometry.block[top]) == Size()
    }

    ghost function Translate(s: Store, v: nat): Option<(int, Attrs)>
      requires Ok() && Valid(s)
    {
      if base <= v < base + Size() then Output(geometry.Lookup(s.mem, root, top, v - base), v - base) else None
    }

    /** No frame is lost or gained by the pair of tables and free pages. */
    ghost predicate Conserved(s: Store, s': Store) {
      forall g: Frame :: (g in s.mem || g in s.free) <==> (g in s'.mem || g in s'.free)
    }

    ghost predicate Unchanged(s: Store, s': Store)
      requires Ok() && Valid(s) && Valid(s')
    {
      forall v: nat :: Translate(s', v) == Translate(s, v)
    }

    /** No leaf reaches across an end of the range. */
    ghost predicate NoStraddle(s: Store, vaddr: nat, size: nat)
      requires Ok() && Valid(s)
    {
      base <= vaddr ==> geometry.NoStraddle(s.mem, root, top, vaddr - base, vaddr - base + size)
    }

    /** A successful mapping uses the largest blocks it can, and leaves every other leaf alone. */
    ghost predicate LeavesMapped(s: Store, vaddr: nat, paddr: nat, size: nat, s': Store)
      requires Ok() && Valid(s) && Valid(s')
    {
      if base <= vaddr then
        && AllBest(geometry, s'.mem, root, top, vaddr - base, vaddr - base + size, paddr)
        && forall v: nat :: !(vaddr - base <= v < vaddr - base + size) ==>
             geometry.Lookup(s'.mem, root, top, v) == geometry.Lookup(s.mem, root, top, v)
      else
        geometry.SameTranslation(s.mem, s'.mem, root, top)
    }

    /** What a call of arm64_mmu_map does, by its status. */
    ghost predicate MapStep(s: Store, vaddr: nat, paddr: nat, size: nat, attrs: Attrs, status: Status, s': Store)
      requires Ok() && Valid(s) && Valid(s')
    {
      && Conserved(s, s')
      && (status == NoError ==>
            forall v: nat ::
              if vaddr <= v < vaddr + size then
                Translate(s, v) == None && Translate(s', v) == Some((paddr + (v - vaddr), attrs))
              else
                Translate(s', v) == Translate(s, v))
      && (status == NoError ==> NoStraddle(s', vaddr, size))
      && (status == NoError ==> LeavesMapped(s, vaddr, paddr, size, s'))
      && (status != NoError ==> Unchanged(s, s') && geometry.SameTranslation(s.mem, s'.mem, root, top))
    }

    /** Every leaf that meets the range is gone, whole, and every other stays. */
    ghost predicate Clears(s: Store, vaddr: nat, size: nat, s': Store)
      requires Ok() && Valid(s) && Valid(s')
    {
      if base <= vaddr then geometry.Clears(s.mem, s'.mem, root, top, vaddr - base, vaddr - base + size)
      else geometry.SameTranslation(s.mem, s'.mem, root, top)
    }

    /** What a call of arm64_mmu_unmap does: the range is untranslated afterwards, and the rest is
        as before exactly when no leaf straddles an end of the range. */
    ghost predicate UnmapStep(s: Store, vaddr: nat, size: nat, status: Status, s': Store)
      requires Ok() && Valid(s) && Valid(s')
    {
      && Conserved(s, s')
      && (status == NoError ==>
            && Clears(s, vaddr, size, s')
            && (forall v: nat :: vaddr <= v < vaddr + size ==> Translate(s', v) == None)
            && (NoStraddle(s, vaddr, size) <==>
                forall v: nat :: !(vaddr <= v < vaddr + size) ==> Translate(s', v) == Translate(s, v)))
      && (status != NoError ==> Unchanged(s, s') && geometry.SameTranslation(s.mem, s'.mem, root, top))
    }

    /** arm64_mmu_map computes vaddr - vaddr_base in 64 bits: the check that follows accepts exactly
        the ranges inside the address space, and empty ranges that wrap to its end. */
    lemma RelativeAddress(vaddr: nat, size: nat)
      requires Ok() && vaddr < TWO64 && size < TWO64
      ensures var rel := Sub64(vaddr, base);
        && (!OutOfRange(rel, size, Size()) ==> rel + size <= Size() && (size > 0 ==> vaddr == base + rel))
        && (size > 0 ==> (OutOfRange(rel, size, Size()) <==> !(base <= vaddr && vaddr + size <= base + Size())))
    {
      var rel := Sub64(vaddr, base);
      RangeCheckExact(rel, size, Size());
      if base <= vaddr {
        assert rel == vaddr - base;
      } else {
        assert rel == vaddr - base + TWO64;
      }
    }

    lemma EmptyRoot(s: Store)
      requires Ok() && root in s.mem && s.mem.Keys == {root} && geometry.Empty(s.mem, root)
      requires root !in s.free && Start(|s.mem[root]|, geometry.block[top]) == Size()
      ensures Valid(s) && forall v: nat :: Translate(s, v) == None
    {
      geometry.EmptyTable(s.mem, root, top);
    }

    lemma EmptyStep(s: Store, vaddr: nat, vaddr': nat, paddr: nat, attrs: Attrs, s': Store)
      requires Ok() && Valid(s) && Valid(s') && base <= vaddr
      ensures MapStep(s, vaddr, paddr, 0, attrs, NoError, s') ==> MapStep(s, vaddr', paddr, 0, attrs, NoError, s')
      ensures UnmapStep(s, vaddr, 0, NoError, s') ==> UnmapStep(s, vaddr', 0, NoError, s')
    {
      assert NoStraddle(s, vaddr, 0) && NoStraddle(s, vaddr', 0) && NoStraddle(s', vaddr', 0);
    }

    /** One level of the walk of arch_mmu_query. */
    lemma WalkStep(m: Memory, f: Frame, k: nat, v: nat)
      requires Ok() && k < |geometry.block| && geometry.IsTree(m, f, k) && v < Start(|m[f]|, geometry.block[k])
      ensures var i, rem := Slot(v, geometry.block[k]), Rem(v, geometry.block[k]);
        && i < |m[f]| && rem == v - Start(i, geometry.block[k]) < geometry.block[k]
        && match m[f][i]
           case Invalid => Output(geometry.Lookup(m, f, k, v), v) == None
           case Table(c) =>
             && k > 0 && geometry.IsTree(m, c, k - 1) && Start(|m[c]|, geometry.block[k - 1]) == geometry.block[k]
             && Output(geometry.Lookup(m, f, k, v), v) == Output(geometry.Lookup(m, c, k - 1, rem), rem)
           case Block(a, attrs) => k > 0 && Output(geometry.Lookup(m, f, k, v), v) == Some((a + rem, attrs))
           case Page(a, attrs) => k == 0 && Output(geometry.Lookup(m, f, k, v), v) == Some((a + rem, attrs))
    {
      var b := geometry.block[k];
      var i := Slot(v, b);
      SlotBounds(v, b);
      if |m[f]| < i {
        StartMonotone(|m[f]|, i, b);
      }
      assert geometry.TreeEntry(m, m[f][i], k);
      if k > 0 {
        geometry.BlockStep(k - 1);
      }
    }

    // ---- from table offsets to addresses ------------------------------------------------------

    lemma ReachKept(s: Store, s': Store)
      requires Ok() && Valid(s) && root in s'.mem && |s'.mem[root]| == |s.mem[root]|
      requires geometry.Sound(s', root, top) && geometry.Keeps(s.mem, s.free, s'.mem, s'.free, root, top)
      ensures Valid(s') && Conserved(s, s')
    {
      geometry.ReachAllocated(s'.mem, root, top);
      forall g | g in s'.mem
        ensures g in geometry.Reach(s'.mem, root, top)
      {
        assert geometry.KeptAt(s.mem, s.free, s'.mem, s'.free, root, top, g);
      }
      forall g: Frame
        ensures (g in s.mem || g in s.free) <==> (g in s'.mem || g in s'.free)
      {
        assert geometry.KeptAt(s.mem, s.free, s'.mem, s'.free, root, top, g);
      }
    }

    lemma MappedStep(s: Store, rel: nat, paddr: nat, size: nat, attrs: Attrs, s': Store)
      requires Ok() && Valid(s) && rel + size <= Size()
      requires geometry.Mapped(s, s', root, top, rel, rel + size, paddr, attrs)
      requires AllBest(geometry, s'.mem, root, top, rel, rel + size, paddr)
      ensures Valid(s') && MapStep(s, base + rel, paddr, size, attrs, NoError, s')
    {
      ReachKept(s, s');
      forall v: nat | rel <= v < rel + size && geometry.Lookup(s'.mem, root, top, v).Some?
        ensures geometry.Lookup(s'.mem, root, top, v).value.Within(rel, rel + size)
      {
      }
      forall v: nat
        ensures
          if base + rel <= v < base + rel + size then
            Translate(s, v) == None && Translate(s', v) == Some((paddr + (v - (base + rel)), attrs))
          else
            Translate(s', v) == Translate(s, v)
      {
        if base <= v {
          assert geometry.Maps(s.mem, s'.mem, root, top, rel, rel + size, paddr, attrs);
          var offset := v - base;
          assert rel <= offset < rel + size ==>
            geometry.Lookup(s.mem, root, top, offset).None? &&
            MapsTo(geometry.Lookup(s'.mem, root, top, offset), offset, rel, rel + size, paddr, attrs);
        }
      }
    }

    lemma RestoredStep(s: Store, s': Store)
      requires Ok() && Valid(s) && geometry.Restores(s, s', root, top)
      ensures Valid(s') && Conserved(s, s') && Unchanged(s, s')
    {
      ReachKept(s, s');
      forall v: nat
        ensures Translate(s', v) == Translate(s, v)
      {
        if base <= v {
          assert geometry.Lookup(s'.mem, root, top, v - base) == geometry.Lookup(s.mem, root, top, v - base);
        }
      }
    }

    lemma UnmappedStep(s: Store, rel: nat, size: nat, s': Store)
      requires Ok() && Valid(s) && rel + size <= Size()
      requires geometry.Unmaps(s, s', root, top, rel, rel + size)
      ensures Valid(s') && UnmapStep(s, base + rel, size, NoError, s')
    {
      ReachKept(s, s');
      geometry.UnmapExactIff(s.mem, s'.mem, root, top, rel, rel + size);
      if geometry.ClearsExactly(s.mem, s'.mem, root, top, rel, rel + size) {
        forall v: nat | !(base + rel <= v < base + rel + size)
          ensures Translate(s', v) == Translate(s, v)
        {
          if base <= v {
            assert geometry.Lookup(s'.mem, root, top, v - base) == geometry.Lookup(s.mem, root, top, v - base);
          }
        }
      }
      if forall v: nat :: !(base + rel <= v < base + rel + size) ==> Translate(s', v) == Translate(s, v) {
        KeptMeansExact(s, rel, size, s');
      }
    }

    /** What arm64_mmu_map does, from what arm64_mmu_map_pt did at offset rel. */
    lemma MapDone(s: Store, rel: nat, vaddr: nat, paddr: nat, size: nat, attrs: Attrs, r: Status, s': Store)
      requires Ok() && Valid(s) && rel + size <= Size() && (size > 0 ==> vaddr == base + rel)
      requires r == NoError ==> geometry.Mapped(s, s', root, top, rel, rel + size, paddr, attrs)
      requires r == NoError ==> AllBest(geometry, s'.mem, root, top, rel, rel + size, paddr)
      requires r != NoError ==> geometry.Restores(s, s', root, top)
      ensures Valid(s') && MapStep(s, vaddr, paddr, size, attrs, r, s')
    {
      if r == NoError {
        MappedStep(s, rel, paddr, size, attrs, s');
        EmptyStep(s, base + rel, vaddr, paddr, attrs, s');
      } else {
        RestoredStep(s, s');
      }
    }

    /** What arm64_mmu_unmap does, likewise. */
    lemma UnmapDone(s: Store, rel: nat, vaddr: nat, size: nat, s': Store)
      requires Ok() && Valid(s) && rel + size <= Size() && (size > 0 ==> vaddr == base + rel)
      requires geometry.Unmaps(s, s', root, top, rel, rel + size)
      ensures Valid(s') && UnmapStep(s, vaddr, size, NoError, s')
    {
      UnmappedStep(s, rel, size, s');
      EmptyStep(s, base + rel, vaddr, 0, 0, s');
    }

    lemma KeptMeansExact(s: Store, rel: nat, size: nat, s': Store)
      requires Ok() && Valid(s) && Valid(s') && geometry.Clears(s.mem, s'.mem, root, top, rel, rel + size)
      requires forall v: nat :: rel <= v < rel + size ==> geometry.Lookup(s'.mem, root, top, v) == None
      requires forall v: nat :: !(base + rel <= v < base + rel + size) ==> Translate(s', v) == Translate(s, v)
      ensures geometry.ClearsExactly(s.mem, s'.mem, root, top, rel, rel + size)
    {
      forall v: nat
        ensures geometry.Lookup(s'.mem, root, top, v) ==
          if rel <= v < rel + size then None else geometry.Lookup(s.mem, root, top, v)
      {
        assert geometry.Lookup(s'.mem, root, top, v) == Cleared(geometry.Lookup(s.mem, root, top, v), rel, rel + size);
        if v < Size() {
          assert Translate(s', base + v) == Output(geometry.Lookup(s'.mem, root, top, v), v);
          assert Translate(s, base + v) == Output(geometry.Lookup(s.mem, root, top, v), v);
        } else {
          geometry.BeyondTable(s.mem, root, top, v);
        }
      }
    }

    // ---- which leaf -------------------------------------------------------------------------------

    /** After a successful mapping the leaf of each address is the largest of the blocks at that address
        that lie in the range, have an aligned physical address, and are of a level with blocks. */
    lemma LargestBlock(s: Store, vaddr: nat, paddr: nat, size: nat, attrs: Attrs, s': Store, v: nat) returns (j: nat)
      requires Ok() && Valid(s) && Valid(s') && MapStep(s, vaddr, paddr, size, attrs, NoError, s')
      requires base <= vaddr <= v < vaddr + size
      ensures j <= top && LeafAt(s', v).Some?
      ensures var leaf, b: int := LeafAt(s', v).value, geometry.block[j];
        && leaf.size == b && leaf.base == (v - base) - (v - base) % b && leaf.addr == paddr + (leaf.base - (vaddr - base))
      ensures Fitting(j, v, vaddr, paddr, size)
      ensures forall i :: j < i <= top ==> !Fitting(i, v, vaddr, paddr, size)
    {
      j := BestLeaf(s, vaddr, paddr, size, attrs, s', v);
      FittingMeans(j, v, vaddr, paddr, size);
      forall i: nat | j < i <= top
        ensures !Fitting(i, v, vaddr, paddr, size)
      {
        BestIsLargest(geometry, top, v - base, vaddr - base, vaddr - base + size, paddr, i);
        FittingMeans(i, v, vaddr, paddr, size);
      }
    }

    lemma BestLeaf(s: Store, vaddr: nat, paddr: nat, size: nat, attrs: Attrs, s': Store, v: nat) returns (j: nat)
      requires Ok() && Valid(s) && Valid(s') && MapStep(s, vaddr, paddr, size, attrs, NoError, s')
      requires base <= vaddr <= v < vaddr + size
      ensures j <= top && LeafAt(s', v).Some?
      ensures j == Best(geometry, top, v - base, vaddr - base, vaddr - base + size, paddr)
      ensures FitsAt(geometry, j, v - base, vaddr - base, vaddr - base + size, paddr)
      ensures var leaf, b: int := LeafAt(s', v).value, geometry.block[j];
        && leaf.size == b && leaf.base == (v - base) - (v - base) % b && leaf.addr == paddr + (leaf.base - (vaddr - base))
    {
      assert BestAt(geometry, s'.mem, root, top, vaddr - base, vaddr - base + size, paddr, v - base);
      j := Best(geometry, top, v - base, vaddr - base, vaddr - base + size, paddr);
      SlotIsQuotient(v - base, geometry.block[j]);
      SentTo(s', v, paddr + (v - vaddr), attrs);
    }

    lemma SentTo(s: Store, v: nat, p: nat, attrs: Attrs)
      requires Ok() && Valid(s) && base <= v && Translate(s, v) == Some((p, attrs))
      ensures LeafAt(s, v).Some? && LeafAt(s, v).value.addr == p - (v - base - LeafAt(s, v).value.base)
    {
    }

    lemma FittingMeans(j: nat, v: nat, vaddr: nat, paddr: nat, size: nat)
      requires j < |geometry.block| && base <= vaddr && base <= v
      ensures FitsAt(geometry, j, v - base, vaddr - base, vaddr - base + size, paddr) <==> Fitting(j, v, vaddr, paddr, size)
    {
      FitsMeans(geometry, j, v - base, vaddr - base, vaddr - base + size, paddr);
    }

    /** The block of level j at address v is in the range and aligned to its physical address, and level j
        has blocks. */
    predicate Fitting(j: nat, v: nat, vaddr: nat, paddr: nat, size: nat)
      requires j < |geometry.block| && base <= vaddr && base <= v
    {
      var b: int := geometry.block[j];
      var start := v - base - (v - base) % b;
      vaddr - base <= start && start + b <= vaddr - base + size && (paddr + (start - (vaddr - base))) % b == 0 && geometry.IndexShift(j) <= 30
    }

    /** Every leaf is aligned to its size, as a descriptor requires. */
    ghost predicate AlignedLeaves(s: Store)
      requires Ok() && Valid(s)
    {
      forall v: nat :: base <= v && LeafAt(s, v).Some? ==> LeafAligned(LeafAt(s, v).value)
    }

    predicate LeafAligned(leaf: Leaf) {
      leaf.size > 0 && leaf.addr % leaf.size == 0
    }

    lemma StepAligned(s: Store, call: Call, s': Store)
      requires Ok() && Valid(s) && Valid(s') && Step(s, call, s') && AlignedLeaves(s)
      ensures AlignedLeaves(s')
    {
      forall v: nat | base <= v && LeafAt(s', v).Some?
        ensures LeafAligned(LeafAt(s', v).value)
      {
        match call.op
        case Map(vaddr, paddr, size, attrs) =>
          if call.status == NoError && base <= vaddr <= v < vaddr + size {
            var j := LargestBlock(s, vaddr, paddr, size, attrs, s', v);
          } else {
            assert LeafAt(s', v) == LeafAt(s, v);
          }
        case Unmap(vaddr, size) =>
          assert LeafAt(s', v) == LeafAt(s, v);
      }
    }

    // ---- part of a block ------------------------------------------------------------------------

    /** With the root as the only table, every leaf is one of its blocks. */
    lemma OnlyBlocks(s: Store, v: nat)
      requires Ok() && Valid(s) && s.mem.Keys == {root} && top > 0 && geometry.Lookup(s.mem, root, top, v).Some?
      ensures var leaf := geometry.Lookup(s.mem, root, top, v).value;
        leaf.base == Start(Slot(v, geometry.block[top]), geometry.block[top]) && leaf.size == geometry.block[top]
    {
      var e := s.mem[root][Slot(v, geometry.block[top])];
      assert geometry.TreeEntry(s.mem, e, top);
      assert e.Table? ==> e.frame in geometry.ReachEntry(s.mem, e, top);
    }

    /** The leaf that translates address v, with addresses relative to the base. */
    ghost function LeafAt(s: Store, v: nat): Option<Leaf>
      requires Ok() && Valid(s) && base <= v
    {
      geometry.Lookup(s.mem, root, top, v - base)
    }

    /** Unmapping any part of a block or page, at any level, untranslates all of it, and nothing else: an
        address loses its translation if and only if its leaf meets the range. */
    lemma NeighbourLost(s: Store, vaddr: nat, size: nat, s': Store, v: nat)
      requires Ok() && Valid(s) && Valid(s') && base <= vaddr
      requires UnmapStep(s, vaddr, size, NoError, s') && Translate(s, v).Some?
      ensures LeafAt(s, v).Some?
      ensures var leaf := LeafAt(s, v).value;
        && leaf.base <= v - base < leaf.base + leaf.size
        && (leaf.Meets(vaddr - base, vaddr - base + size) <==> Translate(s', v) == None)
        && (Translate(s', v) == None || Translate(s', v) == Translate(s, v))
    {
      geometry.TableLeaf(s.mem, root, top, v - base);
      assert geometry.Lookup(s'.mem, root, top, v - base) == Cleared(LeafAt(s, v), vaddr - base, vaddr - base + size);
    }

    /** So two addresses of one block of the root share its fate. */
    lemma RootBlockLost(s: Store, vaddr: nat, size: nat, s': Store, v: nat)
      requires Ok() && Valid(s) && Valid(s') && s.mem.Keys == {root} && top > 0 && base <= vaddr && size > 0
      requires UnmapStep(s, vaddr, size, NoError, s') && Translate(s, v).Some?
      requires Slot(v - base, geometry.block[top]) == Slot(vaddr - base, geometry.block[top])
      ensures Translate(s', v) == None
    {
      OnlyBlocks(s, v - base);
      SlotBounds(vaddr - base, geometry.block[top]);
      NeighbourLost(s, vaddr, size, s', v);
    }

    /** No page was free, so the root is still the only table. */
    lemma StillOnlyRoot(s: Store, s': Store)
      requires Ok() && Valid(s) && Valid(s') && Conserved(s, s') && s.mem.Keys == {root} && s.free == {}
      ensures s'.mem.Keys == {root}
    {
      forall g | g in s'.mem
        ensures g == root
      {
        assert g in s.mem || g in s.free;
      }
    }

    // ---- whole runs ---------------------------------------------------------------------------

    ghost predicate Step(s: Store, call: Call, s': Store)
      requires Ok() && Valid(s) && Valid(s')
    {
      match call.op
      case Map(vaddr, paddr, size, attrs) => MapStep(s, vaddr, paddr, size, attrs, call.status, s')
      case Unmap(vaddr, size) => UnmapStep(s, vaddr, size, call.status, s')
    }

    /** A run: the states before, between and after the calls of a history. */
    ghost predicate Run(states: seq<Store>, history: seq<Call>)
      requires Ok()
    {
      && |states| == |history| + 1
      && (forall i :: 0 <= i < |states| ==> Valid(states[i]))
      && (forall i :: 0 <= i < |history| ==> Step(states[i], history[i], states[i + 1]))
    }

    /** Every successful unmapping of the run met no leaf that straddles an end of its range. */
    ghost predicate CleanUnmaps(states: seq<Store>, history: seq<Call>)
      requires Ok() && Run(states, history)
    {
      forall i :: 0 <= i < |history| && history[i].op.Unmap? && history[i].status == NoError ==>
        NoStraddle(states[i], history[i].op.vaddr, history[i].op.size)
    }

    /** Through any run of mappings, failed mappings and unmappings from an empty address space,
        the tables agree with the flat view, and every frame is accounted for. */
    lemma {:induction false} RunIsFlat(states: seq<Store>, history: seq<Call>, v: nat)
      requires Ok() && Run(states, history) && CleanUnmaps(states, history)
      requires forall w: nat :: Translate(states[0], w) == None
      ensures Translate(states[|history|], v) == Flat(history, v)
      ensures Conserved(states[0], states[|history|])
      decreases |history|
    {
      if history == [] {
      } else {
        var n := |history| - 1;
        assert Step(states[n], history[n], states[n + 1]);
        RunPrefix(states, history);
        RunIsFlat(states[..n + 1], history[..n], v);
        FlatStep(states[n], history, states[n + 1], v);
      }
    }

    /** The last call of a history does to the translation what it does to the flat view. */
    lemma FlatStep(s: Store, history: seq<Call>, s': Store, v: nat)
      requires Ok() && Valid(s) && Valid(s') && history != []
      requires var call := history[|history| - 1];
        && Step(s, call, s')
        && (call.op.Unmap? && call.status == NoError ==> NoStraddle(s, call.op.vaddr, call.op.size))
      requires Translate(s, v) == Flat(history[..|history| - 1], v)
      ensures Translate(s', v) == Flat(history, v) && Conserved(s, s')
    {
    }

    /** So it is in every state that a run reaches from an empty address space. */
    lemma {:induction false} RunAligned(states: seq<Store>, history: seq<Call>)
      requires Ok() && Run(states, history) && AlignedLeaves(states[0])
      ensures AlignedLeaves(states[|history|])
      decreases |history|
    {
      if history != [] {
        var n := |history| - 1;
        assert Step(states[n], history[n], states[n + 1]);
        RunPrefix(states, history);
        RunAligned(states[..n + 1], history[..n]);
        StepAligned(states[n], history[n], states[n + 1]);
      }
    }

    lemma EmptyAligned(s: Store)
      requires Ok() && Valid(s) && forall v: nat :: Translate(s, v) == None
      ensures AlignedLeaves(s)
    {
      forall v: nat | base <= v
        ensures LeafAt(s, v) == None
      {
        if v < base + Size() {
          assert Translate(s, v) == Output(LeafAt(s, v), v - base);
        } else {
          geometry.BeyondTable(s.mem, root, top, v - base);
        }
      }
    }

    lemma RunPrefix(states: seq<Store>, history: seq<Call>)
      requires Ok() && Run(states, history) && history != []
      ensures Run(states[..|history|], history[..|history| - 1])
      ensures CleanUnmaps(states, history) ==> CleanUnmaps(states[..|history|], history[..|history| - 1])
    {
      var n := |history| - 1;
      var ss, hh := states[..n + 1], history[..n];
      forall i | 0 <= i < |hh|
        ensures Step(ss[i], hh[i], ss[i + 1])
      {
        assert Step(states[i], history[i], states[i + 1]);
      }
    }

    /** A mapping followed by the unmapping of its range restores every translation. */
    lemma MapThenUnmap(s: Store, s1: Store, s2: Store, vaddr: nat, paddr: nat, size: nat, attrs: Attrs)
      requires Ok() && Valid(s) && Valid(s1) && Valid(s2)
      requires MapStep(s, vaddr, paddr, size, attrs, NoError, s1) && UnmapStep(s1, vaddr, size, NoError, s2)
      ensures Unchanged(s, s2)
    {
      forall v: nat
        ensures Translate(s2, v) == Translate(s, v)
      {
        assert !(vaddr <= v < vaddr + size) ==> Translate(s1, v) == Translate(s, v);
      }
    }
  }
}
