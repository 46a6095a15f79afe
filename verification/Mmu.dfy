/**
 arch/arm64/mmu.c: mapping, unmapping and querying by changing the translation tables in place.
 TLB maintenance, barriers and address space identifiers are not modelled.
 */
module Mmu {
  import opened Blocks
  import opened Capacity
  import opened Common
  import opened LeafSizes
  import opened Leftovers
  import opened PageTable
  import opened Tidy
  import opened Translation

  /** One address space: arch_aspace_t with its tables, and the free pages of the page allocator. */
  class AddressSpace {
    const layout: Layout
    const asBase: nat
    const asSize: nat
    const geometry: Geometry := layout.geometry
    var mem: Memory
    var free: set<Frame>

    ghost function Now(): Store
      reads this
    {
      Store(mem, free)
    }

    ghost predicate Valid()
      reads this
    {
      layout.Ok() && layout.Valid(Now())
    }

    /** arch_mmu_init_aspace: a cleared root table with the given number of descriptors. */
    constructor (layout: Layout, asBase: nat, asSize: nat, entries: nat, free: set<Frame>)
      requires layout.Ok() && layout.root !in free
      requires Start(entries, layout.geometry.block[layout.top]) == layout.Size()
      ensures Valid() && this.layout == layout && this.asBase == asBase && this.asSize == asSize && this.free == free
      ensures mem.Keys == {layout.root} && geometry.Empty(mem, layout.root)
      ensures forall v: nat :: layout.Translate(Now(), v) == None
      ensures TidySpace(layout, Now())
    {
      this.layout := layout;
      this.asBase := asBase;
      this.asSize := asSize;
      this.mem := map[layout.root := seq(entries, _ => Invalid)];
      this.free := free;
      new;
      layout.EmptyRoot(Now());
      EmptyIsTidy(geometry, mem, layout.root, layout.top);
    }

    // ---- the interface ------------------------------------------------------------------------

    /** arm64_mmu_map. */
    method Map(vaddr: nat, paddr: nat, size: nat, attrs: Attrs) returns (r: Status)
      requires Valid() && vaddr < TWO64 && size < TWO64
      modifies this
      ensures Valid() && layout.MapStep(old(Now()), vaddr, paddr, size, attrs, r, Now())
      ensures r == NoError || r == ErrInvalidArgs || r == ErrGeneric
      ensures size > 0 ==> (r == ErrInvalidArgs <==>
        !(layout.base <= vaddr && vaddr + size <= layout.base + layout.Size()) ||
        !geometry.PageAligned(vaddr - layout.base, paddr, size))
      ensures size > 0 && layout.base <= vaddr && r != ErrInvalidArgs ==>
        (r == NoError <==> CanMap(geometry, old(Now()), layout.root, layout.top, vaddr - layout.base, size, paddr))
      ensures SucceedsIff(layout, old(Now()), vaddr, paddr, size, r == NoError)
      ensures TidyStep(layout, old(Now()), Op.Map(vaddr, paddr, size, attrs), Now())
    {
      var rel := Sub64(vaddr, layout.base);
      layout.RelativeAddress(vaddr, size);
      if OutOfRange(rel, size, layout.Size()) {
        RefusedTidy(layout, Now(), Op.Map(vaddr, paddr, size, attrs));
        return ErrInvalidArgs;
      }
      ghost var s := Now();
      r := MapPt(rel, paddr, size, attrs, layout.top, layout.root);
      layout.MapDone(s, rel, vaddr, paddr, size, attrs, r, Now());
      MapTidy(layout, s, rel, vaddr, paddr, size, attrs, r, Now());
    }

    /** arm64_mmu_unmap. */
    method Unmap(vaddr: nat, size: nat) returns (r: Status)
      requires Valid() && vaddr < TWO64 && size < TWO64
      modifies this
      ensures Valid() && layout.UnmapStep(old(Now()), vaddr, size, r, Now())
      ensures r == NoError || r == ErrInvalidArgs
      ensures size > 0 ==> (r == ErrInvalidArgs <==>
        !(layout.base <= vaddr && vaddr + size <= layout.base + layout.Size()))
      ensures TidyStep(layout, old(Now()), Op.Unmap(vaddr, size), Now())
    {
      var rel := Sub64(vaddr, layout.base);
      layout.RelativeAddress(vaddr, size);
      if OutOfRange(rel, size, layout.Size()) {
        return ErrInvalidArgs;
      }
      ghost var s := Now();
      UnmapPt(rel, size, layout.top, layout.root);
      layout.UnmapDone(s, rel, vaddr, size, Now());
      return NoError;
    }

    /** arch_mmu_query: the walk from the root table down to a leaf. */
    method Query(vaddr: nat) returns (r: Status, paddr: int, attrs: Attrs)
      requires Valid() && layout.base <= asBase && asBase + asSize <= layout.base + layout.Size()
      ensures r == ErrOutOfRange <==> !(asBase <= vaddr < asBase + asSize)
      ensures asBase <= vaddr < asBase + asSize ==>
        match layout.Translate(Now(), vaddr)
        case None => r == ErrNotFound
        case Some(out) => r == NoError && (paddr, attrs) == out
    {
      if !(asBase <= vaddr < asBase + asSize) {
        return ErrOutOfRange, 0, 0;
      }
      var rem: nat := vaddr - layout.base;
      var k: nat := layout.top;
      var table := layout.root;
      while true
        invariant k < |geometry.block| && geometry.IsTree(mem, table, k) && rem < Start(|mem[table]|, geometry.block[k])
        invariant Output(geometry.Lookup(mem, table, k, rem), rem) == layout.Translate(Now(), vaddr)
        decreases k
      {
        layout.WalkStep(mem, table, k, rem);
        var pte := mem[table][Slot(rem, geometry.block[k])];
        rem := Rem(rem, geometry.block[k]);
        match pte
        case Invalid =>
          return ErrNotFound, 0, 0;
        case Table(next) =>
          table, k := next, k - 1;
        case Block(addr, a) =>
          return NoError, addr + rem, a;
        case Page(addr, a) =>
          return NoError, addr + rem, a;
      }
    }

    // ---- the tables ---------------------------------------------------------------------------

    /** alloc_page_table: fails when no page is left. */
    method AllocPageTable() returns (r: Option<Frame>)
      modifies this`free
      ensures r.None? ==> free == old(free) == {}
      ensures r.Some? ==> r.value in old(free) && free == old(free) - {r.value}
    {
      if free == {} {
        return None;
      }
      var c :| c in free;
      free := free - {c};
      return Some(c);
    }

    /** free_page_table: the frame has to be one that is in use. */
    method FreePageTable(c: Frame)
      requires c in mem && c !in free
      modifies this
      ensures mem == old(mem) - {c} && free == old(free) + {c}
    {
      mem := mem - {c};
      free := free + {c};
    }

    method PageTableIsClear(c: Frame) returns (clear: bool)
      requires c in mem
      ensures clear <==> geometry.Empty(mem, c)
    {
      var i := 0;
      while i < |mem[c]|
        invariant 0 <= i <= |mem[c]|
        invariant forall j :: 0 <= j < i ==> mem[c][j] == Invalid
      {
        if mem[c][i] != Invalid {
          return false;
        }
        i := i + 1;
      }
      return true;
    }

    /** arm64_mmu_get_page_table: the table below entry index, allocated if there is none. */
    method GetPageTable(index: nat, k: nat, f: Frame) returns (r: Option<Frame>)
      requires 0 < k < |geometry.block| && geometry.Sound(Now(), f, k)
      requires index < |mem[f]|
      modifies this
      ensures geometry.Restores(old(Now()), Now(), f, k)
      ensures r.Some? ==> GotTable(geometry, old(Now()), Now(), f, k, index, r.value)
      ensures r.None? ==> Now() == old(Now())
      ensures r.None? <==> old(mem)[f][index].Block? || (old(mem)[f][index] == Invalid && old(free) == {})
    {
      var pte := mem[f][index];
      ghost var s := Now();
      assert geometry.TreeEntry(mem, mem[f][index], k);
      match pte
      case Invalid =>
        r := AllocPageTable();
        if r.Some? {
          mem := mem[r.value := seq(geometry.Entries(), _ => Invalid)];
          mem := mem[f := mem[f][index := Table(r.value)]];
          geometry.EntryAllocated(s.mem, s.free, mem, f, k, index, r.value);
          WriteKeepsOthers(geometry, s.mem, mem, f, k, index);
        }
      case Table(c) =>
        WriteKeepsOthers(geometry, mem, mem, f, k, index);
        return Some(c);
      case Block(_, _) =>
        return None;
      case Page(_, _) =>
        assert false;  // PANIC_UNIMPLEMENTED in the source
    }

    /** arm64_mmu_unmap_pt on [rel, rel + size) of table f, whose entries are blocks of level k. */
    method UnmapPt(rel: nat, size: nat, k: nat, f: Frame)
      requires geometry.Valid() && k < |geometry.block| && geometry.Sound(Now(), f, k)
      requires rel + size <= Start(|mem[f]|, geometry.block[k])
      modifies this
      ensures geometry.Unmaps(old(Now()), Now(), f, k, rel, rel + size)
      ensures geometry.WholeBlocksClear(mem, f, k, rel, rel + size)
      ensures UnmapsTidily(geometry, old(mem), mem, f, k, rel + size) && (size == 0 ==> Now() == old(Now()))
      decreases k, 1, size + 1
    {
      var cur: nat, left: nat := rel, size;
      ghost var s, next := Now(), 0;
      geometry.UnmapsNothing(s, f, k, rel);
      NothingUnmapped(geometry, mem, f, k, rel);
      while left > 0
        invariant geometry.UnmappedSoFar(s, Now(), f, k, rel, rel + size, cur, left, next)
        invariant UnmapsTidily(geometry, s.mem, mem, f, k, cur) && (size == 0 ==> Now() == s)
      {
        var chunk;
        chunk, next := UnmapNext(s, rel, rel + size, k, f, cur, left, next);
        cur, left := cur + chunk, left - chunk;
      }
    }

    /** One round of the loop, at cur. */
    method UnmapNext(ghost s: Store, ghost rel: nat, ghost end: nat, k: nat, f: Frame, cur: nat, left: nat, ghost next: nat)
      returns (chunk: nat, ghost next': nat)
      requires geometry.Valid() && k < |geometry.block| && left > 0
      requires geometry.Sound(s, f, k) && end <= Start(|s.mem[f]|, geometry.block[k])
      requires geometry.UnmappedSoFar(s, Now(), f, k, rel, end, cur, left, next)
      requires UnmapsTidily(geometry, s.mem, mem, f, k, cur)
      modifies this
      ensures 0 < chunk <= left && geometry.UnmappedSoFar(s, Now(), f, k, rel, end, cur + chunk, left - chunk, next')
      ensures UnmapsTidily(geometry, s.mem, mem, f, k, cur + chunk)
      decreases k, 1, left
    {
      ghost var s1 := Now();
      var index, rem;
      index, rem, chunk := NextChunk(cur, left, geometry.block[k], |mem[f]|, next);
      UnmapChunk(rem, chunk, index, k, f, cur);
      UnmapRound(geometry, s, s1, Now(), f, k, rel, end, cur, left, next, index, rem, chunk);
      next' := index + 1;
    }

    /** One round of the loop: the chunk at cur lies in entry index. */
    method UnmapChunk(rem: nat, chunk: nat, index: nat, k: nat, f: Frame, ghost cur: nat)
      requires geometry.Valid() && k < |geometry.block| && geometry.Sound(Now(), f, k)
      requires index < |mem[f]| && 0 < chunk && rem + chunk <= geometry.block[k]
      requires cur == Start(index, geometry.block[k]) + rem
      modifies this
      ensures geometry.Unmaps(old(Now()), Now(), f, k, cur, cur + chunk)
      ensures mem[f] == old(mem)[f] || mem[f] == old(mem)[f][index := Invalid]
      ensures chunk == geometry.block[k] ==> mem[f][index] == Invalid
      ensures OthersKept(geometry, old(mem), mem, f, k, index)
      ensures TidyTable(geometry, old(mem), f, k) ==> TidyTable(geometry, mem, f, k)
      decreases k, 1, 0
    {
      ghost var s := Now();
      var pte := mem[f][index];
      if k > 0 && pte.Table? {
        UnmapBelow(rem, chunk, index, k, f, pte.frame, cur);
      } else if pte != Invalid {
        mem := mem[f := mem[f][index := Invalid]];
        geometry.UnmapsLeaf(s, Now(), f, k, index, rem, rem + chunk);
        UnmapLeafTidy(geometry, s.mem, mem, f, k, index);
      } else {
        geometry.UnmapsInvalid(s, f, k, index, rem, rem + chunk);
        WriteKeepsOthers(geometry, mem, mem, f, k, index);
      }
    }

    /** The chunk is unmapped in the table below. */
    method UnmapBelow(rem: nat, chunk: nat, index: nat, k: nat, f: Frame, next: Frame, ghost cur: nat)
      requires geometry.Valid() && 0 < k < |geometry.block| && geometry.Sound(Now(), f, k)
      requires index < |mem[f]| && mem[f][index] == Table(next) && 0 < chunk && rem + chunk <= geometry.block[k]
      requires cur == Start(index, geometry.block[k]) + rem
      modifies this
      ensures geometry.Unmaps(old(Now()), Now(), f, k, cur, cur + chunk)
      ensures mem[f] == old(mem)[f] || mem[f] == old(mem)[f][index := Invalid]
      ensures chunk == geometry.block[k] ==> mem[f][index] == Invalid
      ensures OthersKept(geometry, old(mem), mem, f, k, index)
      ensures TidyTable(geometry, old(mem), f, k) ==> TidyTable(geometry, mem, f, k)
      decreases k, 0
    {
      ghost var s := Now();
      geometry.WholeChild(s, f, k, index, next);
      UnmapPt(rem, chunk, k - 1, next);
      geometry.WholeTableClear(mem, next, k - 1, rem, rem + chunk);
      ghost var s1 := Now();
      geometry.UnmapsBelow(s, s1, f, k, index, next, rem, rem + chunk);
      UnmapBelowTidy(geometry, s, s1, f, k, index, next, rem, rem + chunk);
      ReleaseIfClear(chunk == geometry.block[k], index, next, f);
    }

    /** A table below entry index that was unmapped as a whole, or is found clear, is released. */
    method ReleaseIfClear(full: bool, index: nat, next: Frame, f: Frame)
      requires f in mem && index < |mem[f]| && next in mem && next != f && next !in free
      requires full ==> geometry.Empty(mem, next)
      modifies this
      ensures Now() == geometry.Released(old(Now()), f, index, next)
    {
      var clear := full;
      if !clear {
        clear := PageTableIsClear(next);
      }
      if clear {
        mem := mem[f := mem[f][index := Invalid]];
        FreePageTable(next);
      }
    }

    /** arm64_mmu_map_pt: [rel, rel + size) of table f to physical addresses from paddr on. A mapping
        that fails part of the way, at this level or below, is undone. */
    method MapPt(rel: nat, paddr: nat, size: nat, attrs: Attrs, k: nat, f: Frame) returns (r: Status)
      requires geometry.Valid() && k < |geometry.block| && geometry.Sound(Now(), f, k)
      requires rel + size <= Start(|mem[f]|, geometry.block[k])
      modifies this
      ensures r == NoError || r == ErrInvalidArgs || r == ErrGeneric
      ensures r == ErrInvalidArgs <==> !geometry.PageAligned(rel, paddr, size)
      ensures r == NoError ==> geometry.Mapped(old(Now()), Now(), f, k, rel, rel + size, paddr, attrs)
      ensures r != NoError ==> geometry.Restores(old(Now()), Now(), f, k)
      ensures r != ErrInvalidArgs ==> (r == NoError <==> CanMap(geometry, old(Now()), f, k, rel, size, paddr))
      ensures r == NoError ==> |free| == |old(free)| - NeedTable(geometry, old(mem), f, k, rel, size, paddr)
      ensures r == NoError ==> AllBest(geometry, mem, f, k, rel, rel + size, paddr)
      ensures if r == ErrInvalidArgs then Now() == old(Now()) else RangeTidy(geometry, old(Now()), Now(), f, k, rel, size, paddr)
      decreases k, 2
    {
      ghost var s := Now();
      if !geometry.PageAligned(rel, paddr, size) {
        geometry.MappedNothing(s, f, k, rel, paddr, attrs);
        return ErrInvalidArgs;
      }
      ghost var s1;
      var left;
      left, s1 := MapChunks(rel, paddr, size, attrs, k, f);
      if left > 0 {
        ghost var s2 := Now();
        UnmapPt(rel, size - left, k, f);
        UndoneTidy(geometry, s, s2, Now(), f, k, rel, size, paddr, rel + (size - left));
        geometry.RollbackRestores(s, s1, s2, Now(), f, k, rel, rel + (size - left), paddr, attrs);
        return ErrGeneric;
      }
      return NoError;
    }

    /** The loop of arm64_mmu_map_pt. It ends early, with left > 0, at a chunk that fails; s1 is
        the state before that chunk. */
    method MapChunks(rel: nat, paddr: nat, size: nat, attrs: Attrs, k: nat, f: Frame) returns (left: nat, ghost s1: Store)
      requires geometry.Valid() && k < |geometry.block| && geometry.Sound(Now(), f, k)
      requires rel + size <= Start(|mem[f]|, geometry.block[k]) && geometry.PageAligned(rel, paddr, size)
      modifies this
      ensures left <= size && (left == 0 ==> s1 == Now())
      ensures geometry.Mapped(old(Now()), s1, f, k, rel, rel + (size - left), paddr, attrs)
      ensures geometry.Restores(s1, Now(), f, k)
      ensures Outcome(geometry, old(Now()), Now(), f, k, rel, size, paddr, left == 0)
      ensures left == 0 ==> AllBest(geometry, mem, f, k, rel, rel + size, paddr)
      ensures if left == 0 then RangeTidy(geometry, old(Now()), Now(), f, k, rel, size, paddr)
        else FailedTidy(geometry, old(Now()), Now(), f, k, rel, size, paddr, rel + (size - left))
      decreases k, 1, size + 1
    {
      ghost var s := Now();
      geometry.MappedNothing(s, f, k, rel, paddr, attrs);
      NothingTidy(geometry, s, f, k, rel, size, paddr);
      var cur: nat, pa: nat := rel, paddr;
      left := size;
      s1 := s;
      while left > 0
        invariant s1 == Now() && SoFar(geometry, s, s1, f, k, rel, size, paddr, attrs, cur, left, pa)
        invariant BestSoFar(geometry, mem, f, k, rel, cur, left, paddr)
        invariant TidySoFar(geometry, s, s1, f, k, rel, size, paddr, cur, left, pa)
      {
        var ok, chunk := MapNext(s, rel, size, paddr, attrs, k, f, cur, left, pa);
        if !ok {
          return;
        }
        s1 := Now();
        cur, pa, left := cur + chunk, pa + chunk, left - chunk;
      }
      geometry.MappedNothing(s1, f, k, rel, paddr, attrs);
      Arrived(geometry, s, s1, f, k, rel, size, paddr, cur, pa);
    }

    /** One round of the loop, at cur. */
    method MapNext(ghost s: Store, ghost rel: nat, ghost size: nat, ghost paddr: nat, attrs: Attrs, k: nat, f: Frame,
                   cur: nat, left: nat, pa: nat)
      returns (ok: bool, chunk: nat)
      requires geometry.Valid() && k < |geometry.block| && left > 0
      requires f in s.mem && rel + size <= Start(|s.mem[f]|, geometry.block[k])
      requires SoFar(geometry, s, Now(), f, k, rel, size, paddr, attrs, cur, left, pa)
      requires BestSoFar(geometry, mem, f, k, rel, cur, left, paddr)
      requires TidySoFar(geometry, s, Now(), f, k, rel, size, paddr, cur, left, pa)
      modifies this
      ensures 0 < chunk <= left
      ensures ok ==> TidySoFar(geometry, s, Now(), f, k, rel, size, paddr, cur + chunk, left - chunk, pa + chunk)
      ensures !ok ==> FailedTidy(geometry, s, Now(), f, k, rel, size, paddr, cur)
      ensures ok ==> SoFar(geometry, s, Now(), f, k, rel, size, paddr, attrs, cur + chunk, left - chunk, pa + chunk)
      ensures ok ==> f in mem && BestSoFar(geometry, mem, f, k, rel, cur + chunk, left - chunk, paddr)
      ensures !ok ==> geometry.Restores(old(Now()), Now(), f, k) && Outcome(geometry, s, Now(), f, k, rel, size, paddr, false)
      decreases k, 1, left
    {
      ghost var s1 := Now();
      var index, rem;
      index, rem, chunk := NextChunk(cur, left, geometry.block[k], |mem[f]|, 0);
      geometry.ChunkAligned(cur, pa, left, k, rem, chunk);
      ok := MapChunk(rem, pa, chunk, attrs, index, k, f, cur);
      if ok {
        NextBest(geometry, s1.mem, mem, f, k, rel, cur, left, paddr, rem, chunk, attrs);
        NextRound(geometry, s, s1, Now(), f, k, rel, size, paddr, attrs, cur, left, pa, index, rem, chunk);
        NextTidy(geometry, s, s1, Now(), f, k, rel, size, paddr, cur, left, pa, index, rem, chunk);
      } else {
        LastTidy(geometry, s, s1, Now(), f, k, rel, size, paddr, cur, left, pa, index, rem, chunk);
        OffCourse(geometry, s, s1, Now(), f, k, rel, size, paddr, cur, left, pa, index, rem, chunk);
      }
    }

    /** A chunk that is no whole, aligned block: it goes into the table below. */
    method MapBelow(rem: nat, paddr: nat, chunk: nat, attrs: Attrs, index: nat, k: nat, f: Frame, ghost cur: nat)
      returns (ok: bool)
      requires geometry.Valid() && 0 < k < |geometry.block| && geometry.Sound(Now(), f, k)
      requires index < |mem[f]| && 0 < chunk && rem + chunk <= geometry.block[k]
      requires cur == Start(index, geometry.block[k]) + rem
      requires geometry.PageAligned(rem, paddr, chunk) && !Leafable(geometry, k, rem, chunk, paddr)
      modifies this
      ensures ok ==> geometry.Mapped(old(Now()), Now(), f, k, cur, cur + chunk, paddr, attrs)
      ensures !ok ==> geometry.Restores(old(Now()), Now(), f, k)
      ensures ok <==> CanMapEntry(geometry, old(Now()), old(mem)[f][index], k, rem, chunk, paddr)
      ensures OthersKept(geometry, old(mem), mem, f, k, index)
      ensures ChunkTidy(geometry, old(Now()), Now(), f, k, index, rem, chunk, paddr, ok)
      ensures ok ==> AllBest(geometry, mem, f, k, cur, cur + chunk, paddr)
      ensures ok ==> |free| == |old(free)| - NeedEntry(geometry, old(mem), old(mem)[f][index], k, rem, chunk, paddr)
      decreases k, 0, 0
    {
      ghost var s := Now();
      geometry.MappedNothing(s, f, k, cur, paddr, attrs);
      var next := GetPageTable(index, k, f);
      if next.None? {
        NoTableGot(geometry, s, f, k, index, rem, chunk, paddr);
        return false;
      }
      ghost var s1 := Now();
      geometry.WholeChild(s1, f, k, index, next.value);
      CapacityBelow(geometry, s, s1, f, k, index, next.value, rem, chunk, paddr);
      var r := MapPt(rem, paddr, chunk, attrs, k - 1, next.value);
      if r != NoError {
        geometry.RestoresBelow(s, s1, Now(), f, k, index, next.value);
        FailedBelowTidy(geometry, s, s1, Now(), f, k, index, next.value, rem, chunk, paddr);
        return false;
      }
      MappedBelowTidy(geometry, s, s1, Now(), f, k, index, next.value, rem, chunk, paddr, attrs);
      MappedInTable(geometry, s, s1, Now(), f, k, index, next.value, rem, chunk, paddr, attrs);
      return true;
    }

    /** One round of the loop: the chunk at cur lies in entry index. */
    method MapChunk(rem: nat, paddr: nat, chunk: nat, attrs: Attrs, index: nat, k: nat, f: Frame, ghost cur: nat)
      returns (ok: bool)
      requires geometry.Valid() && k < |geometry.block| && geometry.Sound(Now(), f, k)
      requires index < |mem[f]| && 0 < chunk && rem + chunk <= geometry.block[k]
      requires cur == Start(index, geometry.block[k]) + rem
      requires geometry.PageAligned(rem, paddr, chunk)
      requires k == 0 ==> rem == 0 && chunk == geometry.block[k] && Rem(paddr, geometry.block[k]) == 0
      modifies this
      ensures ok ==> geometry.Mapped(old(Now()), Now(), f, k, cur, cur + chunk, paddr, attrs)
      ensures !ok ==> geometry.Restores(old(Now()), Now(), f, k)
      ensures ok <==> CanMapEntry(geometry, old(Now()), old(mem)[f][index], k, rem, chunk, paddr)
      ensures OthersKept(geometry, old(mem), mem, f, k, index)
      ensures ChunkTidy(geometry, old(Now()), Now(), f, k, index, rem, chunk, paddr, ok)
      ensures ok ==> AllBest(geometry, mem, f, k, cur, cur + chunk, paddr)
      ensures ok ==> |free| == |old(free)| - NeedEntry(geometry, old(mem), old(mem)[f][index], k, rem, chunk, paddr)
      decreases k, 0, 1
    {
      ghost var s := Now();
      geometry.MappedNothing(s, f, k, cur, paddr, attrs);
      if !Leafable(geometry, k, rem, chunk, paddr) {
        ok := MapBelow(rem, paddr, chunk, attrs, index, k, f, cur);
        return;
      }
      if mem[f][index] != Invalid {
        NoTableGot(geometry, s, f, k, index, rem, chunk, paddr);
        return false;
      }
      mem := mem[f := mem[f][index := if k > 0 then Block(paddr, attrs) else Page(paddr, attrs)]];
      geometry.MappedLeaf(s, Now(), f, k, index, paddr, attrs);
      LeafTidy(geometry, s, Now(), f, k, index, rem, chunk, paddr, mem[f][index]);
      BestLeaf(geometry, mem, f, k, index, paddr);
      return true;
    }
  }

  // ---- a block is mapped and one page of it unmapped --------------------------------------------------

  /** Pages of 4 KB, blocks of 2 MB, and a root table for 1 GB from address 0 on. */
  const SMALL := Layout(Geometry(12, [Pow2(12), Pow2(21)]), 0, 1, 0, 30)

  lemma SmallOk()
    ensures SMALL.Ok() && Start(SMALL.geometry.Entries(), SMALL.geometry.block[1]) == SMALL.Size()
    ensures Pow2(12) == 0x1000 && Pow2(21) == 0x20_0000 && Pow2(30) == 0x4000_0000
    ensures SMALL.geometry.PageAligned(0, 0, 0x20_0000)
  {
    var g := SMALL.geometry;
    assert g.IndexShift(0) == 12 && g.IndexShift(1) == 21;
    assert Pow2(12) == 0x1000 && Pow2(21) == 0x20_0000 && Pow2(30) == 0x4000_0000;
    StartIsProduct(g.Entries(), g.block[1]);
    assert g.Entries() == 512;
    g.BlockAligned(1);
  }

  /** An aligned block fits an empty root table, and takes no page. */
  lemma BlockFits(s: Store)
    requires SMALL.Ok() && SMALL.Valid(s) && SMALL.geometry.Empty(s.mem, 0)
    ensures CanMap(SMALL.geometry, s, 0, 1, 0, 0x20_0000, 0)
  {
    SmallOk();
    var g := SMALL.geometry;
    assert Slot(0, g.block[1]) == 0 && Rem(0, g.block[1]) == 0;
    assert Leafable(g, 1, 0, 0x20_0000, 0);
    EmptyFits(g, s.mem, 0, 1, 0, 0x20_0000, 0);
  }

  lemma SecondPageLost(s: Store, s': Store)
    requires SMALL.Ok() && SMALL.Valid(s) && SMALL.Valid(s') && s.mem.Keys == {0}
    requires SMALL.UnmapStep(s, 0, 0x1000, NoError, s') && SMALL.Translate(s, 0x1000).Some?
    ensures SMALL.Translate(s', 0x1000) == None
  {
    SmallOk();
    SMALL.RootBlockLost(s, 0, 0x1000, s', 0x1000);
  }

  /** The first 2 MB are mapped as one block, for which no page is needed. */
  method MapFirstBlock(a: AddressSpace, attrs: Attrs) returns (r: Status)
    requires a.Valid() && a.layout == SMALL && a.geometry.Empty(a.mem, 0) && a.mem.Keys == {0} && a.free == {}
    modifies a
    ensures r == NoError && a.Valid() && a.mem.Keys == {0}
    ensures SMALL.Translate(a.Now(), 0x1000) == Some((0x1000, attrs))
  {
    SmallOk();
    ghost var s := a.Now();
    BlockFits(s);
    r := a.Map(0, 0, 0x20_0000, attrs);
    SMALL.StillOnlyRoot(s, a.Now());
  }

  /** Its first page is unmapped; the second page, which nobody unmapped, is translated before, and not
      afterwards. */
  method SplitBlock(attrs: Attrs) returns (mapped: Status, before: Status, unmapped: Status, afterwards: Status)
    ensures mapped == NoError && before == NoError && unmapped == NoError && afterwards == ErrNotFound
  {
    SmallOk();
    var a := new AddressSpace(SMALL, 0, 0x4000_0000, 512, {});
    mapped := MapFirstBlock(a, attrs);
    ghost var s := a.Now();
    var pa, at;
    before, pa, at := a.Query(0x1000);
    unmapped := a.Unmap(0, 0x1000);
    SecondPageLost(s, a.Now());
    afterwards, pa, at := a.Query(0x1000);
  }

  /** 2 MB at a physical address that is only page-aligned take a table of pages; with no page free, the
      mapping fails. */
  method MisalignedBlock(attrs: Attrs) returns (r: Status)
    ensures r == ErrGeneric
  {
    SmallOk();
    var a := new AddressSpace(SMALL, 0, 0x4000_0000, 512, {});
    TakesTable(a.Now());
    r := a.Map(0, 0x1000, 0x20_0000, attrs);
  }

  lemma TakesTable(s: Store)
    requires SMALL.Ok() && SMALL.Valid(s) && SMALL.geometry.Empty(s.mem, 0) && s.free == {}
    ensures !CanMap(SMALL.geometry, s, 0, 1, 0, 0x20_0000, 0x1000)
    ensures SMALL.geometry.PageAligned(0, 0x1000, 0x20_0000)
  {
    SmallOk();
    var g := SMALL.geometry;
    assert Slot(0, g.block[1]) == 0 && Rem(0, g.block[1]) == 0 && Rem(0x1000, g.block[1]) == 0x1000;
    EmptyFits(g, s.mem, 0, 1, 0, 0x20_0000, 0x1000);
    assert NeedEntry(g, map[], Invalid, 1, 0, 0x20_0000, 0x1000) >= 1;
  }

  // ---- a mapping fails and stands in the way of another one -----------------------------------------------

  /** Pages of 4 KB, blocks of 2 MB and 1 GB, and a root table for 2 GB from address 0 on. */
  const TALL := Layout(Geometry(12, [Pow2(12), Pow2(21), Pow2(30)]), 0, 2, 0, 31)

  lemma {:induction false} TallOk()
    ensures TALL.Ok() && Start(2, TALL.geometry.block[2]) == TALL.Size()
    ensures Pow2(12) == 0x1000 && Pow2(21) == 0x20_0000 && Pow2(30) == 0x4000_0000 && Pow2(31) == 0x8000_0000
    ensures TALL.geometry.PageAligned(0, 0, 0x1000) && TALL.geometry.PageAligned(0, 0, 0x8000_0000)
  {
    var g := TALL.geometry;
    assert Pow2(12) == 0x1000 && Pow2(21) == 0x20_0000 && Pow2(30) == 0x4000_0000 && Pow2(31) == 0x8000_0000;
    assert g.IndexShift(0) == 12 && g.IndexShift(1) == 21 && g.IndexShift(2) == 30;
    assert Start(2, g.block[2]) == Start(1, g.block[2]) + g.block[2];
    g.BlockAligned(2);
    AlignedStart(2, g.block[2], g.PageSize());
  }

  /** One page takes two tables; with one page free, the mapping fails and leaves one of them behind. */
  lemma {:induction false} PageTooDeep(s: Store)
    requires TALL.Ok() && TALL.Valid(s) && TALL.geometry.Empty(s.mem, 0) && |s.free| == 1
    ensures !CanMap(TALL.geometry, s, 0, 2, 0, 0x1000, 0) && LeavesTable(TALL.geometry, s.mem, 1, 0, 2, 0, 0x1000, 0)
  {
    TallOk();
    var g := TALL.geometry;
    assert Slot(0, g.block[2]) == 0 && Rem(0, g.block[2]) == 0;
    EmptyFits(g, s.mem, 0, 2, 0, 0x1000, 0);
    assert NeedEntry(g, map[], Invalid, 1, 0, 0x1000, 0) >= 1;
    assert NeedFresh(g, 1, 0, 0x1000, 0) >= 1;
    assert NeedEntry(g, map[], Invalid, 2, 0, 0x1000, 0) >= 2;
  }

  lemma {:induction false} TwoEntries(s: Store)
    requires TALL.Ok() && TALL.Valid(s)
    ensures |s.mem[0]| == 2
  {
    TallOk();
    var n, b := |s.mem[0]|, TALL.geometry.block[2];
    if n < 2 {
      StartMonotone(n, 2, b);
    } else if n > 2 {
      StartMonotone(2, n, b);
    }
  }

  /** Two blocks of 1 GB take no table, and fit if and only if there is none in their place. */
  lemma {:induction false} TwoBlocks(s: Store)
    requires TALL.Ok() && TALL.Valid(s)
    ensures |s.mem[0]| == 2
    ensures CanMap(TALL.geometry, s, 0, 2, 0, 0x8000_0000, 0) <==> s.mem[0][0] == Invalid && s.mem[0][1] == Invalid
  {
    TallOk();
    TwoEntries(s);
    var g, b := TALL.geometry, 0x4000_0000;
    assert Slot(0, g.block[2]) == 0 && Rem(0, g.block[2]) == 0;
    SlotUnique(b, 1, g.block[2]);
    assert Leafable(g, 2, 0, b, 0);
    SlotUnique(b, 1, b);
    assert Leafable(g, 2, 0, b, b);
    assert FitsTable(g, s.mem, 0, 2, b, b, b) <==> s.mem[0][1] == Invalid;
    assert NeedTable(g, s.mem, 0, 2, b, b, b) == 0;
  }

  method MapTwoBlocks(a: AddressSpace, attrs: Attrs) returns (r: Status)
    requires a.Valid() && a.layout == TALL
    modifies a
    ensures |old(a.mem)[0]| == 2
    ensures r == if old(a.mem)[0][0] == Invalid && old(a.mem)[0][1] == Invalid then NoError else ErrGeneric
  {
    TallOk();
    TwoBlocks(a.Now());
    r := a.Map(0, 0, 0x8000_0000, attrs);
  }

  /** A mapping that leaves an empty table behind, in any address space: it fails, and every translation is as
      before, but a table stands in entry i of the root. */
  method MapAndLeave(a: AddressSpace, vaddr: nat, paddr: nat, size: nat, attrs: Attrs) returns (r: Status, ghost i: nat)
    requires a.Valid() && vaddr < TWO64 && size < TWO64
    requires TidySpace(a.layout, a.Now()) && Leaves(a.layout, a.Now(), Op.Map(vaddr, paddr, size, attrs))
    modifies a
    ensures r == ErrGeneric && a.Valid() && a.layout.Unchanged(old(a.Now()), a.Now())
    ensures i < |a.mem[a.layout.root]| == |old(a.mem)[a.layout.root]| && a.mem[a.layout.root][i].Table?
  {
    ghost var s, op := a.Now(), Op.Map(vaddr, paddr, size, attrs);
    LeavesFails(a.layout, s, op);
    r := a.Map(vaddr, paddr, size, attrs);
    LeftByFailure(a.layout, s, op, r, a.Now());
    i := UntidyEntry(a.layout, a.Now());
    SameRoot(a.layout, s, a.Now());
  }

  lemma {:induction false} PageLeaves(s: Store, attrs: Attrs)
    requires TALL.Ok() && TALL.Valid(s) && TALL.geometry.Empty(s.mem, 0) && |s.free| == 1
    ensures TidySpace(TALL, s) && Leaves(TALL, s, Op.Map(0, 0, 0x1000, attrs))
  {
    PageTooDeep(s);
    EmptyIsTidy(TALL.geometry, s.mem, 0, 2);
    PageAccepted();
  }

  lemma {:induction false} PageAccepted()
    ensures Accepts(TALL, 0, 0, 0x1000)
  {
    TallOk();
  }

  /** An empty address space with one free page. */
  method NewTall() returns (a: AddressSpace)
    ensures fresh(a) && a.Valid() && a.layout == TALL && |a.free| == 1
    ensures TALL.geometry.Empty(a.mem, 0) && |a.mem[0]| == 2 && a.mem[0][0] == Invalid && a.mem[0][1] == Invalid
  {
    TallOk();
    a := new AddressSpace(TALL, 0, 0x8000_0000, 2, {1});
    TwoEntries(a.Now());
  }

  /** The page at 0 cannot be mapped, for which a table is left. */
  method FailToMapPage(a: AddressSpace, attrs: Attrs) returns (r: Status)
    requires a.Valid() && a.layout == TALL && TALL.geometry.Empty(a.mem, 0) && |a.mem[0]| == 2 && |a.free| == 1
    modifies a
    ensures r == ErrGeneric && a.Valid() && TALL.Unchanged(old(a.Now()), a.Now())
    ensures 0 in a.mem && |a.mem[0]| == 2 && exists i: nat :: i < 2 && a.mem[0][i].Table?
  {
    PageLeaves(a.Now(), attrs);
    ghost var i;
    r, i := MapAndLeave(a, 0, 0, 0x1000, attrs);
  }

  /** Two blocks of 1 GB can be mapped in an empty address space; but after a failed mapping of one page, which
      changed no translation, they cannot. */
  method MapAfterFailure(attrs: Attrs) returns (first: Status, failed: Status, again: Status)
    ensures first == NoError && failed == ErrGeneric && again == ErrGeneric
  {
    var a := NewTall();
    first := MapTwoBlocks(a, attrs);
    var b := NewTall();
    failed := FailToMapPage(b, attrs);
    ghost var i: nat :| i < 2 && b.mem[0][i].Table?;
    assert i == 0 || i == 1;
    again := MapTwoBlocks(b, attrs);
  }
}
