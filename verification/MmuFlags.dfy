/**
 Mapping flags through the translation tables (arch/arm64/mmu.c): what arch_mmu_query reports of an
 address, after any calls.
 */
module MmuFlags {
  import opened Common
  import opened Mmu
  import opened PageTable
  import opened PteBits
  import opened Translation

  predicate ValidCacheMode(flags: Word) {
    flags & FLAG_CACHE_MASK != 3
  }

  /** The mappings of the history were made with these flags. */
  ghost predicate MadeWith(history: seq<Call>, flags: seq<Word>) {
    |flags| == |history| &&
    forall i :: 0 <= i < |history| && history[i].op.Map? ==>
      ValidCacheMode(flags[i]) && history[i].op.attrs == Attributes(flags[i])
  }

  /** The flags of the last successful call that concerned address v, if that was a mapping. */
  ghost function LastFlags(history: seq<Call>, flags: seq<Word>, v: nat): Option<Word>
    requires |flags| == |history|
  {
    if history == [] then None
    else
      var n := |history| - 1;
      var Call(op, status) := history[n];
      if status == NoError && op.vaddr <= v < op.vaddr + op.size then
        if op.Map? then Some(flags[n]) else None
      else
        LastFlags(history[..n], flags[..n], v)
  }

  lemma AttributesBack(flags: Word)
    requires ValidCacheMode(flags)
    ensures FlagsOf(Attributes(flags)) == Some(flags & FLAGS)
  {
    FlagsBack(flags, Attributes(flags), Attributes(flags));
  }

  lemma {:induction false} FlatFlags(history: seq<Call>, flags: seq<Word>, v: nat)
    requires MadeWith(history, flags)
    ensures match Flat(history, v)
      case None => LastFlags(history, flags, v) == None
      case Some((_, attrs)) =>
        LastFlags(history, flags, v).Some? && FlagsOf(attrs) == Some(LastFlags(history, flags, v).value & FLAGS)
    decreases |history|
  {
    if history != [] {
      var n := |history| - 1;
      var Call(op, status) := history[n];
      if status == NoError && op.vaddr <= v < op.vaddr + op.size {
        if op.Map? {
          AttributesBack(flags[n]);
        }
      } else {
        FlatFlags(history[..n], flags[..n], v);
      }
    }
  }

  /** Through any run of mappings, failed mappings and clean unmappings from an empty address space, every
      translated address has the flags of the last mapping of its range. */
  lemma RunFlags(layout: Layout, states: seq<Store>, history: seq<Call>, flags: seq<Word>, v: nat)
    requires layout.Ok() && layout.Run(states, history) && layout.CleanUnmaps(states, history)
    requires forall w: nat :: layout.Translate(states[0], w) == None
    requires MadeWith(history, flags)
    ensures match layout.Translate(states[|history|], v)
      case None => LastFlags(history, flags, v) == None
      case Some((_, attrs)) =>
        LastFlags(history, flags, v).Some? && FlagsOf(attrs) == Some(LastFlags(history, flags, v).value & FLAGS)
  {
    layout.RunIsFlat(states, history, v);
    FlatFlags(history, flags, v);
  }

  /** arch_mmu_query with its flags; None stands for the panic on a memory type that it does not know. */
  method Query(a: AddressSpace, vaddr: nat) returns (r: Status, paddr: int, flags: Option<Word>)
    requires a.Valid() && a.layout.base <= a.asBase && a.asBase + a.asSize <= a.layout.base + a.layout.Size()
    ensures a.asBase <= vaddr < a.asBase + a.asSize ==>
      match a.layout.Translate(a.Now(), vaddr)
      case None => r == ErrNotFound
      case Some((pa, attrs)) => r == NoError && paddr == pa && flags == FlagsOf(attrs)
  {
    var attrs;
    r, paddr, attrs := a.Query(vaddr);
    flags := FlagsOf(attrs);
  }

  /** Mapping and querying: the address comes back with its offset, and the flags as they were given. */
  method MapThenQuery(a: AddressSpace, vaddr: nat, paddr: nat, size: nat, given: Word, v: nat)
    returns (mapped: Status, r: Status, pa: int, flags: Option<Word>)
    requires a.Valid() && a.layout.base <= a.asBase && a.asBase + a.asSize <= a.layout.base + a.layout.Size()
    requires vaddr < TWO64 && size < TWO64 && ValidCacheMode(given)
    requires vaddr <= v < vaddr + size && a.asBase <= v < a.asBase + a.asSize
    modifies a
    ensures mapped == NoError ==> r == NoError && pa == paddr + (v - vaddr) && flags == Some(given & FLAGS)
  {
    AttributesBack(given);
    mapped := a.Map(vaddr, paddr, size, Attributes(given));
    r, pa, flags := Query(a, v);
  }
}
