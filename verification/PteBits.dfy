/**
 The bits of a leaf descriptor (arch/arm64/include/arch/arm64/mmu.h) and their meaning as mapping flags
 (include/arch/mmu.h): what arch_mmu_map writes, arch_mmu_query reads back.
 */
module PteBits {
  import opened Common

  type Word = bv64

  const DESCRIPTOR_MASK: Word := 3
  const BLOCK: Word := 1
  const PAGE: Word := 3
  const OUTPUT_ADDR_MASK: Word := 0x0000_ffff_ffff_f000

  const UXN: Word := 0x0040_0000_0000_0000
  const PXN: Word := 0x0020_0000_0000_0000
  const AF: Word := 0x400
  const SH_INNER: Word := 0x300
  const AP_MASK: Word := 0xc0
  const AP_RW_U_RW: Word := 0x40
  const AP_RO_U_NA: Word := 0x80
  const AP_RO_U_RO: Word := 0xc0
  const NON_SECURE: Word := 0x20
  const ATTR_INDEX_MASK: Word := 0x1c
  const STRONGLY_ORDERED: Word := 0
  const DEVICE: Word := 4
  const NORMAL_MEMORY: Word := 8

  const FLAG_UNCACHED: Word := 1
  const FLAG_DEVICE: Word := 2
  const FLAG_CACHE_MASK: Word := 3
  const FLAG_USER: Word := 4
  const FLAG_RO: Word := 8
  const FLAG_NO_EXECUTE: Word := 0x10
  const FLAG_NS: Word := 0x20
  const FLAGS: Word := 0x3f

  /** ERR_INVALID_ARGS, converted to an unsigned 64-bit value. */
  const MINUS_EIGHT: Word := 0xffff_ffff_ffff_fff8

  function CacheBits(flags: Word): Word {
    if flags & FLAG_CACHE_MASK == 0 then NORMAL_MEMORY | SH_INNER
    else if flags & FLAG_CACHE_MASK == FLAG_UNCACHED then STRONGLY_ORDERED
    else DEVICE
  }

  function AccessBits(flags: Word): Word {
    if flags & (FLAG_USER | FLAG_RO) == 0 then 0
    else if flags & (FLAG_USER | FLAG_RO) == FLAG_RO then AP_RO_U_NA
    else if flags & (FLAG_USER | FLAG_RO) == FLAG_USER then AP_RW_U_RW
    else AP_RO_U_RO
  }

  /** mmu_flags_to_pte_attr: an invalid cache mode yields an error number instead of attributes. */
  function Attributes(flags: Word): Word {
    if flags & FLAG_CACHE_MASK == 3 then MINUS_EIGHT
    else
      AF | CacheBits(flags) | AccessBits(flags)
      | (if flags & FLAG_NO_EXECUTE != 0 then UXN | PXN else 0)
      | (if flags & FLAG_NS != 0 then NON_SECURE else 0)
  }

  /** What arm64_mmu_map_pt stores for a block or a page. */
  function Descriptor(paddr: Word, attrs: Word, kind: Word): Word {
    paddr | attrs | kind
  }

  /** The flags that arch_mmu_query reports; it panics on a memory type that it does not know. */
  function FlagsOf(pte: Word): Option<Word> {
    var ns := if pte & NON_SECURE != 0 then FLAG_NS else 0;
    var nx := if pte & UXN != 0 && pte & PXN != 0 then FLAG_NO_EXECUTE else 0;
    var access :=
      if pte & AP_MASK == 0 then 0
      else if pte & AP_MASK == AP_RW_U_RW then FLAG_USER
      else if pte & AP_MASK == AP_RO_U_NA then FLAG_RO
      else FLAG_USER | FLAG_RO;
    if pte & ATTR_INDEX_MASK == STRONGLY_ORDERED then Some(ns | FLAG_UNCACHED | access | nx)
    else if pte & ATTR_INDEX_MASK == DEVICE then Some(ns | FLAG_DEVICE | access | nx)
    else if pte & ATTR_INDEX_MASK == NORMAL_MEMORY then Some(ns | access | nx)
    else None
  }

  const ATTRIBUTE_BITS: Word := UXN | PXN | AP_MASK | NON_SECURE | ATTR_INDEX_MASK

  /** With a valid cache mode, attributes occupy none of the bits of the address or the kind. */
  lemma AttributesApart(flags: Word, attrs: Word)
    requires flags & FLAG_CACHE_MASK != 3 && attrs == Attributes(flags)
    ensures attrs & (OUTPUT_ADDR_MASK | DESCRIPTOR_MASK) == 0
  {
  }

  /** They always set the access flag, without which the first access would fault, and share the line with
      the other processors exactly if it is cached. */
  lemma AccessAndSharing(flags: Word, attrs: Word)
    requires flags & FLAG_CACHE_MASK != 3 && attrs == Attributes(flags)
    ensures attrs & AF == AF
    ensures attrs & SH_INNER == if flags & FLAG_CACHE_MASK == 0 then SH_INNER else 0
    ensures attrs & !(ATTRIBUTE_BITS | AF | SH_INNER) == 0
  {
  }

  /** Then a descriptor gives back its kind, its address and its attributes, for any address within the
      48 bits. */
  lemma PartsBack(paddr: Word, attrs: Word, kind: Word, pte: Word)
    requires paddr & OUTPUT_ADDR_MASK == paddr && (kind == BLOCK || kind == PAGE)
    requires attrs & (OUTPUT_ADDR_MASK | DESCRIPTOR_MASK) == 0 && pte == Descriptor(paddr, attrs, kind)
    ensures pte & DESCRIPTOR_MASK == kind && pte & OUTPUT_ADDR_MASK == paddr
    ensures pte & ATTRIBUTE_BITS == attrs & ATTRIBUTE_BITS
  {
  }

  /** The address comes back if and only if it is one of 48 bits, aligned to 4 KB. */
  lemma AddressBackIff(paddr: Word, attrs: Word, kind: Word, pte: Word)
    requires kind == BLOCK || kind == PAGE
    requires attrs & (OUTPUT_ADDR_MASK | DESCRIPTOR_MASK) == 0 && pte == Descriptor(paddr, attrs, kind)
    ensures pte & OUTPUT_ADDR_MASK == paddr <==> paddr & OUTPUT_ADDR_MASK == paddr
  {
  }

  /** The flags that a descriptor stands for are those that its attributes stand for. */
  lemma FlagsOfDescriptor(paddr: Word, attrs: Word, kind: Word)
    requires paddr & OUTPUT_ADDR_MASK == paddr && (kind == BLOCK || kind == PAGE)
    ensures FlagsOf(Descriptor(paddr, attrs, kind)) == FlagsOf(attrs)
  {
    var pte := Descriptor(paddr, attrs, kind);
    assert pte & NON_SECURE == attrs & NON_SECURE && pte & UXN == attrs & UXN && pte & PXN == attrs & PXN;
    assert pte & AP_MASK == attrs & AP_MASK && pte & ATTR_INDEX_MASK == attrs & ATTR_INDEX_MASK;
  }

  /** And the attributes give back every combination of flags. */
  lemma FlagsBack(flags: Word, attrs: Word, pte: Word)
    requires flags & FLAG_CACHE_MASK != 3 && attrs == Attributes(flags)
    requires pte & ATTRIBUTE_BITS == attrs & ATTRIBUTE_BITS
    ensures FlagsOf(pte) == Some(flags & FLAGS)
  {
  }

  /** With the invalid cache mode the query panics on the descriptor. */
  lemma InvalidCacheMode(paddr: Word, flags: Word, kind: Word, attrs: Word, pte: Word)
    requires paddr & OUTPUT_ADDR_MASK == paddr && (kind == BLOCK || kind == PAGE)
    requires flags & FLAG_CACHE_MASK == 3 && attrs == Attributes(flags) && pte == Descriptor(paddr, attrs, kind)
    ensures FlagsOf(pte) == None
  {
    assert pte & ATTR_INDEX_MASK == 0x18;
  }
}
