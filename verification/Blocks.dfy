/**
 Cutting an address range into blocks of equal size, as the shifts and masks of
 arch/arm64/mmu.c do, without products: a block size is only ever added or subtracted.
 */
module Blocks {

  type pos = n: nat | 0 < n witness 1

  /** v >> index_shift, for blocks of size b. */
  function Slot(v: nat, b: pos): nat
    decreases v
  {
    if v < b then 0 else 1 + Slot(v - b, b)
  }

  /** v & block_mask, for blocks of size b. */
  function Rem(v: nat, b: pos): (r: nat)
    ensures r < b
    decreases v
  {
    if v < b then v else Rem(v - b, b)
  }

  /** index << index_shift: where slot i begins. */
  function Start(i: nat, b: pos): nat {
    if i == 0 then 0 else Start(i - 1, b) + b
  }

  lemma {:induction false} SlotBounds(v: nat, b: pos)
    ensures Start(Slot(v, b), b) + Rem(v, b) == v && Rem(v, b) < b
    decreases v
  {
    if v >= b {
      SlotBounds(v - b, b);
    }
  }

  lemma {:induction false} SlotUnique(v: nat, i: nat, b: pos)
    requires Start(i, b) <= v < Start(i, b) + b
    ensures Slot(v, b) == i && Rem(v, b) == v - Start(i, b)
    decreases i
  {
    if i > 0 {
      SlotUnique(v - b, i - 1, b);
    }
  }

  lemma {:induction false} StartMonotone(i: nat, j: nat, b: pos)
    requires i < j
    ensures Start(i, b) + b <= Start(j, b)
    decreases j
  {
    if i < j - 1 {
      StartMonotone(i, j - 1, b);
    }
  }

  /** Slot, Rem and Start are the quotient, the remainder and the product. */
  lemma {:induction false} StartIsProduct(i: nat, b: pos)
    ensures Start(i, b) == i * b
  {
    if i > 0 {
      StartIsProduct(i - 1, b);
      assert i * b == (i - 1) * b + b;
    }
  }

  lemma SlotIsQuotient(v: nat, b: pos)
    ensures Slot(v, b) == v / b && Rem(v, b) == v % b
  {
    StartIsProduct(v / b, b);
    SlotUnique(v, v / b, b);
  }

  // ---- alignment ----------------------------------------------------------------------------

  predicate Aligned(x: nat, page: pos) {
    Rem(x, page) == 0
  }

  lemma {:induction false} AlignedSum(x: nat, y: nat, page: pos)
    requires Aligned(x, page)
    ensures Aligned(x + y, page) <==> Aligned(y, page)
    decreases x
  {
    if x >= page {
      AlignedSum(x - page, y, page);
      assert Rem(x + y, page) == Rem(x + y - page, page);
    }
  }

  lemma {:induction false} AlignedStart(i: nat, b: pos, page: pos)
    requires Aligned(b, page)
    ensures Aligned(Start(i, b), page)
  {
    if i > 0 {
      AlignedStart(i - 1, b, page);
      AlignedSum(Start(i - 1, b), b, page);
    }
  }

  /** Cutting at block boundaries keeps page alignment when a block is a number of pages. */
  lemma AlignedRem(x: nat, b: pos, page: pos)
    requires Aligned(x, page) && Aligned(b, page)
    ensures Aligned(Rem(x, b), page)
  {
    SlotBounds(x, b);
    AlignedStart(Slot(x, b), b, page);
    AlignedSum(Start(Slot(x, b), b), Rem(x, b), page);
  }

  lemma AlignedDifference(x: nat, y: nat, page: pos)
    requires Aligned(x, page) && Aligned(y, page) && x <= y
    ensures Aligned(y - x, page)
  {
    AlignedSum(x, y - x, page);
  }

  // ---- the loops over blocks ------------------------------------------------------------------

  /** chunk_size: the rest of the block at offset rem, or of the range if that ends first. */
  function Chunk(left: nat, rem: nat, b: pos): (c: nat)
    requires rem < b
    ensures left > 0 ==> 0 < c <= left
  {
    if left < b - rem then left else b - rem
  }

  /** The chunk at cur begins at offset rem of its block, and ends with the block or with the
      range, whichever comes first. */
  ghost predicate InSlot(cur: nat, left: nat, b: pos, rem: nat, chunk: nat) {
    left > 0 && rem == Rem(cur, b) && chunk == Chunk(left, rem, b)
  }

  /** The first lines of the loops of arm64_mmu_unmap_pt and arm64_mmu_map_pt, on a range inside
      n blocks; next is any slot that might begin at cur. */
  method NextChunk(cur: nat, left: nat, b: pos, ghost n: nat, ghost next: nat)
    returns (index: nat, rem: nat, chunk: nat)
    requires left > 0 && cur + left <= Start(n, b)
    ensures index < n && cur == Start(index, b) + rem
    ensures 0 < chunk <= left && rem + chunk <= b
    ensures chunk < left ==> cur + chunk == Start(index + 1, b)
    ensures cur == Start(next, b) ==> rem == 0
    ensures InSlot(cur, left, b, rem, chunk) && index == Slot(cur, b)
  {
    rem := Rem(cur, b);
    index := Slot(cur, b);
    SlotBounds(cur, b);
    chunk := Chunk(left, rem, b);
    if n < index {
      StartMonotone(n, index, b);
    }
    if cur == Start(next, b) {
      SlotUnique(cur, next, b);
    }
  }

  /** Chunks of an aligned range are aligned, and at page level they are whole pages. */
  lemma AlignedChunk(cur: nat, left: nat, b: pos, page: pos, rem: nat, chunk: nat)
    requires Aligned(cur, page) && Aligned(left, page) && Aligned(b, page)
    requires InSlot(cur, left, b, rem, chunk)
    ensures Aligned(rem, page) && Aligned(chunk, page)
    ensures b == page ==> rem == 0 && chunk == b
  {
    AlignedRem(cur, b, page);
    AlignedDifference(rem, b, page);
  }
}
