/**
 * The memory handler (`struct eaarlio_memory`, memory_support.c).
 *
 * A handler is modelled by which of its four operations are present and by an
 * allocation budget: every malloc, calloc or realloc request is granted while the
 * budget is positive and takes one unit of it; free gives nothing back but is counted,
 * so that what a caller releases can be compared with what it was granted.
 */
module Memories {
  import opened Bytes

  class Memory {
    const hasMalloc: bool
    const hasFree: bool
    const hasRealloc: bool
    const hasCalloc: bool
    /** Number of allocation requests the handler will still grant. */
    var budget: nat
    /** Number of non-NULL blocks handed back to `free`. */
    var released: nat

    constructor (hasMalloc: bool, hasFree: bool, hasRealloc: bool, hasCalloc: bool, budget: nat)
      ensures this.hasMalloc == hasMalloc && this.hasFree == hasFree
      ensures this.hasRealloc == hasRealloc && this.hasCalloc == hasCalloc
      ensures this.budget == budget && released == 0
    {
      this.hasMalloc := hasMalloc;
      this.hasFree := hasFree;
      this.hasRealloc := hasRealloc;
      this.hasCalloc := hasCalloc;
      this.budget := budget;
      released := 0;
    }

    /** `malloc(size)`: a fresh byte buffer, or null once the budget is spent. */
    method Malloc(size: nat) returns (a: array?<Byte>)
      requires hasMalloc
      modifies this`budget
      ensures old(budget) > 0 ==> a != null && fresh(a) && a.Length == size && budget == old(budget) - 1
      ensures old(budget) == 0 ==> a == null && budget == 0
    {
      if budget == 0 {
        return null;
      }
      a := new Byte[size];
      budget := budget - 1;
    }

    /** `calloc(size, 1)`: a fresh zero-filled byte buffer, or null once the budget is spent. */
    method Calloc(size: nat) returns (a: array?<Byte>)
      requires hasCalloc
      modifies this`budget
      ensures old(budget) > 0 ==> a != null && fresh(a) && a.Length == size && budget == old(budget) - 1
      ensures old(budget) > 0 ==> forall i | 0 <= i < size :: a[i] == 0
      ensures old(budget) == 0 ==> a == null && budget == 0
    {
      if budget == 0 {
        return null;
      }
      a := new Byte[size](_ => 0);
      budget := budget - 1;
    }

    /** `realloc(a, size)`: a fresh buffer that keeps the common prefix of `a`, or null once the budget is spent. */
    method Realloc(a: array<Byte>, size: nat) returns (b: array?<Byte>)
      requires hasRealloc
      modifies this`budget
      ensures old(budget) > 0 ==> b != null && fresh(b) && b.Length == size && budget == old(budget) - 1
      ensures old(budget) > 0 && size <= a.Length ==> b[..] == a[..size]
      ensures old(budget) > 0 && a.Length < size ==> b[..a.Length] == a[..]
      ensures old(budget) == 0 ==> b == null && budget == 0
    {
      if budget == 0 {
        return null;
      }
      b := new Byte[size](i reads a => if 0 <= i < a.Length then a[i] else 0);
      budget := budget - 1;
    }

    /** `free(ptr)` on a non-NULL block: the block is released and the budget stays as it was. */
    method Free()
      requires hasFree
      modifies this`released
      ensures released == old(released) + 1
    {
      released := released + 1;
    }

    /**
     * An allocation of a block the model keeps as a value (a pulse array, a waveform
     * copy, a filename table): the request succeeds exactly when `malloc`/`calloc` would.
     */
    method Reserve() returns (ok: bool)
      modifies this`budget
      ensures ok <==> old(budget) > 0
      ensures budget == if ok then old(budget) - 1 else old(budget)
    {
      ok := budget > 0;
      if ok {
        budget := budget - 1;
      }
    }
  }

  /** `eaarlio_memory_valid`: a handler exists and all four of its operations are present. */
  predicate MemoryValid(m: Memory?): (ok: bool)
    ensures ok ==> m != null
  {
    m != null && m.hasMalloc && m.hasFree && m.hasRealloc && m.hasCalloc
  }
}
