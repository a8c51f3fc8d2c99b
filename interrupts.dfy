/** The interrupt request register (`SYS_IF`): set and clear by mask. */
module Interrupts {
  import opened Types

  /** `sys_interrupt_req`: OR the mask into the flags. */
  function Request(flags: bv8, mask: bv8): (r: bv8)
    ensures r & mask == mask
    ensures r & !mask == flags & !mask
  {
    flags | mask
  }

  /** `sys_interrupt_clear`: AND the flags with the complement of the mask. */
  function Clear(flags: bv8, mask: bv8): (r: bv8)
    ensures r & mask == 0
    ensures r & !mask == flags & !mask
  {
    flags & !mask
  }

  /** Bit `i` is requested afterwards exactly when it was requested before or is in the mask. */
  lemma RequestPerBit(flags: bv8, mask: bv8, i: nat)
    requires i < 8
    ensures Bit(Request(flags, mask), i) == (Bit(flags, i) || Bit(mask, i))
  {
  }

  /** Bit `i` is requested afterwards exactly when it was requested before and is not in the mask. */
  lemma ClearPerBit(flags: bv8, mask: bv8, i: nat)
    requires i < 8
    ensures Bit(Clear(flags, mask), i) == (Bit(flags, i) && !Bit(mask, i))
  {
  }

  /** Requesting or clearing the same mask twice is the same as doing it once. */
  lemma Idempotent(flags: bv8, mask: bv8)
    ensures Request(Request(flags, mask), mask) == Request(flags, mask)
    ensures Clear(Clear(flags, mask), mask) == Clear(flags, mask)
  {
  }

  /** A clear undoes a request of the same mask on the bits it sets, and the reverse. */
  lemma ClearUndoesRequest(flags: bv8, mask: bv8)
    ensures Clear(Request(flags, mask), mask) == Clear(flags, mask)
    ensures Request(Clear(flags, mask), mask) == Request(flags, mask)
  {
  }

  /**
   * Requests accumulate: after requesting `a` then `b` (disjoint masks), both
   * are set; clearing `a` afterwards removes the bits of `a` and keeps those of `b`.
   */
  lemma Accumulate(flags: bv8, a: bv8, b: bv8)
    requires a & b == 0
    ensures Request(Request(flags, a), b) & a == a && Request(Request(flags, a), b) & b == b
    ensures Clear(Request(Request(flags, a), b), a) & a == 0
    ensures Clear(Request(Request(flags, a), b), a) & b == b
  {
  }

  /** Neither the two requests nor the clear touch bits outside `a` and `b`. */
  lemma AccumulateKeepsOthers(flags: bv8, a: bv8, b: bv8)
    ensures Clear(Request(Request(flags, a), b), a) & !(a | b) == flags & !(a | b)
  {
  }
}
