/**
 * OAM DMA as `sys_dma_cycles` performs it: one byte per cycle from the bus,
 * read without access arbitration, into OAM at the transfer's byte counter.
 */
module Dma {
  import opened Types

  /** `cpu_read8_force`: a raw read of the bus at `addr`. */
  function ReadForce(mem: Memory, addr: uint16): bv8 {
    mem[addr as int]
  }

  /** The byte the transfer copies into OAM entry `k`: bus address `source + k`, truncated to 16 bits. */
  function SourceByte(mem: Memory, source: uint16, k: int): bv8
    requires 0 <= k
  {
    ReadForce(mem, Address(source as int + k))
  }

  /**
   * A transfer from the start of a 256-byte page never wraps the bus address:
   * entry `k` of the page is read from `source + k` itself.
   */
  lemma SourceWithinPage(source: uint16, k: int)
    requires source as int % 0x100 == 0 && 0 <= k < 0x100
    ensures Address(source as int + k) as int == source as int + k
  {
  }

  /**
   * How many bytes one call copies while busy, from byte counter `counter`:
   * one per cycle, and none after the counter reaches the transfer length.
   */
  function Copied(counter: int, cycles: int, length: int): (n: int)
    requires 0 <= counter < length
    ensures 0 <= n <= length - counter
    ensures cycles <= 0 ==> n == 0
    ensures 0 < cycles ==> n <= cycles && (n == cycles || n == length - counter)
  {
    if cycles <= 0 then 0
    else if cycles < length - counter then cycles
    else length - counter
  }

  /** OAM after copying `count` bytes, one at a time, starting at entry `from`. */
  function Transferred(oam: seq<bv8>, mem: Memory, source: uint16, from: int, count: int): (r: seq<bv8>)
    requires 0 <= from && 0 <= count && from + count <= |oam|
    ensures |r| == |oam|
    ensures forall k :: from <= k < from + count ==> r[k] == SourceByte(mem, source, k)
    ensures forall k :: 0 <= k < |oam| && !(from <= k < from + count) ==> r[k] == oam[k]
    decreases count
  {
    if count == 0 then oam
    else Transferred(oam[from := SourceByte(mem, source, from)], mem, source, from + 1, count - 1)
  }

  /** Copying one more byte extends a transfer by exactly the next entry. */
  lemma TransferredNext(oam: seq<bv8>, mem: Memory, source: uint16, from: int, count: int)
    requires 0 <= from && 0 <= count && from + count < |oam|
    ensures Transferred(oam, mem, source, from, count + 1)
         == Transferred(oam, mem, source, from, count)[from + count := SourceByte(mem, source, from + count)]
  {
  }

  /**
   * A transfer split over several calls copies the same bytes as one call
   * covering the same entries.
   */
  lemma TransferredSplit(oam: seq<bv8>, mem: Memory, source: uint16, from: int, n1: int, n2: int)
    requires 0 <= from && 0 <= n1 && 0 <= n2 && from + n1 + n2 <= |oam|
    ensures Transferred(Transferred(oam, mem, source, from, n1), mem, source, from + n1, n2)
         == Transferred(oam, mem, source, from, n1 + n2)
  {
  }

  /** A whole transfer from counter 0 leaves the first `length` OAM entries equal to the source block. */
  lemma WholeTransfer(oam: seq<bv8>, mem: Memory, source: uint16, length: int)
    requires 0 <= length <= |oam|
    ensures Transferred(oam, mem, source, 0, length)[..length] == seq(length, k requires 0 <= k => SourceByte(mem, source, k))
    ensures Transferred(oam, mem, source, 0, length)[length..] == oam[length..]
  {
  }
}
