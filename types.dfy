/** Fixed-width machine integers used by the emulator's system core. */
module Types {

  /** C `uint8_t` where the source does arithmetic on it (wrap-around is written out). */
  newtype uint8 = x: int | 0 <= x < 0x100

  /** C `uint16_t`: bus addresses. */
  newtype uint16 = x: int | 0 <= x < 0x1_0000

  /** C `int16_t`: the signed cycle countdowns. */
  newtype int16 = x: int | -0x8000 <= x < 0x8000

  /** The register value with only bit `i` set (`1 << i`). */
  function Mask(i: nat): bv8
    requires i < 8
  {
    match i
    case 0 => 0x01 case 1 => 0x02 case 2 => 0x04 case 3 => 0x08
    case 4 => 0x10 case 5 => 0x20 case 6 => 0x40 case 7 => 0x80
  }

  /** Bit `i` of a register, as the source tests it with `(x >> i) & 0x01`. */
  predicate Bit(x: bv8, i: nat)
    requires i < 8
  {
    x & Mask(i) != 0
  }

  /** `Bit` is the source's shift-and-mask test, one bit at a time. */
  lemma BitMatchesShift(x: bv8, i: nat)
    requires i < 8
    ensures Bit(x, i) <==> (x >> i) & 1 == 1
  {
    match i
    case 0 => case 1 => case 2 => case 3 =>
    case 4 => case 5 => case 6 => case 7 =>
  }

  /** `Mask(i)` is one of the eight one-bit values. */
  lemma MaskOneHot(i: nat)
    requires i < 8
    ensures var m := Mask(i);
      m == 0x01 || m == 0x02 || m == 0x04 || m == 0x08 || m == 0x10 || m == 0x20 || m == 0x40 || m == 0x80
  {
  }

  /** Bit `i` of an AND is the AND of the bits. */
  lemma BitAnd(x: bv8, y: bv8, i: nat)
    requires i < 8
    ensures Bit(x & y, i) <==> Bit(x, i) && Bit(y, i)
  {
    MaskOneHot(i);
  }

  /** Bit `i` of a complement is the complement of the bit. */
  lemma BitNot(x: bv8, i: nat)
    requires i < 8
    ensures Bit(!x, i) <==> !Bit(x, i)
  {
    MaskOneHot(i);
  }

  /** The 64 KiB address space as seen by a forced (unarbitrated) bus read. */
  type Memory = m: seq<bv8> | |m| == 0x1_0000 witness seq(0x1_0000, _ => 0)

  /** Truncation of a C `int` address to the `uint16_t` the bus takes. */
  function Address(a: int): (r: uint16)
    requires 0 <= a
    ensures a < 0x1_0000 ==> r as int == a
    ensures (a - r as int) % 0x1_0000 == 0
  {
    (a % 0x1_0000) as uint16
  }
}
