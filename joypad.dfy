/**
 * The joypad: packing the host's key state into the button mask
 * (`sys_handle_joypads`), the key-press edge that raises the joypad interrupt,
 * and the nibble a read of the joypad register returns (`sys_read_joypad`).
 */
module Joypad {
  import opened Types
  import Hardware

  /**
   * The host keyboard state of the eight mapped keys, one byte each as the
   * host reports it (bit 0 set while the key is held down).
   */
  datatype Keys = Keys(down: bv8, up: bv8, left: bv8, right: bv8, enter: bv8, space: bv8, s: bv8, a: bv8)

  /** The key behind bit `i` of the button mask: Down, Up, Left, Right, Return, Space, S, A at bits 7 to 0. */
  function KeyAt(keys: Keys, i: nat): bv8
    requires i < 8
  {
    match i
    case 7 => keys.down case 6 => keys.up case 5 => keys.left case 4 => keys.right
    case 3 => keys.enter case 2 => keys.space case 1 => keys.s case 0 => keys.a
  }

  predicate Pressed(keys: Keys, i: nat)
    requires i < 8
  {
    KeyAt(keys, i) & 1 == 1
  }

  /** The button mask: active low, bit `i` is 1 exactly when key `i` is not pressed. */
  function Pack(keys: Keys): (r: bv8)
    ensures forall i: nat :: i < 8 ==> (Bit(r, i) <==> !Pressed(keys, i))
  {
    0
    | ((!keys.down & 0x01) << 7)
    | ((!keys.up & 0x01) << 6)
    | ((!keys.left & 0x01) << 5)
    | ((!keys.right & 0x01) << 4)
    | ((!keys.enter & 0x01) << 3)
    | ((!keys.space & 0x01) << 2)
    | ((!keys.s & 0x01) << 1)
    | ((!keys.a & 0x01) << 0)
  }

  /** Some bit is 1 in the previous mask and 0 in the new one. */
  predicate PressEdge(previous: bv8, current: bv8) {
    previous & !current != 0
  }

  /** A non-zero register has a set bit. */
  lemma NonZeroHasBit(x: bv8)
    requires x != 0
    ensures exists i: nat :: i < 8 && Bit(x, i)
  {
    if Bit(x, 0) {} else if Bit(x, 1) {} else if Bit(x, 2) {} else if Bit(x, 3) {}
    else if Bit(x, 4) {} else if Bit(x, 5) {} else if Bit(x, 6) {} else { assert Bit(x, 7); }
  }

  /** `PressEdge` is the bitwise form of "some bit went from 1 to 0". */
  lemma PressEdgeAt(previous: bv8, current: bv8)
    ensures PressEdge(previous, current) <==> exists i: nat :: i < 8 && Bit(previous, i) && !Bit(current, i)
  {
    var edges := previous & !current;
    if edges != 0 {
      NonZeroHasBit(edges);
      var i: nat :| i < 8 && Bit(edges, i);
      BitAnd(previous, !current, i);
      BitNot(current, i);
    } else {
      forall i: nat | i < 8 ensures !(Bit(previous, i) && !Bit(current, i)) {
        BitAnd(previous, !current, i);
        BitNot(current, i);
      }
    }
  }

  /** In key terms, an edge is a key that was up at the previous poll and is down now. */
  lemma PressEdgeIsKeyPress(previous: bv8, keys: Keys)
    ensures PressEdge(previous, Pack(keys)) <==> exists i: nat :: i < 8 && Bit(previous, i) && Pressed(keys, i)
  {
    PressEdgeAt(previous, Pack(keys));
  }

  /** Bit `i` of the high nibble, shifted down, is bit `i + 4` of the mask. */
  lemma HighNibbleBit(b: bv8, i: nat)
    requires i < 4
    ensures Bit(b >> 4, i) <==> Bit(b, i + 4)
  {
    var m, n := Mask(i), Mask(i + 4);
    assert (m, n) == (0x01, 0x10) || (m, n) == (0x02, 0x20) || (m, n) == (0x04, 0x40) || (m, n) == (0x08, 0x80);
  }

  /** The low four bits of 0x0F are set. */
  lemma LowNibbleSet(i: nat)
    requires i < 4
    ensures Bit(0x0F, i)
  {
    MaskOneHot(i);
    assert Mask(i) < 0x10;
  }

  /** The direction group is selected in the joypad register. */
  predicate DpadSelected(select: bv8, cfg: Hardware.Config) {
    select & cfg.joyDpad != 0
  }

  /** The button group is selected in the joypad register. */
  predicate ButtonsSelected(select: bv8, cfg: Hardware.Config) {
    select & cfg.joyButtons != 0
  }

  /**
   * `sys_read_joypad`: start from 0x0F and AND in the high nibble of the mask
   * when the direction group is selected, the low nibble when the button group
   * is selected. Only the low four bits can be set.
   */
  function Read(select: bv8, buttons: bv8, cfg: Hardware.Config): (r: bv8)
    ensures r <= 0x0F
  {
    var result: bv8 := 0x0F;
    var result := if DpadSelected(select, cfg) then result & (buttons >> 4) else result;
    if ButtonsSelected(select, cfg) then result & (buttons & 0x0F) else result
  }

  /**
   * Line `i` of a joypad read is 1 unless a selected group has bit `i` of its
   * nibble clear (a pressed key, in the active-low mask).
   */
  lemma ReadBit(select: bv8, buttons: bv8, cfg: Hardware.Config, i: nat)
    requires i < 4
    ensures Bit(Read(select, buttons, cfg), i) <==>
      (!DpadSelected(select, cfg) || Bit(buttons, i + 4)) && (!ButtonsSelected(select, cfg) || Bit(buttons, i))
  {
    var dpad: bv8 := if DpadSelected(select, cfg) then 0x0F & (buttons >> 4) else 0x0F;
    assert Read(select, buttons, cfg) == if ButtonsSelected(select, cfg) then dpad & (buttons & 0x0F) else dpad;
    LowNibbleSet(i);
    HighNibbleBit(buttons, i);
    BitAnd(0x0F, buttons >> 4, i);
    BitAnd(buttons, 0x0F, i);
    BitAnd(dpad, buttons & 0x0F, i);
  }

  /**
   * Read through the packing: line `i` of the joypad register reads 0 exactly
   * when a selected group has its key `i` pressed.
   */
  lemma ReadReportsPressedKeys(select: bv8, keys: Keys, cfg: Hardware.Config, i: nat)
    requires i < 4
    ensures !Bit(Read(select, Pack(keys), cfg), i) <==>
      (DpadSelected(select, cfg) && Pressed(keys, i + 4)) || (ButtonsSelected(select, cfg) && Pressed(keys, i))
  {
    ReadBit(select, Pack(keys), cfg, i);
  }

  /**
   * The four selections: none reads 0x0F, the direction group alone its high
   * nibble, the button group alone its low nibble, both the AND of the two.
   */
  lemma ReadByGroup(select: bv8, buttons: bv8, cfg: Hardware.Config)
    ensures !DpadSelected(select, cfg) && !ButtonsSelected(select, cfg) ==> Read(select, buttons, cfg) == 0x0F
    ensures DpadSelected(select, cfg) && !ButtonsSelected(select, cfg) ==> Read(select, buttons, cfg) == buttons >> 4
    ensures !DpadSelected(select, cfg) && ButtonsSelected(select, cfg) ==> Read(select, buttons, cfg) == buttons & 0x0F
    ensures DpadSelected(select, cfg) && ButtonsSelected(select, cfg) ==> Read(select, buttons, cfg) == (buttons >> 4) & (buttons & 0x0F)
  {
  }
}
