/**
 * The system core of the emulator as one object: the file-scope state of
 * `sys.c` and the memory-mapped I/O registers it reads and writes, with the
 * operations that advance time, step OAM DMA, poll the joypad and set or
 * clear interrupt requests.
 */
module System {
  import opened Types
  import Hardware
  import Clock
  import Dma
  import Joypad
  import Interrupts

  /** The I/O registers the core shares with the memory subsystem, as it finds them at start-up. */
  datatype Registers = Registers(div: uint8, timer: uint8, timerMod: uint8, timerCfg: bv8, interruptFlags: bv8, joypad: bv8)

  class Sys {
    const cfg: Hardware.Config
    /** Sprite-attribute memory, owned by the memory subsystem; DMA writes into it. */
    const oam: array<bv8>

    // Cartridge-mapper configuration: only `sys_init` assigns it here.
    var cartType: uint8
    var mbc1Mode: uint8
    var romSize: uint8
    var extMemEnabled: uint8
    var romBank: uint8
    var ramBank: uint8

    var divCycles: int16      // cycles left until the next divider increment
    var timerCycles: int16    // cycles left until the next timer increment
    var timerInterval: int16  // cycles per timer increment, one of the table's entries
    var buttonsAll: bv8       // packed joypad mask, active low
    var dmaSource: uint16
    var dmaCounter: uint8
    var dmaBusy: bool

    var div: uint8            // SYS_DIV
    var timer: uint8          // SYS_TIMER
    var timerMod: uint8       // SYS_TIMER_MOD
    var timerCfg: bv8         // SYS_TIMER_CFG
    var interruptFlags: bv8   // SYS_IF
    var joypad: bv8           // SYS_JOYPAD

    /**
     * The constants are usable, OAM holds a whole transfer, the DMA counter is
     * short of the transfer length, the divider countdown never exceeds one
     * interval and the timer period is an entry of the frequency table.
     */
    ghost predicate Valid()
      reads this
    {
      cfg.Valid() && cfg.dmaLength <= oam.Length &&
      dmaCounter as int < cfg.dmaLength &&
      divCycles as int <= cfg.divInterval &&
      timerInterval in cfg.TimerIntervalList()
    }

    /** The divider countdown and register, as one value. */
    ghost function DivState(): Clock.Counter
      reads this
    {
      Clock.Counter(divCycles as int, div)
    }

    /** The timer countdown, register and the interrupt flags, as one value. */
    ghost function TimerState(): Clock.Timer
      reads this
    {
      Clock.Timer(timerCycles as int, timer, interruptFlags)
    }

    /** Whether the enable bit of the timer control register is set. */
    predicate TimerOn()
      reads this
    {
      timerCfg & cfg.timerEnabled != 0
    }

    /**
     * `sys_read_joypad`: the value a read of the joypad register returns, from
     * the select bits last written to it and the current button mask.
     */
    function ReadJoypad(): (r: bv8)
      reads this
      ensures r <= 0x0F
      ensures !Joypad.DpadSelected(joypad, cfg) && !Joypad.ButtonsSelected(joypad, cfg) ==> r == 0x0F
    {
      Joypad.Read(joypad, buttonsAll, cfg)
    }

    /** `sys_init`: every field of the core gets its fixed starting value. */
    constructor Init(cfg: Hardware.Config, oam: array<bv8>, io: Registers)
      requires cfg.Valid() && cfg.dmaLength <= oam.Length
      ensures Valid()
      ensures this.cfg == cfg && this.oam == oam
      ensures cartType == cfg.cartRomOnly && mbc1Mode == cfg.mbc1Mode2048x8
      ensures romSize == 0 && extMemEnabled == 0 && romBank == 0 && ramBank == 0
      ensures divCycles as int == cfg.divInterval
      ensures timerCycles as int == cfg.timerCycles4096Hz && timerInterval as int == cfg.timerCycles4096Hz
      ensures buttonsAll == 0
      ensures dmaSource == 0 && dmaCounter == 0 && !dmaBusy
      ensures Registers(div, timer, timerMod, timerCfg, interruptFlags, joypad) == io
    {
      this.cfg, this.oam := cfg, oam;
      cartType, mbc1Mode := cfg.cartRomOnly, cfg.mbc1Mode2048x8;
      romSize, extMemEnabled, romBank, ramBank := 0, 0, 0, 0;
      divCycles := cfg.divInterval as int16;
      timerCycles := cfg.timerCycles4096Hz as int16;
      timerInterval := cfg.timerCycles4096Hz as int16;
      buttonsAll := 0;
      dmaSource, dmaCounter, dmaBusy := 0, 0, false;
      div, timer, timerMod, timerCfg, interruptFlags, joypad :=
        io.div, io.timer, io.timerMod, io.timerCfg, io.interruptFlags, io.joypad;
      new;
      assert cfg.TimerIntervalList()[0] == timerInterval;
    }

    /** `sys_interrupt_req`: set the bits of `mask` in the interrupt flags. */
    method InterruptReq(mask: bv8)
      modifies this`interruptFlags
      ensures interruptFlags == Interrupts.Request(old(interruptFlags), mask)
    {
      interruptFlags := interruptFlags | mask;
    }

    /** `sys_interrupt_clear`: clear the bits of `mask` in the interrupt flags. */
    method InterruptClear(mask: bv8)
      modifies this`interruptFlags
      ensures interruptFlags == Interrupts.Clear(old(interruptFlags), mask)
    {
      interruptFlags := interruptFlags & !mask;
    }

    /**
     * `sys_cycles`: advance the divider, and the timer when it is enabled, by
     * `cycles`. Each register increments at most once per call; a timer that
     * wraps reloads from the modulo register and requests the timer interrupt.
     */
    method Cycles(cycles: int)
      requires Valid()
      requires 0 <= cycles
      requires divCycles as int - cycles >= -0x8000
      requires TimerOn() ==> timerCycles as int - cycles >= -0x8000
      modifies this`divCycles, this`div, this`timerCycles, this`timer, this`interruptFlags
      ensures Valid()
      ensures DivState() == Clock.DivAdvance(old(DivState()), cycles, cfg.divInterval)
      ensures !TimerOn() ==> TimerState() == old(TimerState())
      ensures TimerOn() ==>
        TimerState() == Clock.TimerAdvance(old(TimerState()), cycles, timerInterval as int, timerMod, cfg.intTimer)
    {
      DivCycles(cycles);
      if TimerOn() {
        TimerCycles(cycles);
      }
    }

    /** The divider half of `sys_cycles`, which always runs. */
    method DivCycles(cycles: int)
      requires Valid()
      requires 0 <= cycles
      requires divCycles as int - cycles >= -0x8000
      modifies this`divCycles, this`div
      ensures Valid()
      ensures DivState() == Clock.DivAdvance(old(DivState()), cycles, cfg.divInterval)
    {
      divCycles := (divCycles as int - cycles) as int16;
      if divCycles <= 0 {
        div := Clock.Inc(div);
        divCycles := (cfg.divInterval + divCycles as int) as int16;
      }
    }

    /** The timer half of `sys_cycles`, run when the timer is enabled. */
    method TimerCycles(cycles: int)
      requires Valid()
      requires 0 <= cycles
      requires timerCycles as int - cycles >= -0x8000
      modifies this`timerCycles, this`timer, this`interruptFlags
      ensures Valid()
      ensures TimerState() == Clock.TimerAdvance(old(TimerState()), cycles, timerInterval as int, timerMod, cfg.intTimer)
    {
      timerCycles := (timerCycles as int - cycles) as int16;
      if timerCycles <= 0 {
        timerCycles := (timerInterval as int + timerCycles as int) as int16;
        timer := Clock.Inc(timer);
        if timer == 0 {
          timer := timerMod;
          InterruptReq(cfg.intTimer);
        }
      }
    }

    /**
     * `sys_dma_cycles`: while a transfer is busy, copy one byte per cycle from
     * the bus into OAM at the byte counter, stopping when the counter reaches
     * the transfer length; a finished transfer resets source, counter and busy.
     */
    method DmaCycles(cycles: int, mem: Memory)
      requires Valid()
      modifies this`dmaSource, this`dmaCounter, this`dmaBusy, oam
      ensures Valid()
      ensures !old(dmaBusy) ==>
        dmaSource == old(dmaSource) && dmaCounter == old(dmaCounter) && !dmaBusy && oam[..] == old(oam[..])
      ensures old(dmaBusy) ==>
        var n := Dma.Copied(old(dmaCounter) as int, cycles, cfg.dmaLength);
        oam[..] == Dma.Transferred(old(oam[..]), mem, old(dmaSource), old(dmaCounter) as int, n) &&
        if old(dmaCounter) as int + n == cfg.dmaLength then
          dmaSource == 0 && dmaCounter == 0 && !dmaBusy
        else
          dmaSource == old(dmaSource) && dmaCounter as int == old(dmaCounter) as int + n && dmaBusy
    {
      if dmaBusy {
        CopyBytes(cycles, mem);
        if dmaCounter as int == cfg.dmaLength {
          dmaSource, dmaCounter, dmaBusy := 0, 0, false;
        }
      }
    }

    /**
     * The `for` loop of `sys_dma_cycles`: copy one byte per cycle from
     * `source + counter` into OAM at the counter, stopping once the counter
     * reaches the transfer length.
     */
    method CopyBytes(cycles: int, mem: Memory)
      requires 1 <= cfg.dmaLength <= 255 && cfg.dmaLength <= oam.Length
      requires dmaCounter as int < cfg.dmaLength
      modifies this`dmaCounter, oam
      ensures dmaCounter as int == old(dmaCounter) as int + Dma.Copied(old(dmaCounter) as int, cycles, cfg.dmaLength)
      ensures oam[..] == Dma.Transferred(old(oam[..]), mem, dmaSource, old(dmaCounter) as int,
                                         Dma.Copied(old(dmaCounter) as int, cycles, cfg.dmaLength))
    {
      ghost var oam0, start := oam[..], dmaCounter as int;
      var i := 0;
      while i < cycles
        invariant 0 <= i && (i <= cycles || i == 0)
        invariant dmaCounter as int == start + i < cfg.dmaLength
        invariant oam[..] == Dma.Transferred(oam0, mem, dmaSource, start, i)
        decreases cycles - i
      {
        Dma.TransferredNext(oam0, mem, dmaSource, start, i);
        oam[dmaCounter] := Dma.ReadForce(mem, Address(dmaSource as int + dmaCounter as int));
        dmaCounter := dmaCounter + 1;
        if dmaCounter as int == cfg.dmaLength {
          assert oam[..] == Dma.Transferred(oam0, mem, dmaSource, start, i + 1);
          return;
        }
        i := i + 1;
      }
    }

    /**
     * `sys_handle_joypads`: pack the eight keys into the button mask, then
     * request the joypad interrupt once if some bit went from 1 to 0 (a key
     * went down), scanning from bit 0 and stopping at the first such bit.
     * `requests` counts the interrupt requests made.
     */
    method HandleJoypads(keys: Joypad.Keys) returns (ghost requests: nat)
      requires Valid()
      modifies this`buttonsAll, this`interruptFlags
      ensures Valid()
      ensures buttonsAll == Joypad.Pack(keys)
      ensures requests <= 1
      ensures requests == 1 <==> Joypad.PressEdge(old(buttonsAll), buttonsAll)
      ensures interruptFlags == if requests == 1 then Interrupts.Request(old(interruptFlags), cfg.intJoypad) else old(interruptFlags)
    {
      var previous := buttonsAll;
      buttonsAll := Joypad.Pack(keys);
      requests := 0;
      var i: nat := 0;
      while i < 8
        invariant i <= 8
        invariant forall j: nat :: j < i ==> !(Bit(previous, j) && !Bit(buttonsAll, j))
        invariant interruptFlags == old(interruptFlags) && requests == 0
      {
        if Bit(previous, i) && !Bit(buttonsAll, i) {
          InterruptReq(cfg.intJoypad);
          requests := requests + 1;
          break;
        }
        i := i + 1;
      }
      Joypad.PressEdgeAt(previous, buttonsAll);
    }
  }
}
