/**
 * The constants the system core reads from its headers. Their values are not
 * fixed here: a `Config` carries them, and `Valid` states what the core relies on.
 */
module Hardware {
  import opened Types

  datatype Config = Config(
    divInterval: int,          // SYS_DIV_INTERVAL: cycles per divider increment
    timerCycles4096Hz: int,    // SYS_TIMER_CYCLES_4096HZ
    timerCycles262144Hz: int,  // SYS_TIMER_CYCLES_262144HZ
    timerCycles65536Hz: int,   // SYS_TIMER_CYCLES_65536HZ
    timerCycles16384Hz: int,   // SYS_TIMER_CYCLES_16384HZ
    dmaLength: int,            // SYS_DMA_LENGTH: bytes per OAM transfer
    timerEnabled: bv8,         // SYS_TIMER_ENABLED: enable bit of SYS_TIMER_CFG
    joyDpad: bv8,              // JOY_DPAD: direction-group select bit of SYS_JOYPAD
    joyButtons: bv8,           // JOY_BUTTONS: button-group select bit of SYS_JOYPAD
    intTimer: bv8,             // INT_TIMER: timer bit of SYS_IF
    intJoypad: bv8,            // INT_JOYPAD: joypad bit of SYS_IF
    cartRomOnly: uint8,        // CT_ROMONLY
    mbc1Mode2048x8: uint8)     // MBC1_2048_8
  {
    /** Positive intervals that fit the `int16_t` counters, and a transfer that fits a `uint8_t` counter. */
    predicate Valid() {
      0 < divInterval < 0x8000 &&
      0 < timerCycles4096Hz < 0x8000 && 0 < timerCycles262144Hz < 0x8000 &&
      0 < timerCycles65536Hz < 0x8000 && 0 < timerCycles16384Hz < 0x8000 &&
      1 <= dmaLength <= 255
    }

    /** `sys_timer_interval_list`: the timer period for each 2-bit frequency select, in table order. */
    function TimerIntervalList(): (t: seq<int16>)
      requires Valid()
      ensures |t| == 4
      ensures forall k :: 0 <= k < 4 ==> 0 < t[k]
      ensures t[0] as int == timerCycles4096Hz && t[1] as int == timerCycles262144Hz
      ensures t[2] as int == timerCycles65536Hz && t[3] as int == timerCycles16384Hz
    {
      [timerCycles4096Hz as int16, timerCycles262144Hz as int16,
       timerCycles65536Hz as int16, timerCycles16384Hz as int16]
    }
  }
}
