/**
 * The divider and the programmable timer of `sys_cycles`: each is a signed
 * countdown of cycles driving an 8-bit register. A countdown that reaches zero
 * or below increments its register once and is reloaded by adding the interval
 * to the (non-positive) remainder, so no cycles are lost across intervals.
 */
module Clock {
  import opened Types
  import Interrupts

  /** `SYS_DIV++` / `SYS_TIMER++` on a `uint8_t` register. */
  function Inc(v: uint8): (r: uint8)
    ensures r as int == (v as int + 1) % 0x100
  {
    if v == 0xFF then 0 else v + 1
  }

  /** Whether a countdown at `left` reaches zero or below when `cycles` are subtracted. */
  predicate Fires(left: int, cycles: int) {
    left - cycles <= 0
  }

  /** A countdown of cycles and the register it drives. */
  datatype Counter = Counter(left: int, value: uint8)

  /** One divider step of `sys_cycles`: at most one increment, remainder carried. */
  function DivAdvance(d: Counter, cycles: int, interval: int): (r: Counter)
    ensures r.left == d.left - cycles + (if Fires(d.left, cycles) then interval else 0)
    ensures r.value == if Fires(d.left, cycles) then Inc(d.value) else d.value
    ensures 0 <= cycles && d.left <= interval ==> r.left <= interval
    ensures 0 < interval && d.left - cycles > -interval ==> 0 < r.left
  {
    var left := d.left - cycles;
    if left <= 0 then Counter(interval + left, Inc(d.value)) else Counter(left, d.value)
  }

  /** The timer's countdown, its register and the interrupt request flags it may raise. */
  datatype Timer = Timer(left: int, value: uint8, flags: bv8)

  /**
   * One step of the enabled timer: on reaching zero or below the register
   * increments once; wrapping to zero reloads it from the modulo register and
   * requests the timer interrupt.
   */
  function TimerAdvance(t: Timer, cycles: int, interval: int, modulo: uint8, intTimer: bv8): (r: Timer)
    ensures r.left == t.left - cycles + (if Fires(t.left, cycles) then interval else 0)
    ensures !Fires(t.left, cycles) ==> r.value == t.value && r.flags == t.flags
    ensures Fires(t.left, cycles) && t.value < 0xFF ==> r.value as int == t.value as int + 1 && r.flags == t.flags
    ensures Fires(t.left, cycles) && t.value == 0xFF ==> r.value == modulo && r.flags == Interrupts.Request(t.flags, intTimer)
  {
    var left := t.left - cycles;
    if left > 0 then Timer(left, t.value, t.flags)
    else
      var v := Inc(t.value);
      if v == 0 then Timer(interval + left, modulo, Interrupts.Request(t.flags, intTimer))
      else Timer(interval + left, v, t.flags)
  }

  /** The total of a sequence of cycle counts. */
  function Sum(cs: seq<int>): int {
    if cs == [] then 0 else cs[0] + Sum(cs[1..])
  }

  /** The divider after one `sys_cycles` call per element of `cs`, in order. */
  function RunDivider(d: Counter, cs: seq<int>, interval: int): Counter
    decreases |cs|
  {
    if cs == [] then d else RunDivider(DivAdvance(d, cs[0], interval), cs[1..], interval)
  }

  /** How many of those calls incremented the divider. */
  function Ticks(left: int, cs: seq<int>, interval: int): (n: nat)
    ensures n <= |cs|
    decreases |cs|
  {
    if cs == [] then 0
    else (if Fires(left, cs[0]) then 1 else 0) + Ticks(DivAdvance(Counter(left, 0), cs[0], interval).left, cs[1..], interval)
  }

  /** Counting one more increment of a wrapping register commutes with the increment itself. */
  lemma IncThenAdd(v: uint8, n: nat)
    ensures (Inc(v) as int + n) % 0x100 == (v as int + (n + 1)) % 0x100
  {
    if v == 0xFF {
      assert v as int + (n + 1) == n + 0x100;
    }
  }

  /**
   * No drift: over any run, the countdown has consumed exactly the cycles
   * passed in, less one interval per increment.
   */
  lemma {:induction false} RunDividerConserves(d: Counter, cs: seq<int>, interval: int)
    ensures RunDivider(d, cs, interval).left == d.left - Sum(cs) + Ticks(d.left, cs, interval) * interval
    decreases |cs|
  {
    if cs != [] {
      var d' := DivAdvance(d, cs[0], interval);
      assert d'.left == DivAdvance(Counter(d.left, 0), cs[0], interval).left;
      RunDividerConserves(d', cs[1..], interval);
      var n' := Ticks(d'.left, cs[1..], interval);
      if Fires(d.left, cs[0]) {
        assert Ticks(d.left, cs, interval) == n' + 1;
        assert (n' + 1) * interval == n' * interval + interval;
      }
    }
  }

  /** Over any run, the divider register has advanced by the number of increments, modulo 256. */
  lemma {:induction false} RunDividerCounts(d: Counter, cs: seq<int>, interval: int)
    ensures RunDivider(d, cs, interval).value as int == (d.value as int + Ticks(d.left, cs, interval)) % 0x100
    decreases |cs|
  {
    if cs != [] {
      var d' := DivAdvance(d, cs[0], interval);
      assert d'.left == DivAdvance(Counter(d.left, 0), cs[0], interval).left;
      RunDividerCounts(d', cs[1..], interval);
      if Fires(d.left, cs[0]) {
        IncThenAdd(d.value, Ticks(d'.left, cs[1..], interval));
      }
    }
  }

  /** Predicate: every cycle count of a run is non-negative. */
  predicate NonNegative(cs: seq<int>) {
    forall k :: 0 <= k < |cs| ==> 0 <= cs[k]
  }

  /**
   * The divider never runs ahead: from a countdown of at most one interval, it
   * stays at most one interval, so the increments never outnumber the completed
   * intervals of cycles passed in.
   */
  lemma {:induction false} RunDividerNeverAhead(d: Counter, cs: seq<int>, interval: int)
    requires d.left <= interval && NonNegative(cs)
    ensures RunDivider(d, cs, interval).left <= interval
    ensures Ticks(d.left, cs, interval) * interval <= Sum(cs) + interval - d.left
    decreases |cs|
  {
    RunDividerConserves(d, cs, interval);
    if cs != [] {
      RunDividerNeverAhead(DivAdvance(d, cs[0], interval), cs[1..], interval);
    }
  }

  /**
   * The divider never falls behind when each call's budget is under one
   * interval (one instruction's cost): the countdown stays positive, so the
   * increments cover every complete interval of cycles supplied.
   */
  lemma {:induction false} RunDividerNeverBehind(d: Counter, cs: seq<int>, interval: int)
    requires 0 < d.left
    requires forall k :: 0 <= k < |cs| ==> 0 <= cs[k] < interval
    ensures 0 < RunDivider(d, cs, interval).left
    ensures Sum(cs) - d.left < Ticks(d.left, cs, interval) * interval
    decreases |cs|
  {
    RunDividerConserves(d, cs, interval);
    if cs != [] {
      RunDividerNeverBehind(DivAdvance(d, cs[0], interval), cs[1..], interval);
    }
  }

  /**
   * Splitting a call in two gives the same divider as one call, as long as the
   * whole budget crosses at most one interval boundary.
   */
  lemma ChunkingWithinOneInterval(d: Counter, c1: int, c2: int, interval: int)
    requires 0 <= c1 && 0 <= c2 && d.left - (c1 + c2) > -interval
    ensures DivAdvance(DivAdvance(d, c1, interval), c2, interval) == DivAdvance(d, c1 + c2, interval)
  {
  }

  /**
   * A budget spanning two intervals in one call increments the divider once,
   * where the same budget in two calls increments it twice (the late increment
   * is carried in the countdown, not lost).
   */
  lemma OneIncrementPerCall(v: uint8, interval: int)
    requires 0 < interval
    ensures var once := DivAdvance(Counter(interval, v), 2 * interval, interval);
      var twice := DivAdvance(DivAdvance(Counter(interval, v), interval, interval), interval, interval);
      once == Counter(0, Inc(v)) && twice == Counter(interval, Inc(Inc(v))) && once.value != twice.value
  {
  }
}
