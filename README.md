# Game Boy system core: timing, OAM DMA, joypad and interrupts

This project models `sys.c`, the system core of a Game Boy emulator. It
covers:

- the free-running divider register and the programmable timer, which
  `sys_cycles` advances by the cycle cost of each instruction;
- the OAM DMA engine, which `sys_dma_cycles` steps one byte per cycle;
- polling of the host keyboard into the packed, active-low button mask,
  with the joypad interrupt on a key press (`sys_handle_joypads`);
- the joypad register read (`sys_read_joypad`);
- setting and clearing bits of the interrupt request register
  (`sys_interrupt_req`, `sys_interrupt_clear`).

The file-scope globals of `sys.c` and the I/O registers it reads and writes
are the fields of one class, `System.Sys`. The operations that change them
are methods with `modifies` frames:

- `Sys.Cycles` splits into `Sys.DivCycles` and `Sys.TimerCycles`;
- `Sys.DmaCycles` works on the OAM `array`, with its byte loop in `Sys.CopyBytes`;
- `Sys.HandleJoypads` uses the source's loop over the eight bits;
- `Sys.InterruptReq` and `Sys.InterruptClear` update the request register.

Each method is proved against a pure specification function from its own
module, and the properties are proved as lemmas about those functions:

- `Clock`: one divider step (`DivAdvance`), one timer step (`TimerAdvance`), and runs of many calls (`RunDivider`, `Ticks`);
- `Dma`: bytes copied per call (`Copied`) and OAM after a copy (`Transferred`);
- `Joypad`: `Pack`, `PressEdge` and `Read`;
- `Interrupts`: `Request` and `Clear`.

The header constants (`SYS_DIV_INTERVAL`, the four timer periods,
`SYS_DMA_LENGTH`, the register bit masks, the cartridge constants) are not
given numeric values. They are fields of `Hardware.Config`, and
`Config.Valid` states what the code relies on:

- every interval is positive and fits the `int16_t` countdowns;
- the transfer length fits the `uint8_t` byte counter.

Registers that the source does arithmetic on are the `uint8` newtype, and
their wrap-around is written out in `Clock.Inc`. Registers that it only
masks are `bv8`.

Three behaviours of the code shape the model:

- `sys_cycles` uses `if`, not `while`. Each call increments the divider at
  most once and the timer at most once; the leftover cycles stay in the
  countdown.
  - Splitting a budget over two calls gives the same result only while the
    budget crosses at most one interval boundary
    (`Clock.ChunkingWithinOneInterval`).
  - `Clock.OneIncrementPerCall` gives a budget that behaves differently in
    one call than in two.
- The joypad interrupt fires when a mask bit goes from 1 to 0. In the
  active-low mask the code builds, that is a key going down (a press).
- `sys_read_joypad` starts from `0x0F` and ANDs in the selected nibbles of
  the active-low mask. The result is not inverted again. Each select bit
  counts as "selected" when it is 1 in the joypad register.

## Model

| member | source | states |
|---|---|---|
| Hardware.Config.TimerIntervalList | sys.c:27-32 | The table has four positive entries: the 4096 Hz, 262144 Hz, 65536 Hz and 16384 Hz periods, in that order. `Sys.Valid` requires the timer period to be one of its entries. |
| System.Sys.Init | sys.c:34-54 | Mapper state is `CT_ROMONLY` and `MBC1_2048_8`, with ROM size, external-RAM enable and banks 0. Divider countdown is one full interval. Timer countdown and period are the 4096 Hz period. Button mask, DMA source, counter and busy flag are cleared. The invariant `Valid` holds. |
| System.Sys.DmaCycles | sys.c:56-78 | Idle: nothing changes. Busy: OAM equals `Transferred` over exactly `Copied` bytes from the old counter, read from source+k truncated to 16 bits. A finished transfer resets source, counter and busy. Otherwise the counter advances by the bytes copied. The invariant is kept. |
| System.Sys.CopyBytes | sys.c:64-68 | The byte loop advances the counter by exactly `Copied` bytes and leaves OAM equal to `Transferred` over those bytes from the old counter. |
| Dma.SourceByte | sys.c:65 | The byte copied into OAM entry k is the forced read of `source + k`, truncated to 16 bits (definition; no contract). |
| Dma.Copied | sys.c:64-68 | A call copies no bytes for a non-positive budget. Otherwise it copies one byte per cycle and stops early only when the counter reaches the transfer length. |
| Dma.Transferred | sys.c:64-66 | Entries from `from` to `from+count` hold the bytes at source+k. Every other OAM entry is unchanged, and the length is unchanged. |
| Dma.TransferredNext | sys.c:64-67 | One more loop iteration writes exactly the next OAM entry. |
| Dma.TransferredSplit | sys.c:56-78 | A transfer spread over two calls copies the same bytes as one call covering the same entries. |
| Dma.WholeTransfer | sys.c:64-75 | A complete transfer from counter 0 makes the first `length` OAM entries equal to the source block and leaves the rest. |
| Types.Address | sys.c:65 | The 16-bit bus address is congruent to `source + counter` modulo 2^16, and equal to it when no wrap occurs. |
| Dma.SourceWithinPage | sys.c:65 | From a page-aligned source, the first 256 entries read `source + k` itself, with no wrap. |
| Dma.ReadForce | sys.c:65 | A forced bus read returns the byte at that address (definition; no contract). |
| System.Sys.TimerOn | sys.c:92 | The timer runs exactly when the control register shares a bit with the enable mask (definition; no contract). |
| System.Sys.Cycles | sys.c:80-120 | The divider always takes one `DivAdvance` step. Timer disabled: countdown, register and request flags are unchanged. Timer enabled: they take one `TimerAdvance` step. The invariant is kept. |
| System.Sys.DivCycles | sys.c:84-90 | The divider countdown and register become `DivAdvance` of their old values. The countdown stays within one interval. |
| System.Sys.TimerCycles | sys.c:96-115 | The timer countdown, register and request flags become `TimerAdvance` of their old values. |
| Clock.Inc | sys.c:88 | `uint8_t` increment: the result is `v + 1` modulo 256. |
| Clock.Fires | sys.c:86 | A countdown expires when subtracting the budget leaves it at zero or below; the timer uses the same test at line 102 (definition; no contract). |
| Clock.DivAdvance | sys.c:84-90 | Reaching zero or below increments once and adds one interval to the remainder, so no cycles are lost. A countdown within one interval stays within it. A call with less than one interval of overshoot leaves it positive. |
| Clock.TimerAdvance | sys.c:102-115 | No expiry: the register and flags are unchanged. Expiry below 255: register +1, flags unchanged. Expiry at 255: the register reloads from the modulo and the timer bit is requested. The remainder is conserved as for the divider. |
| Clock.RunDivider | sys.c:84-90 | The divider after one `sys_cycles` call per budget in a sequence, in order (definition; no contract). |
| Clock.Ticks | sys.c:86-88 | The number of those calls that incremented the divider; never more than the number of calls. |
| Clock.RunDividerConserves | sys.c:84-90 | Over any sequence of calls: final countdown = initial - total cycles + increments × interval (no drift). |
| Clock.RunDividerCounts | sys.c:88 | Over any sequence of calls, the divider register advances by the number of increments, modulo 256. |
| Clock.RunDividerNeverAhead | sys.c:84-90 | With non-negative budgets, the countdown never exceeds one interval. Increments never outnumber the complete intervals of cycles supplied. |
| Clock.RunDividerNeverBehind | sys.c:84-90 | When every budget is under one interval, the countdown stays positive and the increments cover every complete interval supplied. With `RunDividerNeverAhead`, the increments are exactly the interval boundaries crossed. |
| Clock.ChunkingWithinOneInterval | sys.c:84-90 | Two calls equal one call with the summed budget when the budget crosses at most one interval boundary. |
| Clock.OneIncrementPerCall | sys.c:86-90 | Two intervals of cycles in one call increment the divider once, but twice over two calls. |
| Joypad.DpadSelected | sys.c:127 | The direction group is selected when the joypad register shares a bit with `JOY_DPAD` (definition; no contract). |
| Joypad.ButtonsSelected | sys.c:132 | The button group is selected when the joypad register shares a bit with `JOY_BUTTONS` (definition; no contract). |
| Joypad.Read | sys.c:122-141 | A joypad read only ever sets the low four bits. |
| System.Sys.ReadJoypad | sys.c:122-141 | A read of the class's joypad register with its current button mask sets only the low four bits. With no group selected it reads 0x0F. |
| Joypad.ReadBit | sys.c:124-134 | Line i reads 1 exactly when each selected group has bit i of its nibble set. The direction group uses mask bit i+4, the button group bit i. |
| Joypad.ReadReportsPressedKeys | sys.c:124-134 | Through the packing, line i reads 0 exactly when a selected group has key i pressed. |
| Joypad.ReadByGroup | sys.c:124-134 | No group: 0x0F. Directions only: the high nibble. Buttons only: the low nibble. Both: the AND of the two nibbles. |
| Joypad.KeyAt | sys.c:162-169 | The key behind mask bit i: Down, Up, Left, Right, Return, Space, S, A at bits 7 to 0 (definition; no contract). |
| Joypad.Pressed | sys.c:145 | A key is held when bit 0 of the host's state byte for it is set (definition; no contract). |
| Joypad.Pack | sys.c:161-170 | Mask bit i is 1 exactly when key i is not pressed. Keys are Down, Up, Left, Right, Return, Space, S, A at bits 7 to 0. |
| Joypad.PressEdge | sys.c:174-180 | The condition under which the scan requests the joypad interrupt, as one bitwise test: old mask AND NOT new mask is non-zero (definition; `PressEdgeAt` states its meaning). |
| Joypad.PressEdgeAt | sys.c:174-180 | The bitwise edge test holds exactly when some bit i is 1 in the old mask and 0 in the new one. |
| Joypad.PressEdgeIsKeyPress | sys.c:172-180 | An edge is exactly a key that was up at the previous poll and is pressed now. |
| Types.BitMatchesShift | sys.c:175 | The bit test used throughout agrees with `(x >> i) & 0x01`. |
| System.Sys.HandleJoypads | sys.c:143-182 | The button mask becomes `Pack(keys)`. At most one joypad interrupt is requested, and exactly one when some bit went from 1 to 0. The request flags gain the joypad bit in that case and are otherwise unchanged. |
| System.Sys.InterruptReq | sys.c:185-188 | The request flags become `Request(old flags, mask)`. |
| System.Sys.InterruptClear | sys.c:190-193 | The request flags become `Clear(old flags, mask)`. |
| Interrupts.Request | sys.c:185-188 | Every mask bit is set afterwards, and every bit outside the mask is unchanged. |
| Interrupts.Clear | sys.c:190-193 | Every mask bit is clear afterwards, and every bit outside the mask is unchanged. |
| Interrupts.RequestPerBit | sys.c:187 | Bit i is set afterwards exactly when it was set or is in the mask. |
| Interrupts.ClearPerBit | sys.c:192 | Bit i is set afterwards exactly when it was set and is not in the mask. |
| Interrupts.Idempotent | sys.c:185-193 | Requesting or clearing a mask twice is the same as doing it once. |
| Interrupts.ClearUndoesRequest | sys.c:185-193 | Clearing after requesting the same mask equals clearing alone, and requesting after clearing equals requesting alone. |
| Interrupts.Accumulate | sys.c:185-193 | Requests of disjoint masks accumulate. Clearing one afterwards removes only its bits. |
| Interrupts.AccumulateKeepsOthers | sys.c:185-193 | Two requests followed by a clear leave every bit outside both masks as it was. |

## Left out

- The host keyboard (`SDL_GetKeyboardState`) is not read. `Sys.HandleJoypads` takes the eight key bytes as a `Joypad.Keys` parameter.
- `printf` tracing under `SYS_VERBOSE` is not modelled, because it has no effect on state.
- `cpu_read8_force` and the memory subsystem are not part of this model. The bus is an immutable 64 KiB `Memory` value passed to `Sys.DmaCycles`, so a DMA that reads its own destination is not captured.
- OAM is the class's `oam` array. It is assumed to be at least `SYS_DMA_LENGTH` bytes long, because its declaration lives in the memory subsystem, which is not part of this model.
- The code that starts a DMA transfer, writes the timer control register or chooses `sys_timer_interval` from the table lives in the memory subsystem. `Sys.Valid` only requires the period to be one of the table's entries.
- `sys_init` does not set the I/O registers (`SYS_DIV`, `SYS_TIMER`, `SYS_TIMER_MOD`, `SYS_TIMER_CFG`, `SYS_IF`, `SYS_JOYPAD`), so `Sys.Init` takes their starting values as a parameter.
- `main.c`, the run loop that calls these operations, is not part of this model.
- The numeric values of the `sys.h` constants are not fixed. They are fields of `Hardware.Config`, constrained only by `Config.Valid`.
- System.Sys.Cycles: 16-bit truncation of the countdowns is not modelled. The preconditions require that subtracting the cycle budget stays within `int16_t`, since the source relies on budgets being small.
- System.Sys.DivCycles: the same `int16_t` precondition as `Sys.Cycles`.
- System.Sys.TimerCycles: the same `int16_t` precondition as `Sys.Cycles`.
- System.Sys.DmaCycles: `sys_dma_busy` is a `uint8_t` used only as a flag, and is modelled as a `bool`.
- System.Sys.HandleJoypads: the number of interrupt requests is a ghost result, used only to state "exactly once".
