# GBA timer, memory-control registers and front-end helpers

A Dafny model of three parts of a Game Boy Advance emulator.

1. **The four-channel hardware timer** (`GBATIMER`, timer.cpp), module
   `Timer` in `timer.dfy`, with its properties in `TimerProps`
   (`timer_props.dfy`).
   - Each channel has four registers, kept in `Timer.Channel`:
     - the live counter TIMnD;
     - the reload value initialTIMnD;
     - the control byte TIMnCNT;
     - the cycle of the last (re)load.
   - The visible counter is computed lazily from the CPU clock (`getDValue`).
     A control write can reload a channel, freeze it, or schedule a one-shot
     overflow event.
   - `checkOverflow` sweeps channels 0 to 3 in order. It threads a
     `previousOverflow` flag that drives the cascading channels.
   - The timer object is the class `Timer.TimerUnit`. Its methods update the
     channel registers in place and append the calls made into the CPU and
     APU to a ghost log. Each method is proved against a pure function:
     - `AfterWrite` for `WriteIO`;
     - `OverflowStep` for `CheckChannel`;
     - `AfterOverflowCheck` for `CheckOverflow`.
     The properties of those functions are lemmas in `TimerProps`.
2. **The bit-field views of WAITCNT and InternalMemoryControl** (gba.hpp),
   module `GbaRegisters` in `gba_regs.dfy`. Each view is an unpack function
   and a pack function, with round-trip, layout and field-update lemmas.
3. **Helpers from the front end** (main.cpp), module `Frontend` in
   `frontend.dfy`:
   - the compile-time string hash `cexprHash`;
   - the command-line parsing loop at the start of `main`, as the method
     `ArgumentState.ParseArguments` over the four argument globals,
     specified by the function `ParseFrom`;
   - the memory editor's highlight test `memEditorHighlight`.

`types.dfy` holds the shared integer widths and the `Wrap64` reduction
modulo 2^64.

## Assumptions

- **Control byte layout.** timer.hpp is not part of this model, so the
  layout of TIMnCNT is inferred from the masks and tests in timer.cpp:
  - bits 0-1 select the prescaler (`value & 0x03`);
  - bit 2 is the cascade bit, kept only by the `0xC7` mask of channels 1-3;
  - bit 6 enables the IRQ;
  - bit 7 enables the channel (`value & 0x80`).
- **Register widths.** TIMnD and initialTIMnD are 16-bit. Timestamps, the
  CPU clock and `getDValue` are 64-bit unsigned. The model does every u64
  operation modulo 2^64, including the subtraction in `getDValue` and the
  delay passed to `addEvent`.
- **Bit-field allocation.** Fields are allocated from the least significant
  bit upwards, in declaration order, as GCC and Clang do on little-endian
  targets.
- **C strings.** `char` is signed (x86-64). A C string is a sequence of
  non-zero characters; its end is the terminator. `size_t` is 64-bit.

The model keeps these behaviours of the source as they are written.

- **Stale prescaler.** An enabling or prescaler-changing control write
  schedules its overflow event with the prescaler in force *before* the
  write, because TIMnCNT is stored last.
  - `TimerProps.StalePrescalerLosesOverflow` gives a concrete case: channel 0
    is enabled with prescaler 1024 while its old prescaler was 1. The event
    fires at cycle 65538, when the counter reads only 64, so that overflow is
    never reported.
- **Cascade wrap.** A cascade wrap leaves the counter at 0 and does not
  reload it.
- **Cascade flag.** `previousOverflow` is not cleared by a cascade increment
  that does not wrap, and it passes a disabled channel unchanged.
  `TimerProps.CascadeFlagLeaks` shows channel 2 counting a pulse that
  channel 1 did not produce.
- **Hash seed.** `cexprHash` passes no seed to its recursive call, so the
  seed only matters for the empty string.
- **Matching by hash.** The `switch` compares hashes, not strings. "L,rom"
  hashes like "--rom" and is taken as that flag (`Frontend.RomAliasCollides`,
  `Frontend.AliasActsAsRomFlag`).

## Model

| member | source | states |
|---|---|---|
| Timer.Divisor | 3rd_party/ecnavdA-yoBemaG/src/timer.cpp:17 | The prescaler period is `prescalerMasks[control & 3]`, one of 1, 64, 256 and 1024. |
| Timer.ScheduleAt | 3rd_party/ecnavdA-yoBemaG/src/timer.cpp:32 | `addEvent(target - currentTime)` fires at `target` modulo 2^64, whatever the current cycle. |
| Timer.WriteControl | 3rd_party/ecnavdA-yoBemaG/src/timer.cpp:169-178 | A control write stores the value under the channel's mask and never touches the reload register. |
| Timer.OverflowStep | 3rd_party/ecnavdA-yoBemaG/src/timer.cpp:40-63 | The sweep never changes a channel's control byte. |
| Timer.TimerUnit.constructor | 3rd_party/ecnavdA-yoBemaG/src/timer.cpp:6-8 | A new timer has all four channels zeroed and has made no calls. |
| Timer.TimerUnit.Reset | 3rd_party/ecnavdA-yoBemaG/src/timer.cpp:10-15 | Clears the counter, reload value and control byte of every channel. Timestamps and the call log are kept. |
| Timer.TimerUnit.WriteIO | 3rd_party/ecnavdA-yoBemaG/src/timer.cpp:161-232 | The new channels and the appended calls are those of `AfterWrite` on the old channels. The masked-control invariant is kept. |
| Timer.TimerUnit.WriteChannelRegister | 3rd_party/ecnavdA-yoBemaG/src/timer.cpp:162-230 | The written channel and appended calls are those of `WriteRegister` for the byte written. The mask is kept. |
| Timer.TimerUnit.WriteControlRegister | 3rd_party/ecnavdA-yoBemaG/src/timer.cpp:169-178 | The TIMnCNT case gives the channel and calls of `WriteControl`. |
| Timer.TimerUnit.CheckChannel | 3rd_party/ecnavdA-yoBemaG/src/timer.cpp:40-63 | One channel's block gives the channel, calls and outgoing flag of `OverflowStep`. Every other channel is unchanged. |
| Timer.TimerUnit.CheckOverflow | 3rd_party/ecnavdA-yoBemaG/src/timer.cpp:23-102 | The four blocks in order give the channels and the calls, in order, of `AfterOverflowCheck`. |
| Timer.TimerUnit.CheckOverflowEvent | 3rd_party/ecnavdA-yoBemaG/src/timer.cpp:19-21 | The event callback has exactly the effect of `checkOverflow`. |
| TimerProps.Scheduled | 3rd_party/ecnavdA-yoBemaG/src/timer.cpp:32 | The fire times of the events in a call log are no more than its calls. |
| TimerProps.ScheduledAppend | 3rd_party/ecnavdA-yoBemaG/src/timer.cpp:23-102 | The events of two logs in sequence are the events of each, in order. |
| TimerProps.DValueRunning | 3rd_party/ecnavdA-yoBemaG/src/timer.cpp:104-120 | A free-running channel reads its stored counter plus the whole prescaler periods since its aligned timestamp. |
| TimerProps.DValueTicks | 3rd_party/ecnavdA-yoBemaG/src/timer.cpp:104-120 | One prescaler period later a free-running channel reads exactly one more. |
| TimerProps.DValueFrozen | 3rd_party/ecnavdA-yoBemaG/src/timer.cpp:104-120 | A disabled channel, or a cascading channel 1-3, reads its stored counter at any cycle. |
| TimerProps.CascadedNeverFreeOverflows | 3rd_party/ecnavdA-yoBemaG/src/timer.cpp:87 | A cascading channel's lazy value never exceeds 0xFFFF, so channel 3's extra `!tim3Cascade` test changes nothing. |
| TimerProps.AlignIsMask | 3rd_party/ecnavdA-yoBemaG/src/timer.cpp:109 | `ts & ~(div - 1)` equals `ts - ts % div` for the periods 64, 256 and 1024. |
| TimerProps.ReadCounter | 3rd_party/ecnavdA-yoBemaG/src/timer.cpp:124-127 | The bytes at +0 and +1 are the low and high bytes of the lazy counter. Together they give its low 16 bits. |
| TimerProps.ReadOther | 3rd_party/ecnavdA-yoBemaG/src/timer.cpp:128-157 | The byte at +2 is the control byte and at +3 is 0. Any address outside the block reads the open-bus value. |
| TimerProps.WriteReloadLow | 3rd_party/ecnavdA-yoBemaG/src/timer.cpp:163-165 | A low-byte write replaces only the low byte of the reload value. Counter, control, timestamp, other channels and the call log are unchanged. |
| TimerProps.WriteReloadHigh | 3rd_party/ecnavdA-yoBemaG/src/timer.cpp:166-168 | A high-byte write replaces only the high byte of the reload value. Nothing else changes. |
| TimerProps.WriteIgnored | 3rd_party/ecnavdA-yoBemaG/src/timer.cpp:161-232 | A write to a channel's fourth byte, or outside the timer block, changes nothing and calls nobody. |
| TimerProps.WriteControlEffect | 3rd_party/ecnavdA-yoBemaG/src/timer.cpp:169-178 | The masked value is stored. The write reloads, restamps at now+2 and schedules one event, timed with the old prescaler, iff it enables or re-prescales. Otherwise no event and the same timestamp. Disabling freezes the lazy value. |
| TimerProps.DisableFreezes | 3rd_party/ecnavdA-yoBemaG/src/timer.cpp:175-176 | After a disabling write the counter reads, at every later cycle, the low 16 bits of the live value at the write. |
| TimerProps.MaskKeeps | 3rd_party/ecnavdA-yoBemaG/src/timer.cpp:178 | The mask keeps the enable, IRQ and prescaler bits, and the cascade bit only on channels 1-3. |
| TimerProps.OverflowAtScheduledTime | 3rd_party/ecnavdA-yoBemaG/src/timer.cpp:32 | The scheduled fire time is the first cycle at which the lazy counter passes 0xFFFF: 0x10000 there, at most 0xFFFF before. |
| TimerProps.RescheduleHitsNextOverflow | 3rd_party/ecnavdA-yoBemaG/src/timer.cpp:26-35 | After a free-running overflow, the single event scheduled fires when the reloaded channel next overflows. |
| TimerProps.EnableHitsOverflow | 3rd_party/ecnavdA-yoBemaG/src/timer.cpp:170-174 | An enabling write that keeps the prescaler bits schedules one event, at the reloaded counter's first overflow. |
| TimerProps.StalePrescalerLosesOverflow | 3rd_party/ecnavdA-yoBemaG/src/timer.cpp:170-178 | With a changed prescaler the event fires too early (cycle 65538, counter 64) and that sweep reports nothing. |
| TimerProps.EnableScenario | 3rd_party/ecnavdA-yoBemaG/src/timer.cpp:170-178 | A concrete enable: timestamp 1002, event at 1984, counter read 0xFFF8 at cycle 1500. |
| TimerProps.DisabledSkipped | 3rd_party/ecnavdA-yoBemaG/src/timer.cpp:40 | The sweep leaves a disabled channel as it is, calls nobody and passes the flag on unchanged. |
| TimerProps.FreeRunningOverflow | 3rd_party/ecnavdA-yoBemaG/src/timer.cpp:26-35 | An overflow requests the IRQ iff it is enabled and calls `onTimer` iff the channel is 0 or 1. It reloads, restamps at now, schedules exactly one event and raises the flag. |
| TimerProps.CascadePulse | 3rd_party/ecnavdA-yoBemaG/src/timer.cpp:52-59 | A cascading channel counts one pulse exactly when the flag is up. A wrap to 0 requests the IRQ, schedules nothing and does not reload, and the flag stays up. |
| TimerProps.PulsedCounter | 3rd_party/ecnavdA-yoBemaG/src/timer.cpp:53 | n pulses advance a cascading counter by n modulo 2^16. |
| TimerProps.CascadeCountsPulses | 3rd_party/ecnavdA-yoBemaG/src/timer.cpp:52-59 | The pulse that requests the IRQ is the one that takes the counter past 0xFFFF. |
| TimerProps.SweepVisitsAll | 3rd_party/ecnavdA-yoBemaG/src/timer.cpp:23-102 | The sweep reloads every free-running channel past 0xFFFF and leaves disabled channels alone. |
| TimerProps.CascadeFlagLeaks | 3rd_party/ecnavdA-yoBemaG/src/timer.cpp:52-62 | When channel 0 overflows and cascading channel 1 does not wrap, cascading channel 2 still counts a pulse. |
| TimerProps.ResetIsQuiet | 3rd_party/ecnavdA-yoBemaG/src/timer.cpp:10-15 | With all control bytes 0, as after reset, a sweep changes nothing and calls nobody. |
| GbaRegisters.DecodeWaitcnt | 3rd_party/ecnavdA-yoBemaG/include/gba.hpp:100-115 | Every unpacked field holds no more than its declared width. |
| GbaRegisters.DecodeEncodeWaitcnt | 3rd_party/ecnavdA-yoBemaG/include/gba.hpp:100-115 | Packing the view of a WAITCNT value, unnamed bits 13 and 15 included, gives the value back. |
| GbaRegisters.EncodeDecodeWaitcnt | 3rd_party/ecnavdA-yoBemaG/include/gba.hpp:100-115 | Unpacking a packed in-range view gives the view back. |
| GbaRegisters.WaitFieldLayout | 3rd_party/ecnavdA-yoBemaG/include/gba.hpp:102-111 | Each named field reads exactly its bits: sram 0-1, ws0 2-3 and 4, ws1 5-6 and 7, ws2 8-9 and 10, phi 11-12, prefetch 14. |
| GbaRegisters.AssignSramWait | 3rd_party/ecnavdA-yoBemaG/include/gba.hpp:102 | Assigning the field stores the truncated value in bits 0-1 and leaves every other bit as it was. |
| GbaRegisters.AssignWaitState0 | 3rd_party/ecnavdA-yoBemaG/include/gba.hpp:103-104 | Assigning either wait-state-0 field changes only its own bits. |
| GbaRegisters.AssignWaitState1 | 3rd_party/ecnavdA-yoBemaG/include/gba.hpp:105-106 | Assigning either wait-state-1 field changes only its own bits. |
| GbaRegisters.AssignWaitState2 | 3rd_party/ecnavdA-yoBemaG/include/gba.hpp:107-108 | Assigning either wait-state-2 field changes only its own bits. |
| GbaRegisters.AssignPhi | 3rd_party/ecnavdA-yoBemaG/include/gba.hpp:109 | Assigning phiControl changes only bits 11-12. |
| GbaRegisters.AssignPrefetch | 3rd_party/ecnavdA-yoBemaG/include/gba.hpp:111 | Assigning prefetchBufferEnable changes only bit 14. |
| GbaRegisters.WaitcntExample | 3rd_party/ecnavdA-yoBemaG/include/gba.hpp:100-115 | 0x4317 unpacks to the expected field values. |
| GbaRegisters.DecodeMemoryControl | 3rd_party/ecnavdA-yoBemaG/include/gba.hpp:116-126 | Every unpacked field holds no more than its declared width. |
| GbaRegisters.DecodeEncodeMemoryControl | 3rd_party/ecnavdA-yoBemaG/include/gba.hpp:116-126 | Packing the view, with unnamed bits 1-4, 6-23 and 28-31, gives the 32-bit value back. |
| GbaRegisters.EncodeDecodeMemoryControl | 3rd_party/ecnavdA-yoBemaG/include/gba.hpp:116-126 | Unpacking a packed in-range view gives the view back. |
| GbaRegisters.MemoryControlLayout | 3rd_party/ecnavdA-yoBemaG/include/gba.hpp:118-122 | biosSwap is bit 0, ewramEnable bit 5 and ewramWaitControl bits 24-27. |
| GbaRegisters.MemoryControlExample | 3rd_party/ecnavdA-yoBemaG/include/gba.hpp:116-126 | 0x0D000020 reads as EWRAM enabled with wait control 13. |
| Frontend.HashIsPolynomial | src/main.cpp:30-32 | The hash of a non-empty string is the sum of character k times 31^k, modulo 2^64. The empty string hashes to the seed. |
| Frontend.HashIgnoresSeed | src/main.cpp:30-32 | The seed does not affect the hash of a non-empty string. |
| Frontend.PrefixCollision | src/main.cpp:30-32 | Strings whose first two characters weigh the same (a + 31b) hash alike. |
| Frontend.HashStep | src/main.cpp:31 | Without wrap-around, a string hashes to 31 times the hash of its tail plus its first character. |
| Frontend.FlagHashes | src/main.cpp:275-290 | The case labels are the hashes of "--rom" and "--bios", and they differ. |
| Frontend.RomAliasCollides | src/main.cpp:274-275 | "L,rom" differs from "--rom" but has the same hash. |
| Frontend.FlagWithoutPath | src/main.cpp:276-279 | A flag that is the last argument makes `main` return -1. |
| Frontend.FlagTakesNext | src/main.cpp:275-290 | A flag with an argument after it takes that argument as its path and sets its "given" global. |
| Frontend.UnknownArgument | src/main.cpp:291-298 | An unrecognised argument is the ROM path at position 1 and makes `main` return -1 at any later position. |
| Frontend.PathsFromCommandLine | src/main.cpp:268-301 | The parse ends only with Continue or -1. A set path is one of the arguments. A path not set keeps its earlier value. |
| Frontend.RomPathOnly | src/main.cpp:291-294 | A lone ROM path is taken as the ROM and the parse continues. |
| Frontend.BothFlags | src/main.cpp:275-290 | `--bios b --rom r` sets both paths and continues. |
| Frontend.SecondUnknownFails | src/main.cpp:295-297 | A second unrecognised argument makes `main` return -1. |
| Frontend.AliasActsAsRomFlag | src/main.cpp:274-282 | "L,rom" followed by a path sets the ROM path, like `--rom`. |
| Frontend.ArgumentState.constructor | src/main.cpp:24-28 | The argument globals start with no flag given and empty paths. |
| Frontend.ArgumentState.ParseArguments | src/main.cpp:269-301 | The loop's exit status and the globals it leaves are those of `ParseFrom` from position 1. It resets the "given" flags and the BIOS path, but not the ROM path. |
| Frontend.HighlightMatchesRegions | src/main.cpp:664-679 | An offset is highlighted iff it lies in one of the nine inclusive ranges. |
| Frontend.RegionsDisjoint | src/main.cpp:666-674 | The ranges are ascending and do not overlap. |
| Frontend.TimerRegistersHighlighted | src/main.cpp:669 | Every timer register address is highlighted. |
| Frontend.HighlightExamples | src/main.cpp:669-677 | 0x4000204 is highlighted, while 0x4000800 and 0xA000000 are not. |

## Left out

- Timer.TimerUnit.ReadIO: carries no contract of its own. It is the function `ReadByte` on the timer's channels; `TimerProps.ReadCounter` and `TimerProps.ReadOther` state what it returns.
- The internals of `addEvent` and the CPU event queue, `requestInterrupt` and `apu.onTimer` are not shown. They appear only as entries in the call log.
- The current cycle `bus.cpu.currentTime` is a parameter.
- The value of `openBus` is not shown. It is a function parameter.
- Events already queued are not removed by `reset` or by a later write. The model records only the calls made and does not model the queue.
- All UI in main.cpp is left out: sokol windows, ImGui, the NFD dialogs, the menus and the debug windows. These are foreign library calls.
- `audioCallback` is floating-point and guarded by a mutex.
- `RGB5A1toRGBA8` is a floating-point colour conversion.
- The emulator thread and its event mailbox are concurrency whose implementation is not shown.
- ROM, BIOS and save loading after the parse, and `readDebug`/`writeDebug`, are file I/O or are not shown.
- ppudebug.hpp holds only UI declarations.
- The `printf` messages of the parser are not modelled; only the exit status is.
- `std::filesystem::path` is modelled as the C string it is built from.
- Wait-state cycle tables, bus access costs and prefetch are only declared in gba.hpp, so they are not modelled.
- timer.hpp is not part of this model. The layout of its fields is inferred as described above.
