/**
 * The four-channel timer block (GBATIMER, timer.cpp).
 *
 * A channel's visible counter is not ticked every cycle: it is computed on
 * demand from the stored counter, the cycle at which the channel was last
 * (re)loaded and the current cycle of the CPU. Overflows are found by a
 * one-shot event that the channel schedules on the CPU's event queue.
 *
 * Collaborators are abstract: the current cycle is a parameter `now`, the
 * open-bus value is a function parameter, and the calls the timer makes into
 * the CPU (`addEvent`, `requestInterrupt`) and the APU (`onTimer`) are
 * recorded, in order, as `Call` values.
 *
 * The layout of the control byte TIMnCNT (timer.hpp is not part of this
 * model) is inferred from the masks timer.cpp applies: bits 0-1 select the
 * prescaler, bit 2 is the cascade bit (kept only by the 0xC7 mask of
 * channels 1-3), bit 6 enables the IRQ, bit 7 enables the channel. TIMnD and
 * initialTIMnD are taken to be u16, timestamps and the CPU clock u64.
 */
module Timer {
  import opened Types

  type ChannelIndex = i: int | 0 <= i < 4

  const PRESCALER: bv8 := 0x03
  const CASCADE: bv8 := 0x04
  const IRQ: bv8 := 0x40
  const ENABLE: bv8 := 0x80

  /** Cycles per counter tick for each prescaler selection (`prescalerMasks`). */
  const PrescalerMasks: seq<nat> := [1, 64, 256, 1024]

  /** Cycles between a control write and the reloaded channel's timestamp. */
  const WRITE_LATENCY: nat := 2

  /** First address of the timer registers; channel i owns base + 4i .. base + 4i + 3. */
  const TIMER_BASE: u32 := 0x400_0100

  predicate Enabled(control: bv8) {
    control & ENABLE != 0
  }

  predicate IrqEnabled(control: bv8) {
    control & IRQ != 0
  }

  predicate CascadeSet(control: bv8) {
    control & CASCADE != 0
  }

  /** The prescaler periods the hardware offers. */
  predicate IsDivisor(div: nat) {
    div == 1 || div == 64 || div == 256 || div == 1024
  }

  /** The prescaler period the control byte selects: `prescalerMasks[control & 3]`. */
  function Divisor(control: bv8): (div: nat)
    ensures IsDivisor(div)
    ensures div == PrescalerMasks[(control & PRESCALER) as int]
  {
    var select := control & PRESCALER;
    if select == 0 then 1 else if select == 1 then 64 else if select == 2 then 256 else 1024
  }

  // Per-channel capabilities: the four channels share one code path that
  // differs only in these three entries.

  /** Channels 1-3 can count overflows of the previous channel. */
  predicate HasCascade(i: ChannelIndex) {
    i > 0
  }

  /** Overflows of channels 0 and 1 are reported to the APU (sound FIFO timing). */
  predicate DrivesAudio(i: ChannelIndex) {
    i < 2
  }

  /** Bits of a control write that the channel keeps. */
  function CtrlMask(i: ChannelIndex): bv8 {
    if i == 0 then 0xC3 else 0xC7
  }

  /** A control byte with no bits outside the channel's mask. */
  predicate Masked(control: bv8, i: ChannelIndex) {
    control & !CtrlMask(i) == 0
  }

  /** `ts & ~(div - 1)`: the timestamp rounded down to a prescaler period boundary. */
  function Align(ts: u64, div: nat): (a: u64)
    requires IsDivisor(div)
    ensures a <= ts < a + div
    ensures a % div == 0
  {
    ts - ts % div
  }

  /** TIMnD, initialTIMnD, TIMnCNT and timNTimestamp of one channel. */
  datatype Channel = Channel(counter: u16, reload: u16, control: bv8, timestamp: u64)

  /** Calls the timer makes into its collaborators. */
  datatype Call =
    | AddEvent(fireTime: u64)              // bus.cpu.addEvent(..., &checkOverflowEvent, this)
    | RequestInterrupt(timer: ChannelIndex) // bus.cpu.requestInterrupt(IRQ_TIMERn)
    | OnTimer(timer: ChannelIndex)          // bus.apu.onTimer(n)

  /** The channels and the calls made by one operation. */
  datatype Outcome = Outcome(channels: seq<Channel>, calls: seq<Call>)

  /** A channel that counts elapsed cycles (rather than cascade pulses). */
  predicate FreeRunning(c: Channel, i: ChannelIndex) {
    Enabled(c.control) && !(HasCascade(i) && CascadeSet(c.control))
  }

  /**
   * getDValue<i>: the stored counter plus the prescaler periods elapsed since
   * the aligned timestamp, in u64 arithmetic (the subtraction wraps if `now`
   * lies before the aligned timestamp).
   */
  function DValue(c: Channel, i: ChannelIndex, now: u64): u64 {
    var div := Divisor(c.control);
    var ticks := Wrap64(now - Align(c.timestamp, div)) / div;
    Wrap64(c.counter + if FreeRunning(c, i) then ticks else 0)
  }

  /**
   * `addEvent(target - currentTime, ...)`: the delay is a u64 difference and
   * the queue fires the event at currentTime + delay.
   */
  function ScheduleAt(target: int, now: u64): (e: Call)
    ensures e == AddEvent(Wrap64(target))
  {
    AddEvent(Wrap64(now + Wrap64(target - now)))
  }

  /** The cycle at which a counter reloaded with `reload` at `ts` passes 0xFFFF. */
  function OverflowTime(reload: u16, div: nat, ts: u64): int
    requires IsDivisor(div)
  {
    (TWO_16 - reload) * div + Align(ts, div)
  }

  predicate IsTimerAddress(address: u32) {
    TIMER_BASE <= address < TIMER_BASE + 16
  }

  function ChannelAt(address: u32): ChannelIndex
    requires IsTimerAddress(address)
  {
    (address - TIMER_BASE) / 4
  }

  /** Which of the channel's four byte registers an address names. */
  function Port(address: u32): int
    requires IsTimerAddress(address)
  {
    (address - TIMER_BASE) % 4
  }

  /** readIO: bytes of the live counter, the control byte, 0, or the open-bus value. */
  function ReadByte(chs: seq<Channel>, address: u32, now: u64, openBus: u32 -> u8): u8
    requires |chs| == 4
  {
    if !IsTimerAddress(address) then openBus(address)
    else
      var i := ChannelAt(address);
      match Port(address)
      case 0 => DValue(chs[i], i, now) % 256
      case 1 => DValue(chs[i], i, now) / 256 % 256
      case 2 => chs[i].control as int
      case _ => 0
  }

  /** A control write that enables the channel or changes the prescaler of an enabled one. */
  predicate ReloadsOn(c: Channel, value: bv8) {
    value & ENABLE != 0 && (!Enabled(c.control) || value & PRESCALER != c.control & PRESCALER)
  }

  /**
   * A write to TIMnCNT. A reloading write reloads the counter and schedules
   * the overflow event; the event time uses the prescaler in force BEFORE the
   * write, because the control byte is stored last. Disabling freezes the
   * live counter value.
   */
  function WriteControl(c: Channel, i: ChannelIndex, value: bv8, now: u64): (w: (Channel, seq<Call>))
    ensures w.0.control == value & CtrlMask(i)
    ensures w.0.reload == c.reload
  {
    var kept := value & CtrlMask(i);
    if ReloadsOn(c, value) then
      var ts := Wrap64(now + WRITE_LATENCY);
      var div := Divisor(c.control);
      (Channel(c.reload, c.reload, kept, ts), [ScheduleAt(OverflowTime(c.reload, div, ts), now)])
    else if value & ENABLE == 0 && Enabled(c.control) then
      (c.(counter := DValue(c, i, now) % TWO_16, control := kept), [])
    else
      (c.(control := kept), [])
  }

  /**
   * A write to byte `port` of a channel's registers: the two counter bytes
   * target the reload register, the third is the control byte and the fourth
   * ignores writes.
   */
  function WriteRegister(c: Channel, i: ChannelIndex, port: int, value: bv8, now: u64): (Channel, seq<Call>)
  {
    match port
    case 0 => (c.(reload := c.reload / 256 * 256 + value as int), [])
    case 1 => (c.(reload := c.reload % 256 + value as int * 256), [])
    case 2 => WriteControl(c, i, value, now)
    case _ => (c, [])
  }

  /** writeIO: addresses outside the timer block are ignored. */
  function AfterWrite(chs: seq<Channel>, address: u32, value: bv8, now: u64): Outcome
    requires |chs| == 4
  {
    if !IsTimerAddress(address) then Outcome(chs, [])
    else
      var i := ChannelAt(address);
      var (c', calls) := WriteRegister(chs[i], i, Port(address), value, now);
      Outcome(chs[i := c'], calls)
  }

  /** One channel's block of checkOverflow, with the cascade flag it passes on. */
  datatype Swept = Swept(channel: Channel, calls: seq<Call>, overflow: bool)

  function IrqCalls(c: Channel, i: ChannelIndex): seq<Call> {
    if IrqEnabled(c.control) then [RequestInterrupt(i)] else []
  }

  function AudioCalls(i: ChannelIndex): seq<Call> {
    if DrivesAudio(i) then [OnTimer(i)] else []
  }

  /**
   * One channel of checkOverflow. A free-running overflow reloads the channel
   * and schedules the next event; a cascade pulse adds one to the counter and
   * a wrap to 0 neither reloads nor schedules. A disabled channel passes the
   * incoming flag on untouched, and so does a cascade increment that does not
   * wrap. (For channel 3 the flag it returns is never read.)
   */
  function OverflowStep(c: Channel, i: ChannelIndex, now: u64, previousOverflow: bool): (s: Swept)
    ensures s.channel.control == c.control
  {
    if !Enabled(c.control) then
      Swept(c, [], previousOverflow)
    else if DValue(c, i, now) > 0xFFFF then
      var div := Divisor(c.control);
      Swept(c.(counter := c.reload, timestamp := now),
            IrqCalls(c, i) + [ScheduleAt(OverflowTime(c.reload, div, now), now)] + AudioCalls(i),
            true)
    else if HasCascade(i) && CascadeSet(c.control) && previousOverflow then
      var next := (c.counter + 1) % TWO_16;
      if next == 0 then Swept(c.(counter := 0), IrqCalls(c, i) + AudioCalls(i), true)
      else Swept(c.(counter := next), [], previousOverflow)
    else
      Swept(c, [], false)
  }

  /** checkOverflow: channels 0 to 3 in order, threading previousOverflow. */
  function AfterOverflowCheck(chs: seq<Channel>, now: u64): Outcome
    requires |chs| == 4
  {
    var s0 := OverflowStep(chs[0], 0, now, false);
    var s1 := OverflowStep(chs[1], 1, now, s0.overflow);
    var s2 := OverflowStep(chs[2], 2, now, s1.overflow);
    var s3 := OverflowStep(chs[3], 3, now, s2.overflow);
    Outcome([s0.channel, s1.channel, s2.channel, s3.channel], s0.calls + s1.calls + s2.calls + s3.calls)
  }

  lemma ConcatAssoc<T>(log: seq<T>, a: seq<T>, b: seq<T>, c: seq<T>, d: seq<T>)
    ensures log + a + b + c + d == log + (a + b + c + d)
  {
  }

  /** The timer object: its registers and the log of calls it has made. */
  class TimerUnit {
    var channels: seq<Channel>
    ghost var calls: seq<Call>

    /** Four channels, each control byte holding only the bits its mask keeps. */
    ghost predicate Valid()
      reads this
    {
      |channels| == 4 && forall i: ChannelIndex :: Masked(channels[i].control, i)
    }

    /** The timer lives in zero-initialised static storage and the constructor calls reset. */
    constructor ()
      ensures Valid() && calls == []
      ensures forall i: ChannelIndex :: channels[i] == Channel(0, 0, 0, 0)
    {
      var zero := Channel(0, 0, 0, 0);
      channels := [zero, zero, zero, zero];
      calls := [];
      new;
      Reset();
    }

    /** reset: counters, reload values and control bytes cleared; timestamps kept. */
    method Reset()
      requires |channels| == 4
      modifies this
      ensures Valid() && calls == old(calls)
      ensures forall i: ChannelIndex ::
        channels[i] == old(channels[i]).(counter := 0, reload := 0, control := 0)
    {
      var before := channels;
      channels := seq(4, i requires 0 <= i < 4 => before[i].(counter := 0, reload := 0, control := 0));
    }

    /** readIO. */
    function ReadIO(address: u32, now: u64, openBus: u32 -> u8): u8
      reads this
      requires Valid()
    {
      ReadByte(channels, address, now, openBus)
    }

    /** writeIO. */
    method WriteIO(address: u32, value: bv8, now: u64)
      requires Valid()
      modifies this
      ensures Valid()
      ensures var o := AfterWrite(old(channels), address, value, now);
        channels == o.channels && calls == old(calls) + o.calls
    {
      if IsTimerAddress(address) {
        var i := ChannelAt(address);
        var c := WriteChannelRegister(channels[i], i, Port(address), value, now);
        channels := channels[i := c];
      }
    }

    /** The switch of writeIO on the byte written within channel i's registers. */
    method WriteChannelRegister(c: Channel, i: ChannelIndex, port: int, value: bv8, now: u64) returns (c': Channel)
      requires Masked(c.control, i)
      modifies this`calls
      ensures Masked(c'.control, i)
      ensures var (written, made) := WriteRegister(c, i, port, value, now);
        c' == written && calls == old(calls) + made
    {
      c' := c;
      match port {
        case 0 =>
          c' := c'.(reload := c.reload / 256 * 256 + value as int);
        case 1 =>
          c' := c'.(reload := c.reload % 256 + value as int * 256);
        case 2 =>
          c' := WriteControlRegister(c, i, value, now);
        case _ =>
      }
    }

    /** The TIMnCNT case of writeIO; returns the channel's new registers. */
    method WriteControlRegister(c: Channel, i: ChannelIndex, value: bv8, now: u64) returns (c': Channel)
      modifies this`calls
      ensures var (written, made) := WriteControl(c, i, value, now);
        c' == written && calls == old(calls) + made
    {
      c' := c;
      if ReloadsOn(c, value) {
        var div := Divisor(c.control);
        c' := c'.(counter := c'.reload, timestamp := Wrap64(now + WRITE_LATENCY));
        calls := calls + [ScheduleAt(OverflowTime(c'.counter, div, c'.timestamp), now)];
      }
      if value & ENABLE == 0 && Enabled(c.control) {
        c' := c'.(counter := DValue(c', i, now) % TWO_16);
      }
      c' := c'.(control := value & CtrlMask(i));
    }

    /** One of the four blocks of checkOverflow. */
    method CheckChannel(i: ChannelIndex, now: u64, previousOverflow: bool) returns (overflow: bool)
      requires Valid()
      modifies this
      ensures Valid()
      ensures var s := OverflowStep(old(channels[i]), i, now, previousOverflow);
        channels == old(channels)[i := s.channel] && calls == old(calls) + s.calls && overflow == s.overflow
    {
      var c := channels[i];
      ghost var log := calls;
      overflow := previousOverflow;
      if Enabled(c.control) {
        if DValue(c, i, now) > 0xFFFF {
          if IrqEnabled(c.control) {
            calls := calls + [RequestInterrupt(i)];
          }
          assert calls == log + IrqCalls(c, i);
          c := c.(counter := c.reload, timestamp := now);
          var div := Divisor(c.control);
          ghost var e := ScheduleAt(OverflowTime(c.counter, div, c.timestamp), now);
          calls := calls + [e];
          if DrivesAudio(i) {
            calls := calls + [OnTimer(i)];
          }
          assert calls == log + (IrqCalls(c, i) + [e] + AudioCalls(i));
          overflow := true;
        } else if HasCascade(i) && CascadeSet(c.control) && previousOverflow {
          c := c.(counter := (c.counter + 1) % TWO_16);
          if c.counter == 0 {
            if IrqEnabled(c.control) {
              calls := calls + [RequestInterrupt(i)];
            }
            if DrivesAudio(i) {
              calls := calls + [OnTimer(i)];
            }
            assert calls == log + (IrqCalls(c, i) + AudioCalls(i));
            overflow := true;
          }
        } else {
          overflow := false;
        }
        channels := channels[i := c];
      }
    }

    /** checkOverflow. */
    method CheckOverflow(now: u64)
      requires Valid()
      modifies this
      ensures Valid()
      ensures var o := AfterOverflowCheck(old(channels), now);
        channels == o.channels && calls == old(calls) + o.calls
    {
      ghost var log := calls;
      var previousOverflow := false;
      previousOverflow := CheckChannel(0, now, previousOverflow);
      ghost var a := calls[|log|..];
      previousOverflow := CheckChannel(1, now, previousOverflow);
      ghost var b := calls[|log| + |a|..];
      previousOverflow := CheckChannel(2, now, previousOverflow);
      ghost var c := calls[|log| + |a| + |b|..];
      previousOverflow := CheckChannel(3, now, previousOverflow);
      ghost var d := calls[|log| + |a| + |b| + |c|..];
      ConcatAssoc(log, a, b, c, d);
    }

    /** checkOverflowEvent: the callback the overflow events carry. */
    method CheckOverflowEvent(now: u64)
      requires Valid()
      modifies this
      ensures Valid()
      ensures var o := AfterOverflowCheck(old(channels), now);
        channels == o.channels && calls == old(calls) + o.calls
    {
      CheckOverflow(now);
    }
  }
}
