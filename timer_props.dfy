/**
 * Properties of the timer model: the lazy counter, the register interface,
 * the overflow sweep and the agreement between scheduled events and the
 * lazily computed counter.
 */
module TimerProps {
  import opened Types
  import opened Timer

  /** Fire times of the events among `calls`, in order. */
  function Scheduled(calls: seq<Call>): (times: seq<u64>)
    ensures |times| <= |calls|
  {
    if calls == [] then []
    else
      var rest := Scheduled(calls[1..]);
      match calls[0]
      case AddEvent(t) => [t] + rest
      case _ => rest
  }

  lemma {:induction false} ScheduledAppend(a: seq<Call>, b: seq<Call>)
    ensures Scheduled(a + b) == Scheduled(a) + Scheduled(b)
  {
    if a == [] {
      assert a + b == b;
    } else {
      var ab := a + b;
      assert ab[0] == a[0] && ab[1..] == a[1..] + b;
      ScheduledAppend(a[1..], b);
    }
  }

  /** Wrap64 leaves values already in u64 range alone. */
  lemma WrapSmall(x: int)
    requires 0 <= x < TWO_64
    ensures Wrap64(x) == x
  {
  }

  /** x / d for d one of the prescaler periods, below and at a multiple of d. */
  lemma DivByDivisor(x: int, q: int, d: nat)
    requires IsDivisor(d) && 0 <= x && 0 <= q
    ensures x < q * d ==> x / d < q
    ensures x == q * d ==> x / d == q
  {
    if d == 1 {
    } else if d == 64 {
    } else if d == 256 {
    } else {
    }
  }

  lemma DivBounded(x: nat, d: nat)
    requires IsDivisor(d)
    ensures x / d <= x
  {
    if d == 1 {
    } else if d == 64 {
    } else if d == 256 {
    } else {
    }
  }

  lemma DivStep(x: nat, d: nat)
    requires IsDivisor(d)
    ensures (x + d) / d == x / d + 1
  {
    if d == 1 {
    } else if d == 64 {
    } else if d == 256 {
    } else {
    }
  }

  // ---------------------------------------------------------------------
  // The lazy counter (getDValue)
  // ---------------------------------------------------------------------

  /** A free-running channel counts whole prescaler periods since its aligned timestamp. */
  lemma DValueRunning(c: Channel, i: ChannelIndex, now: u64)
    requires FreeRunning(c, i)
    requires Align(c.timestamp, Divisor(c.control)) <= now
    requires c.counter + now - Align(c.timestamp, Divisor(c.control)) < TWO_64
    ensures DValue(c, i, now)
      == c.counter + (now - Align(c.timestamp, Divisor(c.control))) / Divisor(c.control)
  {
    var d := Divisor(c.control);
    var e := now - Align(c.timestamp, d);
    WrapSmall(e);
    DivBounded(e, d);
    WrapSmall(c.counter + e / d);
  }

  /** One prescaler period later, a free-running channel has counted exactly one more. */
  lemma DValueTicks(c: Channel, i: ChannelIndex, now: u64)
    requires FreeRunning(c, i)
    requires Align(c.timestamp, Divisor(c.control)) <= now
    requires c.counter + now + Divisor(c.control) < TWO_64
    ensures now + Divisor(c.control) < TWO_64
    ensures DValue(c, i, now + Divisor(c.control)) == DValue(c, i, now) + 1
  {
    var d := Divisor(c.control);
    var e := now - Align(c.timestamp, d);
    DValueRunning(c, i, now);
    DValueRunning(c, i, now + d);
    DivStep(e, d);
  }

  /** A disabled channel, or a cascading channel 1-3, shows its stored counter at any time. */
  lemma DValueFrozen(c: Channel, i: ChannelIndex, now: u64)
    requires !FreeRunning(c, i)
    ensures DValue(c, i, now) == c.counter
  {
  }

  /** Channel 3 tests its cascade bit before a free-running overflow; the lazy value makes that test redundant. */
  lemma CascadedNeverFreeOverflows(c: Channel, i: ChannelIndex, now: u64)
    requires HasCascade(i) && CascadeSet(c.control)
    ensures DValue(c, i, now) <= 0xFFFF
  {
  }

  lemma AlignMask64(ts: bv64)
    ensures ts & !63 == ts - ts % 64
  {
  }

  lemma AlignMask256(ts: bv64)
    ensures ts & !255 == ts - ts % 256
  {
  }

  lemma AlignMask1024(ts: bv64)
    ensures ts & !1023 == ts - ts % 1024
  {
  }

  /**
   * `ts & ~(div - 1)` is `ts - ts % div` in u64 arithmetic for each prescaler
   * period above 1: the mask timer.cpp applies is the Align of this model.
   */
  lemma AlignIsMask(ts: bv64)
    ensures ts & !63 == ts - ts % 64
    ensures ts & !255 == ts - ts % 256
    ensures ts & !1023 == ts - ts % 1024
  {
    AlignMask64(ts);
    AlignMask256(ts);
    AlignMask1024(ts);
  }

  // ---------------------------------------------------------------------
  // readIO
  // ---------------------------------------------------------------------

  /** The low byte plus 256 times the next byte is the low 16 bits. */
  lemma LowBytes(x: nat)
    ensures x % 256 + 256 * (x / 256 % 256) == x % TWO_16
  {
  }

  /** The first two bytes of a channel read back the low 16 bits of its live counter. */
  lemma ReadCounter(chs: seq<Channel>, i: ChannelIndex, now: u64, openBus: u32 -> u8)
    requires |chs| == 4
    ensures ReadByte(chs, TIMER_BASE + 4 * i, now, openBus)
      + 256 * ReadByte(chs, TIMER_BASE + 4 * i + 1, now, openBus) == DValue(chs[i], i, now) % TWO_16
  {
    var base := TIMER_BASE + 4 * i;
    assert ChannelAt(base) == i && Port(base) == 0;
    assert ChannelAt(base + 1) == i && Port(base + 1) == 1;
    LowBytes(DValue(chs[i], i, now));
  }

  /**
   * The third byte of a channel reads its control byte and the fourth 0;
   * addresses outside the block read the open bus.
   */
  lemma ReadOther(chs: seq<Channel>, i: ChannelIndex, now: u64, openBus: u32 -> u8, address: u32)
    requires |chs| == 4
    ensures ReadByte(chs, TIMER_BASE + 4 * i + 2, now, openBus) == chs[i].control as int
    ensures ReadByte(chs, TIMER_BASE + 4 * i + 3, now, openBus) == 0
    ensures !IsTimerAddress(address) ==> ReadByte(chs, address, now, openBus) == openBus(address)
  {
    var base := TIMER_BASE + 4 * i;
    assert ChannelAt(base + 2) == i && Port(base + 2) == 2;
    assert ChannelAt(base + 3) == i && Port(base + 3) == 3;
  }

  // ---------------------------------------------------------------------
  // writeIO
  // ---------------------------------------------------------------------

  /** Everything outside channel i is as before. */
  predicate OthersUnchanged(chs: seq<Channel>, chs': seq<Channel>, i: ChannelIndex)
    requires |chs| == 4 && |chs'| == 4
  {
    forall j: ChannelIndex :: j != i ==> chs'[j] == chs[j]
  }

  /** A write to the counter's low byte replaces the low byte of the reload value, and nothing else. */
  lemma WriteReloadLow(chs: seq<Channel>, i: ChannelIndex, value: bv8, now: u64)
    requires |chs| == 4
    ensures var o := AfterWrite(chs, TIMER_BASE + 4 * i, value, now);
      && o.calls == [] && |o.channels| == 4 && OthersUnchanged(chs, o.channels, i)
      && o.channels[i] == chs[i].(reload := o.channels[i].reload)
      && o.channels[i].reload % 256 == value as int
      && o.channels[i].reload / 256 == chs[i].reload / 256
  {
    assert ChannelAt(TIMER_BASE + 4 * i) == i && Port(TIMER_BASE + 4 * i) == 0;
  }

  /** A write to the counter's high byte replaces the high byte of the reload value, and nothing else. */
  lemma WriteReloadHigh(chs: seq<Channel>, i: ChannelIndex, value: bv8, now: u64)
    requires |chs| == 4
    ensures var o := AfterWrite(chs, TIMER_BASE + 4 * i + 1, value, now);
      && o.calls == [] && |o.channels| == 4 && OthersUnchanged(chs, o.channels, i)
      && o.channels[i] == chs[i].(reload := o.channels[i].reload)
      && o.channels[i].reload / 256 == value as int
      && o.channels[i].reload % 256 == chs[i].reload % 256
  {
    assert ChannelAt(TIMER_BASE + 4 * i + 1) == i && Port(TIMER_BASE + 4 * i + 1) == 1;
  }

  /** Writes to the fourth byte of a channel, and outside the timer block, change nothing. */
  lemma WriteIgnored(chs: seq<Channel>, address: u32, value: bv8, now: u64)
    requires |chs| == 4
    requires !IsTimerAddress(address) || Port(address) == 3
    ensures AfterWrite(chs, address, value, now) == Outcome(chs, [])
  {
    if IsTimerAddress(address) {
      assert chs[ChannelAt(address) := chs[ChannelAt(address)]] == chs;
    }
  }

  /**
   * A control write keeps the masked value; it reloads the channel and
   * schedules one event exactly when it enables the channel or changes the
   * prescaler of an enabled one, and the event time uses the old prescaler.
   */
  lemma WriteControlEffect(chs: seq<Channel>, i: ChannelIndex, value: bv8, now: u64)
    requires |chs| == 4
    ensures var o := AfterWrite(chs, TIMER_BASE + 4 * i + 2, value, now);
      var c, c' := chs[i], o.channels[i];
      && |o.channels| == 4 && OthersUnchanged(chs, o.channels, i)
      && c'.control == value & CtrlMask(i) && c'.reload == c.reload
      && (ReloadsOn(c, value) ==>
            && c'.counter == c.reload
            && c'.timestamp == Wrap64(now + WRITE_LATENCY)
            && o.calls == [AddEvent(Wrap64(OverflowTime(c.reload, Divisor(c.control), c'.timestamp)))])
      && (!ReloadsOn(c, value) ==> o.calls == [] && c'.timestamp == c.timestamp)
      && (value & ENABLE != 0 && !ReloadsOn(c, value) ==> c'.counter == c.counter)
      && (value & ENABLE == 0 && Enabled(c.control) ==> c'.counter == DValue(c, i, now) % TWO_16)
      && (value & ENABLE == 0 && !Enabled(c.control) ==> c'.counter == c.counter)
  {
    assert ChannelAt(TIMER_BASE + 4 * i + 2) == i && Port(TIMER_BASE + 4 * i + 2) == 2;
  }

  /**
   * Disabling an enabled channel freezes its counter at the live value of the
   * moment of the write: every later read returns that value.
   */
  lemma DisableFreezes(chs: seq<Channel>, i: ChannelIndex, value: bv8, now: u64, later: u64, openBus: u32 -> u8)
    requires |chs| == 4
    requires value & ENABLE == 0 && Enabled(chs[i].control)
    ensures var o := AfterWrite(chs, TIMER_BASE + 4 * i + 2, value, now);
      && |o.channels| == 4 && o.calls == []
      && o.channels[i].counter == DValue(chs[i], i, now) % TWO_16
      && DValue(o.channels[i], i, later) == DValue(chs[i], i, now) % TWO_16
      && ReadByte(o.channels, TIMER_BASE + 4 * i, later, openBus)
         + 256 * ReadByte(o.channels, TIMER_BASE + 4 * i + 1, later, openBus)
         == DValue(chs[i], i, now) % TWO_16
  {
    var o := AfterWrite(chs, TIMER_BASE + 4 * i + 2, value, now);
    WriteControlEffect(chs, i, value, now);
    MaskKeeps(value, i);
    DValueFrozen(o.channels[i], i, later);
    ReadCounter(o.channels, i, later, openBus);
    Mod16Small(o.channels[i].counter);
  }

  /** The channel mask keeps the enable, prescaler and IRQ bits, and the cascade bit where it exists. */
  lemma MaskKeeps(value: bv8, i: ChannelIndex)
    ensures Enabled(value & CtrlMask(i)) == Enabled(value)
    ensures IrqEnabled(value & CtrlMask(i)) == IrqEnabled(value)
    ensures value & CtrlMask(i) & PRESCALER == value & PRESCALER
    ensures CascadeSet(value & CtrlMask(i)) == (HasCascade(i) && CascadeSet(value))
  {
  }

  // ---------------------------------------------------------------------
  // Scheduled events agree with the lazy counter
  // ---------------------------------------------------------------------

  /**
   * For a free-running channel, OverflowTime is the first cycle at which the
   * lazy counter exceeds 0xFFFF: it reads 0x10000 there and at most 0xFFFF
   * at every cycle from the aligned timestamp up to it.
   */
  lemma {:induction false} OverflowAtScheduledTime(c: Channel, i: ChannelIndex, t: u64)
    requires FreeRunning(c, i)
    requires OverflowTime(c.counter, Divisor(c.control), c.timestamp) < TWO_64
    ensures DValue(c, i, OverflowTime(c.counter, Divisor(c.control), c.timestamp)) == TWO_16
    ensures Align(c.timestamp, Divisor(c.control)) <= t < OverflowTime(c.counter, Divisor(c.control), c.timestamp)
      ==> DValue(c, i, t) <= 0xFFFF
  {
    var d := Divisor(c.control);
    var a := Align(c.timestamp, d);
    var q := TWO_16 - c.counter;
    var f := OverflowTime(c.counter, d, c.timestamp);
    assert f - a == q * d;
    DivByDivisor(f - a, q, d);
    DValueRunning(c, i, f);
    if a <= t < f {
      DivByDivisor(t - a, q, d);
      DValueRunning(c, i, t);
    }
  }

  /**
   * After a free-running overflow the next event is scheduled at the first
   * cycle at which the reloaded channel overflows again.
   */
  lemma RescheduleHitsNextOverflow(c: Channel, i: ChannelIndex, now: u64, previousOverflow: bool, t: u64)
    requires FreeRunning(c, i) && DValue(c, i, now) > 0xFFFF
    requires OverflowTime(c.reload, Divisor(c.control), now) < TWO_64
    ensures var s := OverflowStep(c, i, now, previousOverflow);
      var f := OverflowTime(c.reload, Divisor(c.control), now);
      && Scheduled(s.calls) == [f]
      && DValue(s.channel, i, f) == TWO_16
      && (Align(now, Divisor(c.control)) <= t < f ==> DValue(s.channel, i, t) <= 0xFFFF)
  {
    var s := OverflowStep(c, i, now, previousOverflow);
    var f := OverflowTime(c.reload, Divisor(c.control), now);
    WrapSmall(f);
    var e := [AddEvent(f)];
    assert s.channel == c.(counter := c.reload, timestamp := now);
    assert s.calls == IrqCalls(c, i) + e + AudioCalls(i);
    ScheduledAppend(IrqCalls(c, i), e);
    ScheduledAppend(IrqCalls(c, i) + e, AudioCalls(i));
    assert Scheduled(e) == [f];
    OverflowAtScheduledTime(s.channel, i, t);
  }

  /**
   * Enabling a channel without changing its prescaler bits schedules the event
   * at the first cycle at which the reloaded counter overflows.
   */
  lemma EnableHitsOverflow(chs: seq<Channel>, i: ChannelIndex, value: bv8, now: u64, t: u64)
    requires |chs| == 4
    requires !Enabled(chs[i].control) && value & ENABLE != 0
    requires value & PRESCALER == chs[i].control & PRESCALER
    requires !(HasCascade(i) && value & CASCADE != 0)
    requires OverflowTime(chs[i].reload, Divisor(chs[i].control), Wrap64(now + WRITE_LATENCY)) < TWO_64
    ensures var o := AfterWrite(chs, TIMER_BASE + 4 * i + 2, value, now);
      var f := OverflowTime(chs[i].reload, Divisor(chs[i].control), Wrap64(now + WRITE_LATENCY));
      && |o.channels| == 4 && o.calls == [AddEvent(f)]
      && DValue(o.channels[i], i, f) == TWO_16
      && (Align(Wrap64(now + WRITE_LATENCY), Divisor(chs[i].control)) <= t < f
          ==> DValue(o.channels[i], i, t) <= 0xFFFF)
  {
    var o := AfterWrite(chs, TIMER_BASE + 4 * i + 2, value, now);
    WriteControlEffect(chs, i, value, now);
    WrapSmall(OverflowTime(chs[i].reload, Divisor(chs[i].control), Wrap64(now + WRITE_LATENCY)));
    var c' := o.channels[i];
    MaskKeeps(value, i);
    assert Divisor(c'.control) == Divisor(chs[i].control);
    assert FreeRunning(c', i);
    OverflowAtScheduledTime(c', i, t);
  }

  /**
   * The event of an enabling write is timed with the prescaler in force before
   * the write. Channel 0, disabled with prescaler 1, enabled with prescaler
   * 1024 at cycle 0: the event fires at cycle 65538, when the counter has only
   * reached 64, so that sweep finds no overflow and schedules nothing: the
   * channel's overflow is never reported.
   */
  lemma StalePrescalerLosesOverflow()
    ensures var idle := Channel(0, 0, 0, 0);
      var chs := [idle, idle, idle, idle];
      var o := AfterWrite(chs, TIMER_BASE + 2, 0x83, 0);
      && o.calls == [AddEvent(65538)]
      && DValue(o.channels[0], 0, 65538) == 64
      && AfterOverflowCheck(o.channels, 65538).calls == []
  {
    var idle := Channel(0, 0, 0, 0);
    var chs := [idle, idle, idle, idle];
    WriteControlEffect(chs, 0, 0x83, 0);
    var o := AfterWrite(chs, TIMER_BASE + 2, 0x83, 0);
    var c := Channel(0, 0, 0x83, 2);
    assert o.channels == [c, idle, idle, idle];
    assert Divisor(0x83) == 1024 && Align(2, 1024) == 0;
    DValueRunning(c, 0, 65538);
    assert OverflowStep(c, 0, 65538, false) == Swept(c, [], false);
    DisabledSkipped(idle, 1, 65538, false);
    DisabledSkipped(idle, 2, 65538, false);
    DisabledSkipped(idle, 3, 65538, false);
  }

  /**
   * The scenario of a channel enabled with prescaler 64 at cycle 1000 and
   * reload 0xFFF0 (the prescaler bits already 64 before the write): the
   * timestamp is 1002, its aligned value 960, the event fires at
   * 960 + 16 * 64 = 1984, and at cycle 1500 the counter reads 0xFFF8.
   */
  lemma EnableScenario(openBus: u32 -> u8)
    ensures var idle := Channel(0, 0, 0, 0);
      var chs := [Channel(0, 0xFFF0, 0x01, 0), idle, idle, idle];
      var o := AfterWrite(chs, TIMER_BASE + 2, 0x81, 1000);
      && o.channels[0].timestamp == 1002
      && o.calls == [AddEvent(1984)]
      && ReadByte(o.channels, TIMER_BASE, 1500, openBus)
         + 256 * ReadByte(o.channels, TIMER_BASE + 1, 1500, openBus) == 0xFFF8
  {
    var idle := Channel(0, 0, 0, 0);
    var chs := [Channel(0, 0xFFF0, 0x01, 0), idle, idle, idle];
    WriteControlEffect(chs, 0, 0x81, 1000);
    var o := AfterWrite(chs, TIMER_BASE + 2, 0x81, 1000);
    var c := Channel(0xFFF0, 0xFFF0, 0x81, 1002);
    assert o.channels[0] == c;
    assert Divisor(0x01) == 64 && Divisor(0x81) == 64 && Align(1002, 64) == 960;
    DValueRunning(c, 0, 1500);
    ReadCounter(o.channels, 0, 1500, openBus);
  }

  // ---------------------------------------------------------------------
  // checkOverflow
  // ---------------------------------------------------------------------

  /** A disabled channel is skipped and the cascade flag passes it unchanged. */
  lemma DisabledSkipped(c: Channel, i: ChannelIndex, now: u64, previousOverflow: bool)
    requires !Enabled(c.control)
    ensures OverflowStep(c, i, now, previousOverflow) == Swept(c, [], previousOverflow)
  {
  }

  /**
   * A free-running overflow requests the channel's IRQ exactly when its IRQ
   * bit is set, reloads the counter, restamps the channel, schedules exactly
   * one event, reports to the APU exactly for channels 0 and 1, and raises
   * the cascade flag.
   */
  lemma FreeRunningOverflow(c: Channel, i: ChannelIndex, now: u64, previousOverflow: bool)
    requires Enabled(c.control) && DValue(c, i, now) > 0xFFFF
    ensures var s := OverflowStep(c, i, now, previousOverflow);
      && s.channel == c.(counter := c.reload, timestamp := now)
      && s.overflow
      && (RequestInterrupt(i) in s.calls <==> IrqEnabled(c.control))
      && (OnTimer(i) in s.calls <==> DrivesAudio(i))
      && Scheduled(s.calls) == [Wrap64(OverflowTime(c.reload, Divisor(c.control), now))]
  {
    var f := Wrap64(OverflowTime(c.reload, Divisor(c.control), now));
    ScheduledAppend(IrqCalls(c, i), [AddEvent(f)]);
    ScheduledAppend(IrqCalls(c, i) + [AddEvent(f)], AudioCalls(i));
  }

  /**
   * An enabled cascading channel counts one pulse exactly when the flag is
   * raised. A wrap to 0 requests its IRQ (if enabled) and schedules nothing;
   * the counter is not reloaded. The flag stays raised after a pulse even
   * when the counter does not wrap.
   */
  lemma CascadePulse(c: Channel, i: ChannelIndex, now: u64, previousOverflow: bool)
    requires Enabled(c.control) && HasCascade(i) && CascadeSet(c.control)
    ensures var s := OverflowStep(c, i, now, previousOverflow);
      && (!previousOverflow ==> s == Swept(c, [], false))
      && (previousOverflow ==>
            && s.channel == c.(counter := (c.counter + 1) % TWO_16)
            && s.overflow
            && Scheduled(s.calls) == []
            && (RequestInterrupt(i) in s.calls <==> c.counter == 0xFFFF && IrqEnabled(c.control))
            && (OnTimer(i) in s.calls <==> c.counter == 0xFFFF && DrivesAudio(i)))
  {
    CascadedNeverFreeOverflows(c, i, now);
    if previousOverflow && c.counter == 0xFFFF {
      ScheduledAppend(IrqCalls(c, i), AudioCalls(i));
    }
  }

  lemma IncMod16(x: int)
    ensures (x % TWO_16 + 1) % TWO_16 == (x + 1) % TWO_16
  {
  }

  lemma Mod16Small(x: nat)
    requires x < TWO_16
    ensures x % TWO_16 == x
  {
  }

  lemma LastBeforeWrap(x: nat)
    ensures x % TWO_16 == 0xFFFF <==> (x + 1) % TWO_16 == 0
  {
  }

  /** The channel after n cascade pulses. */
  function Pulsed(c: Channel, i: ChannelIndex, n: nat): Channel {
    if n == 0 then c else OverflowStep(Pulsed(c, i, n - 1), i, 0, true).channel
  }

  /** n pulses advance a cascading channel's counter by n, modulo 2^16. */
  lemma {:induction false} PulsedCounter(c: Channel, i: ChannelIndex, n: nat)
    requires Enabled(c.control) && HasCascade(i) && CascadeSet(c.control)
    ensures Pulsed(c, i, n) == c.(counter := (c.counter + n) % TWO_16)
  {
    if n > 0 {
      PulsedCounter(c, i, n - 1);
      var p := Pulsed(c, i, n - 1);
      CascadePulse(p, i, 0, true);
      IncMod16(c.counter + n - 1);
    }
  }

  /**
   * A cascading channel counts every pulse, and the pulse that takes it past
   * 0xFFFF is the one that requests its IRQ: from counter k that is pulse
   * number 0x10000 - k.
   */
  lemma CascadeCountsPulses(c: Channel, i: ChannelIndex, n: nat, now: u64)
    requires Enabled(c.control) && HasCascade(i) && CascadeSet(c.control)
    ensures Pulsed(c, i, n) == c.(counter := (c.counter + n) % TWO_16)
    ensures var s := OverflowStep(Pulsed(c, i, n), i, now, true);
      RequestInterrupt(i) in s.calls <==> IrqEnabled(c.control) && (c.counter + n + 1) % TWO_16 == 0
  {
    PulsedCounter(c, i, n);
    CascadePulse(c.(counter := (c.counter + n) % TWO_16), i, now, true);
    LastBeforeWrap(c.counter + n);
  }

  /**
   * The sweep re-evaluates every channel: each enabled free-running channel
   * whose lazy value has passed 0xFFFF is reloaded, whichever channel's event
   * fired, and disabled channels are left as they are.
   */
  lemma SweepVisitsAll(chs: seq<Channel>, now: u64, i: ChannelIndex)
    requires |chs| == 4
    ensures |AfterOverflowCheck(chs, now).channels| == 4
    ensures FreeRunning(chs[i], i) && DValue(chs[i], i, now) > 0xFFFF ==>
      AfterOverflowCheck(chs, now).channels[i] == chs[i].(counter := chs[i].reload, timestamp := now)
    ensures !Enabled(chs[i].control) ==> AfterOverflowCheck(chs, now).channels[i] == chs[i]
  {
  }

  /**
   * The cascade flag is not cleared by a cascade pulse that does not wrap:
   * when channel 0 overflows, a cascading channel 2 counts a pulse even
   * though the cascading channel 1 between them did not overflow.
   */
  lemma CascadeFlagLeaks(chs: seq<Channel>, now: u64)
    requires |chs| == 4
    requires FreeRunning(chs[0], 0) && DValue(chs[0], 0, now) > 0xFFFF
    requires Enabled(chs[1].control) && CascadeSet(chs[1].control) && chs[1].counter < 0xFFFF
    requires Enabled(chs[2].control) && CascadeSet(chs[2].control)
    ensures var o := AfterOverflowCheck(chs, now);
      && |o.channels| == 4
      && o.channels[1].counter == chs[1].counter + 1
      && o.channels[2].counter == (chs[2].counter + 1) % TWO_16
  {
    FreeRunningOverflow(chs[0], 0, now, false);
    CascadePulse(chs[1], 1, now, true);
    CascadePulse(chs[2], 2, now, true);
    var s0 := OverflowStep(chs[0], 0, now, false);
    var s1 := OverflowStep(chs[1], 1, now, s0.overflow);
    var s2 := OverflowStep(chs[2], 2, now, s1.overflow);
    assert s0.overflow;
    Mod16Small(chs[1].counter + 1);
    assert s2.channel.counter == (chs[2].counter + 1) % TWO_16;
    var o := AfterOverflowCheck(chs, now);
    assert o.channels[1] == s1.channel && o.channels[2] == s2.channel;
  }

  /** After reset no channel runs: a sweep changes nothing and calls nobody. */
  lemma ResetIsQuiet(chs: seq<Channel>, now: u64)
    requires |chs| == 4
    requires forall i: ChannelIndex :: chs[i].control == 0
    ensures AfterOverflowCheck(chs, now) == Outcome(chs, [])
  {
    assert [chs[0], chs[1], chs[2], chs[3]] == chs;
  }
}
