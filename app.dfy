/**
 * The demo application: a polled state machine (`app::task`) that reads two
 * buttons, cycles a display mode shown on two LEDs, and drives the LED bar
 * from the potentiometer, a button counter or a temperature. The file-scope
 * variables of the source are the fields of `App`; the pure functions
 * `Buttons` and `Step` state what one call of `handleButtons` and of
 * `app::task` does to them.
 */
module App {
  import opened Wrappers
  import Util
  import Gpio
  import LedBar
  import Adc

  /** `S_init`, `S_idle`, `S_update`, `S_exit`. */
  datatype AppState = Init | Idle | Update | Exit

  const ModePotBar: int := 0
  const ModePotValue: int := 1
  const ModeBtn1: int := 2
  const ModeTemp: int := 3
  /** `M__end_`: the number of modes, all of which two LEDs can show. */
  const ModeCount: int := 4

  /** The PCB temperature `S_update` stores in place of a measurement. */
  const PcbTempPlaceholder: real := 3.7499

  /** The application's variables; `tpBtn0` is the function-static of `handleButtons`. */
  datatype Vars = Vars(
    state: AppState,
    mode: int,
    pot: Adc.Result,
    btn1Cnt: bv8,
    tempCpu: real,
    tempPcb: real,
    showTempPcb: bool,
    tpUpdate: int,
    tpBtn0: int,
    exitSignal: bool)

  /** The variables before the first tick: static zero-initialisation and `state = S_init`. */
  const StaticInit: Vars := Vars(Init, 0, Adc.Result(0), 0, 0.0, 0.0, false, 0, 0, false)

  /** What `handleButtons` uses of a button: its debounced state and its falling edge. */
  datatype ButtonView = ButtonView(state: bool, neg: bool)

  /** Logical states written to LED0 and LED1. */
  datatype Leds = Leds(led0: bool, led1: bool)

  /** `++mode; if (mode >= M__end_) mode = 0;` */
  function NextMode(mode: int): (m: int)
    ensures 0 <= mode < ModeCount ==> 0 <= m < ModeCount && m == (mode + 1) % ModeCount
  {
    if mode + 1 >= ModeCount then 0 else mode + 1
  }

  /** LED0 shows bit 0 and LED1 bit 1 of the mode; read back as a binary number they give the mode. */
  function ModeLeds(mode: int): (l: Leds)
    requires 0 <= mode < ModeCount
    ensures (if l.led0 then 1 else 0) + (if l.led1 then 2 else 0) == mode
  {
    Leds(mode % 2 == 1, (mode / 2) % 2 == 1)
  }

  /** The counter step on a BTN1 falling edge in counter mode, chosen by the potentiometer's norm. */
  function CounterStep(cnt: bv8, pot: Adc.Result): bv8
  {
    var n := pot.Norm();
    if n >= 0.75 then cnt + 0x10
    else if n >= 0.5 then cnt + 1
    else if n >= 0.25 then cnt - 1
    else cnt - 0x10
  }

  /** The step by raw ADC value: the norm thresholds fall between raw 767/768, 511/512 and 255/256. */
  function CounterDelta(value: bv16): int
  {
    if value >= 768 then 0x10 else if value >= 512 then 1 else if value >= 256 then -1 else -0x10
  }

  /** A long press: the button has been held for at least 1000 ms since `tpBtn0` was last stamped. */
  predicate LongPress(v: Vars, b0: ButtonView, now: int)
  {
    b0.state && Util.ElapsedMs(now, v.tpBtn0, 1000)
  }

  /** The outcome of `handleButtons`: the new variables and the LED states written, if any. */
  datatype Handled = Handled(vars: Vars, leds: Option<Leds>)

  /** The first block of `handleButtons`: stamp `tpBtn0` while BTN0 is released; a long press exits. */
  function LongPressStep(v: Vars, b0: ButtonView, now: int): Vars
  {
    var tpBtn0 := if !b0.state then now else v.tpBtn0;
    v.(tpBtn0 := tpBtn0, state := if Util.ElapsedMs(now, tpBtn0, 1000) then Exit else v.state)
  }

  /** The second block: a BTN0 falling edge advances the mode, shows it on the LEDs and arms an update. */
  function ModeStep(v: Vars, b0: ButtonView): Handled
    requires 0 <= v.mode < ModeCount
  {
    if b0.neg then Handled(v.(mode := NextMode(v.mode), tpUpdate := -Util.SecondUs), Some(ModeLeds(NextMode(v.mode))))
    else Handled(v, None)
  }

  /** The third block: a BTN1 falling edge steps the counter or toggles the temperature source, by mode. */
  function Btn1Step(v: Vars, b1: ButtonView): Vars
  {
    if b1.neg && v.mode == ModeBtn1 then v.(btn1Cnt := CounterStep(v.btn1Cnt, v.pot))
    else if b1.neg && v.mode == ModeTemp then v.(showTempPcb := !v.showTempPcb)
    else v
  }

  /** `handleButtons(tpNow)`: the three blocks in order. */
  function Buttons(v: Vars, b0: ButtonView, b1: ButtonView, now: int): (h: Handled)
    requires 0 <= v.mode < ModeCount
    ensures 0 <= h.vars.mode < ModeCount
  {
    var m := ModeStep(LongPressStep(v, b0, now), b0);
    Handled(Btn1Step(m.vars, b1), m.leds)
  }

  /** Number of lit bar LEDs in `M_potBar`: `(int)(norm * 8 + 0.5)`, the nearest integer to norm * 8. */
  function BarLength(pot: Adc.Result): (k: int)
    ensures k >= 0
    ensures pot.value <= 1023 ==> k <= 8
    ensures k as real - 0.5 <= pot.Norm() * 8.0 < k as real + 0.5
  {
    Util.TruncToInt(pot.Norm() * 8.0 + 0.5)
  }

  /** `M_potValue`: `(uint8_t)(value >> 2)`, the upper eight of the ten ADC bits. */
  function PotByte(pot: Adc.Result): bv8
  {
    ((pot.value >> 2) & 0xFF) as bv8
  }

  /**
   * `M_temp`: the temperature as unsigned 7.1 fixed point rounded to the
   * nearest half degree, `(int)((t + 0.25) * 2)`; out of range shows as 0xFF.
   */
  function TempFixed(t: real): (f: int)
    ensures 0 <= f < 256
    ensures 0.0 <= t < 127.75 ==> t - 0.25 < f as real / 2.0 <= t + 0.25
    ensures !(0.0 <= t < 127.75) ==> f == 0xFF
  {
    if t < 0.0 || t >= 127.75 then 0xFF
    else Util.TruncToInt((t + 0.25) * 2.0)
  }

  /** The byte `setLedBar` sends for the current mode. */
  function LedBarByte(v: Vars): bv8
    requires 0 <= v.mode < ModeCount
  {
    if v.mode == ModePotBar then LedBar.BarMask(BarLength(v.pot))
    else if v.mode == ModePotValue then PotByte(v.pot)
    else if v.mode == ModeBtn1 then v.btn1Cnt
    else TempFixed(if v.showTempPcb then v.tempPcb else v.tempCpu) as bv8
  }

  /**
   * One call of `app::task`: the new variables, the state the switch
   * dispatched on, the final LED states if any were written, and the byte
   * sent to the LED bar if any.
   */
  datatype Tick = Tick(vars: Vars, phase: AppState, leds: Option<Leds>, bar: Option<bv8>)

  /**
   * `app::task(tpNow)`: `handleButtons` first, then the state switch. `pot`
   * is what `readPoti` returns this tick and `cpuTemp` what the CPU
   * temperature query delivers (None: the query failed and `tempCPU` keeps
   * its value).
   */
  function Step(v: Vars, b0: ButtonView, b1: ButtonView, now: int, pot: Adc.Result, cpuTemp: Option<real>): (t: Tick)
    requires 0 <= v.mode < ModeCount
    ensures 0 <= t.vars.mode < ModeCount
  {
    var h := Buttons(v, b0, b1, now);
    var w := h.vars;
    match w.state
    case Init => Tick(InitVars(w), Init, Some(Leds(false, false)), None)
    case Idle => Tick(IdleVars(w, now), Idle, h.leds, None)
    case Update => var u := UpdateVars(w, pot, cpuTemp); Tick(u, Update, h.leds, Some(LedBarByte(u)))
    case Exit => Tick(w.(exitSignal := true), Exit, h.leds, Some(0))
  }

  /** `S_init`: mode 0, readings and counter cleared, PCB source, update armed; on to `S_idle`. */
  function InitVars(w: Vars): Vars
  {
    w.(state := Idle, mode := ModePotBar, pot := Adc.Result(0), btn1Cnt := 0,
       tempCpu := 0.0, tempPcb := 0.0, showTempPcb := true, tpUpdate := -Util.SecondUs)
  }

  /** `S_idle`: on to `S_update`, restamping `tpUpdate`, once 30 ms have elapsed. */
  function IdleVars(w: Vars, now: int): Vars
  {
    if Util.ElapsedMs(now, w.tpUpdate, 30) then w.(state := Update, tpUpdate := now) else w
  }

  /** `S_update`: new potentiometer reading, CPU temperature if the query succeeded, placeholder PCB temperature. */
  function UpdateVars(w: Vars, pot: Adc.Result, cpuTemp: Option<real>): Vars
  {
    w.(pot := pot, tempCpu := if cpuTemp.Some? then cpuTemp.value else w.tempCpu, tempPcb := PcbTempPlaceholder)
  }

  /** The LED-bar events of one tick. */
  function BarEvents(bar: Option<bv8>, status: int): seq<LedBar.Event>
  {
    if bar.Some? then LedBar.Transaction(bar.value, status) else []
  }

  /** The ADC bus events of one tick: one read of channel 0 in `S_update`. */
  function AdcEvents(phase: AppState): seq<Adc.Event>
  {
    if phase == Update
    then [Adc.ChipSelect(false), Adc.Transfer(Adc.Command(0)), Adc.ChipSelect(true)]
    else []
  }

  /** `modeString`. */
  function ModeString(mode: int): string
  {
    if mode == ModePotBar then "potentiometer => LED bar"
    else if mode == ModePotValue then "potentiometer => LED bar (as binary value)"
    else if mode == ModeBtn1 then "BTN1 counter => LED bar"
    else if mode == ModeTemp then "PCB/CPU temp => LED bar (fixed point 7.1)"
    else "#" + DecimalString(mode)
  }

  /** `std::to_string` of an int. */
  function DecimalString(n: int): string
  {
    if n < 0 then "-" + Digits(-n) else Digits(n)
  }

  function DigitChar(d: nat): char
    requires d < 10
  {
    ('0' as int + d) as char
  }

  predicate IsDigit(c: char)
  {
    '0' <= c <= '9'
  }

  /** The decimal digits of n, most significant first, without leading zeros. */
  function Digits(n: nat): (s: string)
    ensures |s| >= 1
    ensures forall i :: 0 <= i < |s| ==> IsDigit(s[i])
    ensures n > 0 ==> s[0] != '0'
  {
    if n < 10 then [DigitChar(n)] else Digits(n / 10) + [DigitChar(n % 10)]
  }

  /** The value of a string of decimal digits. */
  function DigitsValue(s: string): int
    requires forall i :: 0 <= i < |s| ==> IsDigit(s[i])
  {
    if |s| == 0 then 0
    else DigitsValue(s[..|s| - 1]) * 10 + (s[|s| - 1] as int - '0' as int)
  }

  lemma {:induction false} DigitsRoundTrip(n: nat)
    ensures DigitsValue(Digits(n)) == n
  {
    var s := Digits(n);
    if n >= 10 {
      DigitsRoundTrip(n / 10);
      assert s[..|s| - 1] == Digits(n / 10);
    }
  }

  /** The four modes have four different names, and any other value is printed as `#` and its number. */
  lemma ModeStrings(mode: int)
    ensures 0 <= mode < ModeCount ==> forall m :: 0 <= m < ModeCount && m != mode ==> ModeString(m) != ModeString(mode)
    ensures !(0 <= mode < ModeCount) ==> ModeString(mode)[0] == '#'
    ensures mode >= ModeCount ==> DigitsValue(ModeString(mode)[1..]) == mode
  {
    if mode >= ModeCount {
      assert ModeString(mode)[1..] == Digits(mode);
      DigitsRoundTrip(mode);
    }
    if 0 <= mode < ModeCount {
      forall m | 0 <= m < ModeCount && m != mode
        ensures ModeString(m) != ModeString(mode)
      {
        assert |ModeString(0)| == 24 && |ModeString(1)| == 42 && |ModeString(2)| == 23 && |ModeString(3)| == 41;
      }
    }
  }

  /** A negative mode is printed as `#`, a minus sign and the digits of its magnitude. */
  lemma NegativeModeString(mode: int)
    requires mode < 0
    ensures ModeString(mode)[..2] == "#-"
    ensures DigitsValue(ModeString(mode)[2..]) == -mode
  {
    var digits := Digits(-mode);
    assert ModeString(mode) == "#-" + digits;
    SplitAfterPrefix("#-", digits);
    DigitsRoundTrip(-mode);
  }

  lemma SplitAfterPrefix(prefix: string, rest: string)
    ensures (prefix + rest)[..|prefix|] == prefix && (prefix + rest)[|prefix|..] == rest
  {
  }

  // ---------------------------------------------------------------------
  // Properties of the state machine
  // ---------------------------------------------------------------------

  /**
   * A long press: BTN0's stamp `tpBtn0` is refreshed on every tick it is
   * released, so the state becomes `S_exit` exactly when BTN0 is held and
   * 1000 ms have passed since the last tick it was released; otherwise
   * `handleButtons` leaves the state alone.
   */
  lemma LongPressExits(v: Vars, b0: ButtonView, b1: ButtonView, now: int)
    requires 0 <= v.mode < ModeCount
    ensures Buttons(v, b0, b1, now).vars.state == (if LongPress(v, b0, now) then Exit else v.state)
    ensures !b0.state ==> Buttons(v, b0, b1, now).vars.tpBtn0 == now
  {
  }

  /**
   * Buttons are handled before the state switch, so in the first `S_init`
   * tick a BTN0 edge is overwritten: the tick ends in `S_idle` with mode 0,
   * both LEDs off, counter and readings cleared, the PCB source selected and
   * an update armed, whatever the buttons did.
   */
  lemma InitTick(v: Vars, b0: ButtonView, b1: ButtonView, now: int, pot: Adc.Result, cpuTemp: Option<real>)
    requires 0 <= v.mode < ModeCount && v.state == Init && !LongPress(v, b0, now)
    ensures var t := Step(v, b0, b1, now, pot, cpuTemp);
            && t.vars.state == Idle && t.vars.mode == ModePotBar
            && t.leds == Some(Leds(false, false)) && t.bar == None
            && t.vars.btn1Cnt == 0 && t.vars.pot == Adc.Result(0)
            && t.vars.tempCpu == 0.0 && t.vars.tempPcb == 0.0 && t.vars.showTempPcb
            && t.vars.tpUpdate == -Util.SecondUs && t.vars.exitSignal == v.exitSignal
  {
    LongPressExits(v, b0, b1, now);
  }

  /** After `S_init` the next tick at any non-negative clock reading starts an update at once. */
  lemma InitArmsUpdate(now: int)
    requires now >= 0
    ensures Util.ElapsedMs(now, -Util.SecondUs, 30)
  {
  }

  /**
   * `S_idle` moves to `S_update` exactly when 30 ms have elapsed since
   * `tpUpdate` (as `handleButtons` left it) and then restamps it to now;
   * otherwise nothing but the buttons' effects changes.
   */
  lemma IdleTick(v: Vars, b0: ButtonView, b1: ButtonView, now: int, pot: Adc.Result, cpuTemp: Option<real>)
    requires 0 <= v.mode < ModeCount && v.state == Idle && !LongPress(v, b0, now)
    ensures var h := Buttons(v, b0, b1, now);
            var t := Step(v, b0, b1, now, pot, cpuTemp);
            && (t.vars.state == Update <==> Util.ElapsedMs(now, h.vars.tpUpdate, 30))
            && (t.vars.state == Update ==> t.vars == h.vars.(state := Update, tpUpdate := now))
            && (t.vars.state != Update ==> t.vars == h.vars && t.vars.state == Idle)
            && t.bar == None && t.leds == h.leds
  {
    LongPressExits(v, b0, b1, now);
  }

  /**
   * `S_update` never leaves by itself: short of a long press the state stays
   * `S_update`, and each tick stores the new reading, the CPU temperature
   * (when the query succeeds), the PCB placeholder, and sends the mode's byte
   * to the LED bar.
   */
  lemma UpdateTick(v: Vars, b0: ButtonView, b1: ButtonView, now: int, pot: Adc.Result, cpuTemp: Option<real>)
    requires 0 <= v.mode < ModeCount && v.state == Update && !LongPress(v, b0, now)
    ensures var t := Step(v, b0, b1, now, pot, cpuTemp);
            && t.vars.state == Update && t.phase == Update
            && t.vars.pot == pot && t.vars.tempPcb == PcbTempPlaceholder
            && t.vars.tempCpu == (if cpuTemp.Some? then cpuTemp.value else v.tempCpu)
            && t.bar == Some(LedBarByte(t.vars))
  {
    LongPressExits(v, b0, b1, now);
  }

  /**
   * `S_exit` is final: every later tick stays there, sends 0 to the bar and
   * keeps the exit flag set, and `app::exit()` reports it.
   */
  lemma ExitIsFinal(v: Vars, b0: ButtonView, b1: ButtonView, now: int, pot: Adc.Result, cpuTemp: Option<real>)
    requires 0 <= v.mode < ModeCount && v.state == Exit
    ensures var t := Step(v, b0, b1, now, pot, cpuTemp);
            t.vars.state == Exit && t.vars.exitSignal && t.bar == Some(0)
  {
    LongPressExits(v, b0, b1, now);
  }

  /** A long press in any state ends the tick in `S_exit` with the flag set and the bar cleared. */
  lemma LongPressEndsInExit(v: Vars, b0: ButtonView, b1: ButtonView, now: int, pot: Adc.Result, cpuTemp: Option<real>)
    requires 0 <= v.mode < ModeCount && LongPress(v, b0, now)
    ensures var t := Step(v, b0, b1, now, pot, cpuTemp);
            t.phase == Exit && t.vars.state == Exit && t.vars.exitSignal && t.bar == Some(0)
  {
    LongPressExits(v, b0, b1, now);
  }

  /** The exit flag is set by a tick exactly when that tick ran `S_exit`, and is never cleared. */
  lemma ExitFlag(v: Vars, b0: ButtonView, b1: ButtonView, now: int, pot: Adc.Result, cpuTemp: Option<real>)
    requires 0 <= v.mode < ModeCount
    ensures var t := Step(v, b0, b1, now, pot, cpuTemp);
            t.vars.exitSignal <==> v.exitSignal || t.phase == Exit
  {
    var w := Buttons(v, b0, b1, now).vars;
    assert w.exitSignal == v.exitSignal;
    match w.state
    case Init => assert InitVars(w).exitSignal == v.exitSignal;
    case Idle => assert IdleVars(w, now).exitSignal == v.exitSignal;
    case Update => assert UpdateVars(w, pot, cpuTemp).exitSignal == v.exitSignal;
    case Exit =>
  }

  /**
   * Holding BTN0 from power-up exits in the very first tick: `tpBtn0` starts
   * at 0 and is never stamped, so once the clock is past one second the long
   * press fires before `S_init` runs.
   */
  lemma HeldAtStartup(b1: ButtonView, now: int, pot: Adc.Result, cpuTemp: Option<real>)
    requires now >= Util.SecondUs
    ensures var t := Step(StaticInit, ButtonView(true, false), b1, now, pot, cpuTemp);
            t.phase == Exit && t.vars.exitSignal && t.bar == Some(0)
  {
    LongPressEndsInExit(StaticInit, ButtonView(true, false), b1, now, pot, cpuTemp);
  }

  /**
   * A BTN0 falling edge advances the mode modulo 4, shows the new mode in
   * binary on LED0/LED1 and arms an immediate update; without one, the mode
   * and the LEDs are left alone.
   */
  lemma ModeButton(v: Vars, b0: ButtonView, b1: ButtonView, now: int)
    requires 0 <= v.mode < ModeCount
    ensures var h := Buttons(v, b0, b1, now);
            && (b0.neg ==> h.vars.mode == (v.mode + 1) % ModeCount && h.leds == Some(ModeLeds(h.vars.mode))
                           && h.vars.tpUpdate == -Util.SecondUs)
            && (!b0.neg ==> h.vars.mode == v.mode && h.leds == None && h.vars.tpUpdate == v.tpUpdate)
  {
  }

  /** Four BTN0 presses bring the mode back. */
  lemma ModeCycle(mode: int)
    requires 0 <= mode < ModeCount
    ensures NextMode(NextMode(NextMode(NextMode(mode)))) == mode
  {
  }

  /**
   * A BTN1 falling edge steps the counter in counter mode and toggles the
   * temperature source in temperature mode (the mode as BTN0 left it in the
   * same tick); otherwise, and without an edge, both are left alone.
   */
  lemma CounterButton(v: Vars, b0: ButtonView, b1: ButtonView, now: int)
    requires 0 <= v.mode < ModeCount
    ensures var h := Buttons(v, b0, b1, now);
            && h.vars.btn1Cnt == (if b1.neg && h.vars.mode == ModeBtn1 then CounterStep(v.btn1Cnt, v.pot) else v.btn1Cnt)
            && h.vars.showTempPcb == (if b1.neg && h.vars.mode == ModeTemp then !v.showTempPcb else v.showTempPcb)
  {
  }

  /**
   * The counter step by raw reading: +0x10, +1, -1 or -0x10 for the four
   * quarters of the ADC range, modulo 256 (uint8 wrap-around).
   */
  lemma CounterStepByRaw(cnt: bv8, pot: Adc.Result)
    ensures CounterStep(cnt, pot) as int == (cnt as int + CounterDelta(pot.value)) % 256
  {
    Adc.NormBands(pot);
    var d := CounterDelta(pot.value);
    if d == 0x10 {
      assert CounterStep(cnt, pot) == cnt + 0x10;
    } else if d == 1 {
      assert CounterStep(cnt, pot) == cnt + 1;
    } else if d == -1 {
      assert CounterStep(cnt, pot) == cnt - 1;
    } else {
      assert CounterStep(cnt, pot) == cnt - 0x10;
    }
  }

  /** The counter wraps: 0xFF + 0x10 is 0x0F, and 0x00 - 0x10 is 0xF0. */
  lemma CounterWraps()
    ensures CounterStep(0xFF, Adc.Result(800)) == 0x0F
    ensures CounterStep(0x00, Adc.Result(0)) == 0xF0
  {
    Adc.NormBands(Adc.Result(800));
    Adc.NormBands(Adc.Result(0));
  }

  /** With the emulated potentiometer (raw 600) a BTN1 press in counter mode adds one. */
  lemma CounterWithEmulatedPot(cnt: bv8)
    ensures CounterStep(cnt, Adc.Interpret(Adc.EmuReply(Adc.Command(0)))) == cnt + 1
  {
    Adc.PotiAgainstEmulator();
  }

  /** The bar in `M_potBar` is never longer than 8 for a 10-bit reading, and full only from raw 960 on. */
  lemma PotBarRange(pot: Adc.Result)
    requires pot.value <= 1023
    ensures 0 <= BarLength(pot) <= 8
    ensures BarLength(pot) == 8 <==> pot.value >= 960
  {
    var n := pot.Norm() * 8.0;
    assert n == pot.value as real * 8.0 / 1023.0;
  }

  /** `M_temp` with the PCB placeholder 3.7499 shows 7, i.e. 3.5 degrees in 7.1 fixed point. */
  lemma PcbPlaceholderOnBar()
    ensures TempFixed(PcbTempPlaceholder) == 7
  {
    assert (PcbTempPlaceholder + 0.25) * 2.0 == 7.9998;
  }

  /**
   * The 7.1 encoding read back: for every byte below 0xFF, the temperature
   * it stands for encodes to it again.
   */
  lemma TempFixedRoundTrip(b: int)
    requires 0 <= b < 255
    ensures TempFixed(b as real / 2.0) == b
  {
  }

  /**
   * `M_potValue` drops only the two least significant bits of a 10-bit ADC
   * value: the byte and those two bits give the value back, and a larger
   * value never shows a smaller byte.
   */
  lemma PotByteValue(pot: Adc.Result, other: Adc.Result)
    requires pot.value <= 1023 && other.value <= 1023
    ensures ((PotByte(pot) as bv16) << 2) | (pot.value & 0x03) == pot.value
    ensures pot.value <= other.value ==> PotByte(pot) <= PotByte(other)
  {
  }

  /**
   * What the bar shows in the first three modes, for a 10-bit ADC value: the
   * lowest `BarLength` segments lit, the upper eight ADC bits, or the counter.
   */
  lemma BarByteByMode(v: Vars)
    requires 0 <= v.mode < ModeCount && v.pot.value <= 1023
    ensures v.mode == ModePotBar ==>
              forall i :: 0 <= i < 8 ==> (LedBar.Bit(LedBarByte(v), i) <==> i < BarLength(v.pot))
    ensures v.mode == ModePotValue ==> ((LedBarByte(v) as bv16) << 2) | (v.pot.value & 0x03) == v.pot.value
    ensures v.mode == ModeBtn1 ==> LedBarByte(v) == v.btn1Cnt
  {
    if v.mode == ModePotBar {
      var k := BarLength(v.pot);
      assert k % 9 == k;
    } else if v.mode == ModePotValue {
      PotByteValue(v.pot, v.pot);
    }
  }

  // ---------------------------------------------------------------------
  // The application object
  // ---------------------------------------------------------------------

  class App {
    const btn0: Gpio.Input
    const btn1: Gpio.Input
    const led0: Gpio.Output
    const led1: Gpio.Output
    const bar: LedBar.Bar
    const adc: Adc.Converter

    var state: AppState
    var mode: int
    var pot: Adc.Result
    var btn1Cnt: bv8
    var tempCpu: real
    var tempPcb: real
    var showTempPcb: bool
    var tpUpdate: int
    var tpBtn0: int
    var exitSignal: bool

    function Snapshot(): Vars
      reads this
    {
      Vars(state, mode, pot, btn1Cnt, tempCpu, tempPcb, showTempPcb, tpUpdate, tpBtn0, exitSignal)
    }

    ghost predicate Valid()
      reads this
    {
      0 <= mode < ModeCount && led0.pin != led1.pin && btn0.edge != btn1.edge
    }

    /** What `handleButtons` sees of a button. */
    function View(btn: Gpio.Input): ButtonView
      reads btn.edge
    {
      ButtonView(btn.State(), btn.Neg())
    }

    constructor (btn0: Gpio.Input, btn1: Gpio.Input, led0: Gpio.Output, led1: Gpio.Output,
                 bar: LedBar.Bar, adc: Adc.Converter)
      requires led0.pin != led1.pin && btn0.edge != btn1.edge
      ensures Valid() && Snapshot() == StaticInit
      ensures this.btn0 == btn0 && this.btn1 == btn1 && this.led0 == led0 && this.led1 == led1
      ensures this.bar == bar && this.adc == adc
    {
      this.btn0 := btn0;
      this.btn1 := btn1;
      this.led0 := led0;
      this.led1 := led1;
      this.bar := bar;
      this.adc := adc;
      state := Init;
      mode := 0;
      pot := Adc.Result(0);
      btn1Cnt := 0;
      tempCpu := 0.0;
      tempPcb := 0.0;
      showTempPcb := false;
      tpUpdate := 0;
      tpBtn0 := 0;
      exitSignal := false;
    }

    /** `app::exit()`. */
    function Exit(): (r: bool)
      reads this
      ensures r == Snapshot().exitSignal
    {
      exitSignal
    }

    /** `handleButtons(tpNow)`: its three blocks in order. */
    method HandleButtons(now: int)
      requires Valid()
      modifies this, led0.pin, led1.pin
      ensures Valid()
      ensures var h := Buttons(old(Snapshot()), old(View(btn0)), old(View(btn1)), now);
              && Snapshot() == h.vars
              && (h.leds.Some? ==> led0.pin.level == Gpio.DriveLevel(led0.polarity, h.leds.value.led0)
                                   && led1.pin.level == Gpio.DriveLevel(led1.polarity, h.leds.value.led1))
              && (h.leds.None? ==> led0.pin.level == old(led0.pin.level) && led1.pin.level == old(led1.pin.level))
    {
      CheckLongPress(now);
      CheckBtn0();
      CheckBtn1();
    }

    /** First block of `handleButtons`: long press on BTN0. */
    method CheckLongPress(now: int)
      modifies this
      ensures Snapshot() == LongPressStep(old(Snapshot()), View(btn0), now)
    {
      if !btn0.State() { tpBtn0 := now; }
      if Util.ElapsedMs(now, tpBtn0, 1000) {
        state := AppState.Exit;  // long press
      }
    }

    /** Second block of `handleButtons`: BTN0 falling edge. */
    method CheckBtn0()
      requires Valid()
      modifies this, led0.pin, led1.pin
      ensures Valid()
      ensures var h := ModeStep(old(Snapshot()), View(btn0));
              && Snapshot() == h.vars
              && (h.leds.Some? ==> led0.pin.level == Gpio.DriveLevel(led0.polarity, h.leds.value.led0)
                                   && led1.pin.level == Gpio.DriveLevel(led1.polarity, h.leds.value.led1))
              && (h.leds.None? ==> led0.pin.level == old(led0.pin.level) && led1.pin.level == old(led1.pin.level))
    {
      if btn0.Neg() {
        mode := mode + 1;
        if mode >= ModeCount { mode := 0; }
        var leds := ModeLeds(mode);  // LED0 = bit 0, LED1 = bit 1
        led0.Write(leds.led0);
        led1.Write(leds.led1);
        tpUpdate := -Util.SecondUs;  // trigger update immediately
      }
    }

    /** Third block of `handleButtons`: BTN1 falling edge. */
    method CheckBtn1()
      modifies this
      ensures Snapshot() == Btn1Step(old(Snapshot()), View(btn1))
    {
      if btn1.Neg() {
        if mode == ModeBtn1 {
          btn1Cnt := CounterStep(btn1Cnt, pot);
        } else if mode == ModeTemp {
          showTempPcb := !showTempPcb;
        }
      }
    }

    /** `setLedBar()`. */
    method SetLedBar(barStatus: int)
      requires Valid()
      modifies bar
      ensures bar.latch
      ensures bar.trace == old(bar.trace) + LedBar.Transaction(LedBarByte(old(Snapshot())), barStatus)
    {
      if mode == ModePotBar {
        bar.SetBar(Util.TruncToInt(pot.Norm() * 8.0 + 0.5), barStatus);
      } else if mode == ModePotValue {
        bar.SetValue(((pot.value >> 2) & 0xFF) as bv8, barStatus);
      } else if mode == ModeBtn1 {
        bar.SetValue(btn1Cnt, barStatus);
      } else {
        ShowTemp(if showTempPcb then tempPcb else tempCpu, barStatus);
      }
    }

    /** The `M_temp` case of `setLedBar()`. */
    method ShowTemp(temp: real, barStatus: int)
      modifies bar
      ensures bar.trace == old(bar.trace) + LedBar.Transaction(TempFixed(temp) as bv8, barStatus)
      ensures bar.latch
    {
      if temp < 0.0 || temp >= 127.75 {
        bar.SetValue(0xFF, barStatus);
      } else {
        var t := temp + 0.25;  // round to 0.5
        var fixed := Util.TruncToInt(t * 2.0);  // unsigned fixed point 7.1
        bar.SetValue(fixed as bv8, barStatus);
      }
    }

    /**
     * `app::task()`: `transfer` is the SPI peer the potentiometer is read
     * from, `cpuTemp` the CPU temperature query's outcome and `barStatus`
     * the status of the LED-bar transfer.
     */
    method Task(now: int, transfer: seq<bv8> -> Adc.Reply, cpuTemp: Option<real>, barStatus: int)
      requires Valid()
      modifies this, led0.pin, led1.pin, bar, adc
      ensures Valid()
      ensures var t := Step(old(Snapshot()), old(View(btn0)), old(View(btn1)), now,
                            Adc.Interpret(transfer(Adc.Command(0))), cpuTemp);
              && Snapshot() == t.vars
              && (t.leds.Some? ==> led0.pin.level == Gpio.DriveLevel(led0.polarity, t.leds.value.led0)
                                   && led1.pin.level == Gpio.DriveLevel(led1.polarity, t.leds.value.led1))
              && (t.leds.None? ==> led0.pin.level == old(led0.pin.level) && led1.pin.level == old(led1.pin.level))
              && bar.trace == old(bar.trace) + BarEvents(t.bar, barStatus)
              && bar.latch == (t.bar.Some? || old(bar.latch))
              && adc.trace == old(adc.trace) + AdcEvents(t.phase)
              && adc.nCs == (t.phase == Update || old(adc.nCs))
    {
      HandleButtons(now);
      match state
      case Init => RunInit();
      case Idle => RunIdle(now);
      case Update => RunUpdate(transfer, cpuTemp, barStatus);
      case Exit => RunExit(barStatus);
    }

    /** The `S_init` case of `app::task()`. */
    method RunInit()
      requires Valid()
      modifies this, led0.pin, led1.pin
      ensures Valid()
      ensures Snapshot() == InitVars(old(Snapshot()))
      ensures led0.pin.level == Gpio.DriveLevel(led0.polarity, false)
      ensures led1.pin.level == Gpio.DriveLevel(led1.polarity, false)
    {
      mode := 0;
      pot := Adc.Result(0);
      btn1Cnt := 0;
      tempCpu := 0.0;
      tempPcb := 0.0;
      showTempPcb := true;
      tpUpdate := -Util.SecondUs;  // trigger update immediately
      state := Idle;
      // the source clears the LEDs right after `mode = 0`; the pin writes touch
      // none of the variables, so their place among the assignments is immaterial
      led0.Clr();
      led1.Clr();
    }

    /** The `S_idle` case of `app::task()`. */
    method RunIdle(now: int)
      modifies this
      ensures Snapshot() == IdleVars(old(Snapshot()), now)
    {
      if Util.ElapsedMs(now, tpUpdate, 30) {
        tpUpdate := now;
        state := Update;
      }
    }

    /** The `S_update` case of `app::task()`. */
    method RunUpdate(transfer: seq<bv8> -> Adc.Reply, cpuTemp: Option<real>, barStatus: int)
      requires Valid()
      modifies this, bar, adc
      ensures Valid()
      ensures Snapshot() == UpdateVars(old(Snapshot()), Adc.Interpret(transfer(Adc.Command(0))), cpuTemp)
      ensures bar.trace == old(bar.trace) + LedBar.Transaction(LedBarByte(Snapshot()), barStatus)
      ensures adc.trace == old(adc.trace) + AdcEvents(Update)
      ensures bar.latch && adc.nCs
    {
      pot := adc.ReadPoti(transfer);
      if cpuTemp.Some? { tempCpu := cpuTemp.value; }
      tempPcb := PcbTempPlaceholder;
      SetLedBar(barStatus);
    }

    /** The `S_exit` case of `app::task()`. */
    method RunExit(barStatus: int)
      modifies this, bar
      ensures Snapshot() == old(Snapshot()).(exitSignal := true)
      ensures bar.trace == old(bar.trace) + LedBar.Transaction(0, barStatus)
      ensures bar.latch
    {
      bar.SetValue(0, barStatus);
      exitSignal := true;
    }

    /**
     * One pass of the main loop: `gpio::task` samples btn0 then btn1 (at
     * their current pin levels), then `app::task` runs.
     */
    method Poll(now: int, transfer: seq<bv8> -> Adc.Reply, cpuTemp: Option<real>, barStatus: int)
      requires Valid()
      modifies this, led0.pin, led1.pin, bar, adc, btn0.edge, btn1.edge
      ensures Valid()
      ensures var s0 := Gpio.Sense(btn0.polarity, old(btn0.pin.level));
              var s1 := Gpio.Sense(btn1.polarity, old(btn1.pin.level));
              var t := Step(old(Snapshot()), ButtonView(s0, old(btn0.edge.prev) && !s0),
                            ButtonView(s1, old(btn1.edge.prev) && !s1), now,
                            Adc.Interpret(transfer(Adc.Command(0))), cpuTemp);
              && Snapshot() == t.vars
              && (t.leds.Some? ==> led0.pin.level == Gpio.DriveLevel(led0.polarity, t.leds.value.led0)
                                   && led1.pin.level == Gpio.DriveLevel(led1.polarity, t.leds.value.led1))
              && (t.leds.None? ==> led0.pin.level == old(led0.pin.level) && led1.pin.level == old(led1.pin.level))
              && bar.trace == old(bar.trace) + BarEvents(t.bar, barStatus)
              && bar.latch == (t.bar.Some? || old(bar.latch))
              && adc.trace == old(adc.trace) + AdcEvents(t.phase)
              && adc.nCs == (t.phase == Update || old(adc.nCs))
      ensures btn0.State() == Gpio.Sense(btn0.polarity, old(btn0.pin.level)) && btn0.edge.prev == btn0.State()
      ensures btn1.State() == Gpio.Sense(btn1.polarity, old(btn1.pin.level)) && btn1.edge.prev == btn1.State()
    {
      Gpio.Task(btn0, btn1);
      Task(now, transfer, cpuTemp, barStatus);
    }
  }
}
