# rpihal-system-test: the demo application and its drivers, in Dafny

This project models the core of `rpihal-system-test`, the Raspberry Pi
system test and demo for the rpihal library, and proves properties of it.
The model covers:

- the demo application's polling loop: `app::task` with its states
  init, idle, update and exit, `handleButtons` and `setLedBar`;
- the GPIO edge detector and the button, input and output classes;
- the LED bar behind a shift register: `setBar`'s segment mask and
  `setValue`'s latch and transfer sequence;
- the MCP3004 ADC: its command and answer bit packing, and the emulator
  that answers in place of the chip;
- the TMP1075 temperature sensor emulator (a 16-register file with a
  pointer register), the `setTemp` fixed-point encoding and the device-ID
  check;
- the clamp, rounding and clock helpers;
- the command-line flag parser and the exit codes;
- the test-case counters of the system test.

One module per source file:

| module | file |
|---|---|
| `Util` | `util.dfy` |
| `Gpio` | `gpio.dfy` |
| `LedBar` | `led_bar.dfy` |
| `Adc` | `adc.dfy` |
| `Temperature` | `temperature.dfy` |
| `App` | `app.dfy` |
| `Program` | `program.dfy` |
| `SystemTest` | `system_test.dfy` |

`Wrappers` holds `Option`.

Code that changes state step by step is a class with `modifies` clauses:

- the edge detector, buttons, inputs and outputs;
- the LED bar driver, the ADC converter and the TMP1075 emulator;
- the application (its file-scope statics become fields);
- the test-case counter and the context.

Each of these methods is specified by a pure function of the old state.
Floats are reals. Hardware effects are recorded as traces of events:

- latch and chip-select levels;
- bytes transferred;
- logged errors.

The SPI peer of the ADC is a function from the bytes sent to the reply, so
the same `Read` runs against a real chip or against the emulator.

Where the code and its documentation differ, the model follows the code:

- **Update state.** `S_update` never goes back to `S_idle`. Once entered, it
  samples the potentiometer and rewrites the bar on every tick until exit.
- **Falling edges.** Mode and counter changes fire on falling edges
  (`neg()`), that is, when the button is released.
- **Four modes.** There are four modes, cycled by BTN0. LED0 and LED1 show
  the mode in binary.

## Model

| member | source | states |
|---|---|---|
| Util.Clamp | src/middleware/util.h:20 | for lo <= hi the result lies in [lo, hi] and is the point of that range nearest to v |
| Util.ClampIdempotent | src/middleware/util.h:20 | clamping twice equals clamping once |
| Util.ClampInRange | src/middleware/util.h:20 | a value already in range is returned unchanged |
| Util.TruncToInt | src/middleware/util.h:22-23 | the C float-to-int cast: the integer next to x towards zero, for both signs |
| Util.RoundHalfAway | src/middleware/util.h:22-23 | `UTIL_ROUND` then a cast gives the nearest integer, ties going away from zero |
| Util.RoundHalfAwayOdd | src/middleware/util.h:22-23 | rounding is symmetric: round(-v) == -round(v) |
| Util.UnitConstants | src/middleware/util.h:53-66 | second_us is 1000000, second_ms 1000; minute, hour and day are 60 s, 60 min and 24 h in every unit |
| Util.ElapsedStays | src/middleware/util.h:79 | once an interval has elapsed it stays elapsed for every later `now` |
| Util.ElapsedMsWholeMillis | src/middleware/util.h:80-83 | `elapsed_ms(now, last, ms)` holds exactly when the whole milliseconds since `last` reach ms; a longer interval having elapsed implies every shorter one has |
| Util.TruncDiv | src/middleware/util.h:89 | C integer division truncates towards zero for both signs of the dividend |
| Util.FromTimespec | src/middleware/util.h:85-91 | microseconds are sec * 1000000 plus nsec / 1000 truncated; for 0 <= nsec < 10^9 the result lies within that second |
| Util.FromTimespecNegativeNanos | src/middleware/util.h:89 | a negative nanosecond part truncates towards zero: (0 s, -1500 ns) gives -1 us |
| Gpio.Pin.constructor | src/middleware/gpio.h:81 | a pin holds the level `RPIHAL_GPIO_readPin` reports |
| Gpio.SensePolarities | src/middleware/gpio.h:137-157 | active-low reads the opposite of active-high on levels 0 and 1; a negative (error) level reads inactive in both |
| Gpio.EdgeDetect.constructor | src/middleware/gpio.h:41-43 | state, old, pos and neg all start false |
| Gpio.EdgeDetect.Seeded | src/middleware/gpio.h:45-47 | state and old take the given values and no edge is pending |
| Gpio.EdgeDetect.Handler | src/middleware/gpio.h:55-61 | state and old become s; pos holds exactly when old was false and s true, neg exactly when old was true and s false, never both |
| Gpio.HandleTwice | src/middleware/gpio.h:55-61 | a second call with the same sample leaves no edge |
| Gpio.Button.constructor | src/middleware/gpio.h:72-101 | the pin is sampled twice (`> 0`, or `== 0` when inverted), so a stable pin leaves no pending edge |
| Gpio.Button.Handler | src/middleware/gpio.h:81 | the sample is `readPin > 0` (`== 0` when inverted) and the edges follow the edge detector |
| Gpio.Input.constructor | src/middleware/gpio.h:109-111 | state and old are seeded alike (false for active high, true for active low), with no pending edge |
| Gpio.Input.Handler | src/middleware/gpio.h:143 | the sample is `readPin > 0` for active high and `readPin == 0` for active low; edges as the edge detector |
| Gpio.Task | src/middleware/gpio.cpp:66-70 | both buttons are polled once; each new state is its pin's sense, each edge is relative to its previous sample, and that sample becomes the previous one for the next poll |
| Gpio.Output.constructor | src/middleware/gpio.h:165-167 | an output owns its pin and polarity |
| Gpio.Output.Write | src/middleware/gpio.h:204 | the pin level is s (active high) or !s (active low), and `read()` then returns s |
| Gpio.Output.Set | src/middleware/gpio.h:179 | `set` is `write(true)`: read() is true afterwards |
| Gpio.Output.Clr | src/middleware/gpio.h:180 | `clr` is `write(false)`: read() is false afterwards |
| Gpio.Output.Toggle | src/middleware/gpio.h:181 | the level toggles between 0 and 1, so read() flips for any non-negative level |
| LedBar.BarMask | src/middleware/led-bar.cpp:78 | the mask is 2^(v mod 9) - 1: exactly the lowest v mod 9 bits are set |
| LedBar.BarMaskExamples | src/middleware/led-bar.cpp:78 | setBar(0), setBar(4) and setBar(8) send 0x00, 0x0F and 0xFF |
| LedBar.BarMaskWraps | src/middleware/led-bar.cpp:78 | lengths wrap modulo 9 instead of saturating: setBar(9) is empty |
| LedBar.BarMaskMonotone | src/middleware/led-bar.cpp:78 | for 0 <= a <= b <= 8 the mask of a is a subset of the mask of b, and not larger |
| LedBar.TransactionShape | src/middleware/led-bar.cpp:85-108 | a setValue transfers exactly the one given byte, with latch low first and latch high last, whatever the bus reports |
| LedBar.Bar.constructor | src/middleware/led-bar.cpp:47 | after init the latch is low and nothing has been sent |
| LedBar.Bar.SetValue | src/middleware/led-bar.cpp:85-108 | latch low, one transfer of the value, an error log only if the transfer failed (no retry), latch high |
| LedBar.Bar.SetBar | src/middleware/led-bar.cpp:76-83 | setBar is one setValue of the bar mask |
| Adc.Result.Norm | src/middleware/adc.h:20-27 | norm is value / 1023, non-negative, and in [0, 1] for a 10-bit value |
| Adc.NormBands | src/application/app.cpp:171-174 | the norm thresholds 0.75, 0.5 and 0.25 fall between raw 767/768, 511/512 and 255/256 |
| Adc.CommandByte | src/middleware/adc.cpp:96 | the second byte has the single-ended bit 0x80 set, the channel (masked to 0-3) in bits 4-6 and all other bits clear |
| Adc.Command | src/middleware/adc.cpp:95-96 | three bytes, the start byte 0x01 first and the command byte second |
| Adc.DecodeValue | src/middleware/adc.cpp:109-113 | the value is (rx1 & 3) * 256 + rx2, never above 1023 |
| Adc.Interpret | src/middleware/adc.cpp:88-118 | a failed transfer gives Result(0), a successful one the decoded 10-bit value |
| Adc.Converter.constructor | src/middleware/adc.cpp:98-100 | nCS starts high and nothing has been sent |
| Adc.Converter.Read | src/middleware/adc.cpp:86-119 | nCS low, one three-byte transfer of the command, nCS high; the result is the interpreted reply, in [0, 1023] |
| Adc.Converter.ReadPoti | src/middleware/adc.h:42 | readPoti is read(0) |
| Adc.EmuSample | src/middleware/adc.cpp:134-149 | channel 0 single-ended gives 600, channels 1-3 and differential mode give 0; always 10 bits |
| Adc.EmuReply | src/middleware/adc.cpp:124-164 | the emulator answers 0 exactly when there are 3 bytes and the start byte is 0x01, otherwise -1 |
| Adc.EmuAnswerRoundTrip | src/middleware/adc.cpp:152-155 | the emulator's big-endian answer with the null bit cleared decodes back to the value |
| Adc.EmuTransfer | src/middleware/adc.cpp:124-164 | on success only rx[1] and rx[2] are written; on failure rx is untouched |
| Adc.ReadAgainstEmulator | src/middleware/adc.cpp:96 | read(ch) against the emulator yields 600 when ch & 3 == 0 and 0 otherwise |
| Adc.PotiAgainstEmulator | src/middleware/adc.h:42 | readPoti against the emulator yields 600, whose norm lies in [0.5, 0.75) |
| Temperature.BigEndian16 | src/middleware/temperature.cpp:108 | the decoded word has the first byte as high byte and the second as low byte |
| Temperature.SetHigh | src/middleware/temperature.cpp:280-281 | the high byte is replaced and the low byte kept |
| Temperature.SetLow | src/middleware/temperature.cpp:285-286 | the low byte is replaced and the high byte kept |
| Temperature.ReadLength | src/middleware/temperature.cpp:219-246 | a read never fills more bytes than asked for |
| Temperature.ReadStatus | src/middleware/temperature.cpp:215-249 | the read returns the count exactly when all requested bytes are filled, else -1 |
| Temperature.InvalidPointerChangesNothing | src/middleware/temperature.cpp:259 | a pointer byte of 0x10 or more is NAKed with registers and pointer unchanged |
| Temperature.WriteKeepsPointerValid | src/middleware/temperature.cpp:255-261 | after any write the pointer is still a valid register address |
| Temperature.WriteThenRead | src/middleware/temperature.cpp:251-302 | under either access rule, writing [q, hi, lo] to a register the rule admits (as written: any q <= 0x0F) sets the pointer to q, stores hi:lo, returns 3, and a 2-byte read returns hi then lo |
| Temperature.ProtectedWriteKeepsReadOnlyRegisters | src/middleware/temperature.cpp:320-327 | under the write rule no write changes any register other than 0x01-0x03 |
| Temperature.WriteAsWrittenOverwritesId | src/middleware/temperature.cpp:274 | as written, the write [0x0F, 0x12, 0x34] succeeds and replaces the device ID with 0x1234, which the ID check rejects |
| Temperature.ProtectedWriteRefusesId | src/middleware/temperature.cpp:324-327 | with the write rule the same write is NAKed and the ID 0x7500 survives |
| Temperature.EmulatedTmp1075.constructor | src/middleware/temperature.cpp:183-187 | reset image: pointer 0, registers 0x01 = 0x00FF, 0x02 = 0x4B00, 0x03 = 0x5000, 0x0F = 0x7500, all others 0 |
| Temperature.EmulatedTmp1075.WithTemp | src/middleware/temperature.cpp:189-194 | the reset image with register 0 holding the encoded temperature |
| Temperature.EmulatedTmp1075.ResetRegisters | src/middleware/temperature.cpp:309-318 | every register is cleared, then the five reset values are set |
| Temperature.EmulatedTmp1075.SetTemp | src/middleware/temperature.cpp:198-202 | only register 0 changes, to the encoded temperature |
| Temperature.EmulatedTmp1075.I2cRead | src/middleware/temperature.cpp:215-249 | registers and pointer are unchanged; returns -1 for more than 32 bytes or past register 0x0F; filled bytes are the high byte, the low byte, then 0xFF; the rest of the buffer is untouched |
| Temperature.EmulatedTmp1075.I2cWriteWith | src/middleware/temperature.cpp:251-302 | the write as the function of old registers, pointer and data given by `WriteSpec`, for either access rule |
| Temperature.EmulatedTmp1075.WriteRegisterBytes | src/middleware/temperature.cpp:267-301 | the data bytes after the pointer: the first replaces the high byte, the second the low byte; a third is NAKed after both took effect |
| Temperature.EmulatedTmp1075.I2cWrite | src/middleware/temperature.cpp:251-302 | i2c_write as written: checked with the read rule |
| Temperature.EmulatedTmp1075.I2cWriteProtected | src/middleware/temperature.cpp:320-327 | i2c_write with the write rule (only 0x01-0x03 writable) |
| Temperature.Signed16 | src/middleware/temperature.cpp:155 | the int16 reading of a 16-bit register lies in [-32768, 32768) and agrees with it modulo 2^16 |
| Temperature.TempRegisterValue | src/middleware/temperature.cpp:200-202 | the register holds the temperature * 16 rounded half away from zero, shifted left by 4; in the 12-bit range it reads back as 16 times that |
| Temperature.TemperatureRoundTrip | src/middleware/temperature.cpp:155-156 | decoding the stored register gives the temperature rounded to 1/16 degree |
| Temperature.EmulatedInstanceTemperature | src/middleware/temperature.cpp:346 | the emulated sensor at 22.35 degrees holds 0x1660, which decodes as 22.375 |
| Temperature.ProbeDeviceId | src/middleware/temperature.cpp:100-114 | set the pointer to 0x0F, read two bytes, decode big-endian: accepted exactly when the ID's high byte is 0x75; registers are unchanged |
| Temperature.EmulatorPassesIdCheck | src/middleware/temperature.cpp:317 | the emulator's reset ID passes the device-ID check |
| App.NextMode | src/application/app.cpp:150-151 | the next mode is (mode + 1) mod 4 |
| App.ModeLeds | src/application/app.cpp:153-155 | LED0 is bit 0 and LED1 bit 1 of the mode: the two LEDs read as binary give the mode |
| App.Buttons | src/application/app.cpp:132-178 | handleButtons keeps the mode within the four modes |
| App.BarLength | src/application/app.cpp:185 | `(int)(norm * 8 + 0.5)` is the integer nearest to norm * 8, at least 0 and at most 8 for a 10-bit value |
| App.TempFixed | src/application/app.cpp:202-207 | in [0, 127.75) the byte is the temperature in 7.1 fixed point to within a quarter degree; otherwise 0xFF |
| App.Step | src/application/app.cpp:66-126 | one `app::task` call keeps the mode within the four modes |
| App.Digits | src/application/app.cpp:241 | `std::to_string` of a natural number is a non-empty string of digits with no leading zero |
| App.DigitsRoundTrip | src/application/app.cpp:241 | the decimal digits read back as the number |
| App.ModeStrings | src/application/app.cpp:218-246 | the four modes have distinct names; any other mode prints with a leading '#', and a mode of 4 or more as '#' followed by its decimal value |
| App.NegativeModeString | src/application/app.cpp:241 | a negative mode prints as "#-" followed by the decimal digits of its magnitude |
| App.LongPressExits | src/application/app.cpp:136-141 | while BTN0 is released tpBtn0 follows now; a press held for 1000 ms or more sets the state to exit, otherwise the state is kept |
| App.InitTick | src/application/app.cpp:75-91 | the init tick sets mode 0, clears both LEDs, zeroes counter, potentiometer and temperatures, selects the PCB source, sets tpUpdate to -1 s and moves to idle |
| App.InitArmsUpdate | src/application/app.cpp:87 | tpUpdate = -1 s makes the 30 ms interval elapsed at any non-negative time |
| App.IdleTick | src/application/app.cpp:93-99 | idle moves to update exactly when 30 ms have elapsed since tpUpdate, restamping it to now; otherwise nothing changes |
| App.UpdateTick | src/application/app.cpp:101-111 | update reads the potentiometer and the CPU temperature, sets the PCB temperature to 3.7499, writes the bar and stays in update |
| App.ExitIsFinal | src/application/app.cpp:113-116 | exit writes 0 to the bar, sets the exit flag and stays in exit |
| App.LongPressEndsInExit | src/application/app.cpp:71-116 | a long press is handled before the switch, so the same tick runs the exit case |
| App.ExitFlag | src/application/app.cpp:115 | the exit flag is set after a tick exactly when it was set before or the tick ran the exit case |
| App.HeldAtStartup | src/application/app.cpp:134-141 | BTN0 held from start-up (tpBtn0 still 0) for 1 s sends the first tick straight to exit |
| App.ModeButton | src/application/app.cpp:146-160 | a BTN0 falling edge advances the mode, shows it on the LEDs and sets tpUpdate to -1 s; without one the mode, LEDs and tpUpdate are untouched |
| App.ModeCycle | src/application/app.cpp:150-151 | four mode steps return to the starting mode |
| App.CounterButton | src/application/app.cpp:165-177 | a BTN1 falling edge steps the counter in counter mode, toggles the temperature source in temperature mode, and does nothing otherwise |
| App.CounterStepByRaw | src/application/app.cpp:171-174 | the counter changes by +0x10, +1, -1 or -0x10 by raw ADC band, modulo 256 |
| App.CounterWraps | src/application/app.cpp:171-174 | 0xFF + 0x10 wraps to 0x0F and 0x00 - 0x10 to 0xF0 |
| App.CounterWithEmulatedPot | src/application/app.cpp:172 | with the emulated potentiometer (600) the counter steps by one |
| App.PotBarRange | src/application/app.cpp:185 | for a 10-bit value the bar length lies in [0, 8] and is 8 exactly from raw 960 up |
| App.PotByteValue | src/application/app.cpp:189 | the byte is the upper eight of the ten ADC bits: with the two dropped bits it gives the value back, and it grows with the value |
| App.BarByteByMode | src/application/app.cpp:180-216 | in the first three modes the bar shows the lowest BarLength segments, the upper eight ADC bits, or the counter |
| App.PcbPlaceholderOnBar | src/application/app.cpp:107 | the PCB placeholder 3.7499 shows as 7 (3.5 degrees) |
| App.TempFixedRoundTrip | src/application/app.cpp:205-206 | every half degree below 127.5 shows as its own 7.1 fixed-point byte |
| App.App.constructor | src/application/app.cpp:49-56 | the statics start in init, mode 0, counter 0, exit flag clear |
| App.App.Exit | src/application/app.cpp:128 | app::exit() returns the exit flag |
| App.App.HandleButtons | src/application/app.cpp:132-178 | the new variables are `Buttons` of the old ones; the LEDs are driven to the mode only when BTN0 fell |
| App.App.CheckLongPress | src/application/app.cpp:134-141 | the long-press block |
| App.App.CheckBtn0 | src/application/app.cpp:146-160 | the BTN0 block, including the LED writes |
| App.App.CheckBtn1 | src/application/app.cpp:165-177 | the BTN1 block |
| App.App.SetLedBar | src/application/app.cpp:180-216 | setLedBar performs one setValue of the byte for the current mode |
| App.App.ShowTemp | src/application/app.cpp:196-210 | the temperature case sends the 7.1 fixed-point byte |
| App.App.Task | src/application/app.cpp:66-126 | the new variables, LED levels, bar transactions and ADC reads are those of `Step` on the old state; the latch and nCS end high after a transaction and are otherwise unchanged |
| App.App.RunInit | src/application/app.cpp:75-91 | the init case |
| App.App.RunIdle | src/application/app.cpp:93-99 | the idle case |
| App.App.RunUpdate | src/application/app.cpp:101-111 | the update case: one ADC read and one bar transaction of the new state's byte |
| App.App.RunExit | src/application/app.cpp:113-116 | the exit case: one bar transaction of 0 and the exit flag set |
| App.App.Poll | src/main.cpp:180-181 | `gpio::task` then `app::task`: the tick sees the freshly sampled button states and falling edges; the variables, LED levels, traces, latch and nCS are those of `Step`, and each button's new sample is its previous one for the next poll |
| Program.ParseArgs | src/main.cpp:209-227 | the flags are those of argv[1..] OR-ed together; argc 0 gives no flags |
| Program.CollectSelected | src/main.cpp:211-226 | the parsed flags equal those of the set of arguments given |
| Program.OrderAndRepetitionIrrelevant | src/main.cpp:211-226 | argument lists with the same elements give the same flags |
| Program.KnownArguments | src/main.cpp:34-39 | "test", "gpio", "spi", "i2c" and "app" set their own bit; "all" sets 0x0E and neither TEST nor APP |
| Program.FlagsBounded | src/main.cpp:223 | an unknown argument changes nothing, and no bit outside 0x1F is ever set |
| Program.ProgramNameIgnored | src/main.cpp:213 | argv[0] never affects the flags |
| Program.CustomExitCodes | src/main.cpp:44-59 | the program's own exit codes are distinct, start at 79 and end at or below 113 |
| SystemTest.WrapAdd | src/system-test/context.cpp:16-17 | `size_t` addition wraps at most once: the exact sum below 2^64, the sum less 2^64 otherwise |
| SystemTest.AccumulateIsSum | src/system-test/context.cpp:14-24 | adding counters one after another gives the sums of totals and of oks modulo 2^64 |
| SystemTest.AccumulateOrderIrrelevant | src/system-test/context.cpp:14-24 | counters added in any order give the same result |
| SystemTest.PlusZero | src/system-test/context.cpp:14-18 | add(0, 0) changes nothing |
| SystemTest.TestCaseCounter.constructor | src/system-test/context.h:18-20 | a new counter has total 0 and ok 0 |
| SystemTest.TestCaseCounter.WithValues | src/system-test/context.h:22-24 | the counter stores the given total and ok |
| SystemTest.TestCaseCounter.Total | src/system-test/context.h:34 | total() returns the total |
| SystemTest.TestCaseCounter.Ok | src/system-test/context.h:35 | ok() returns the passed count |
| SystemTest.TestCaseCounter.AddValues | src/system-test/context.cpp:14-18 | add(t, o) raises total by t and ok by o, modulo 2^64 |
| SystemTest.TestCaseCounter.Add | src/system-test/context.cpp:20-24 | add(counter) raises both by the other counter's old values, also when it is the same counter |
| SystemTest.TestCaseCounter.AddOk | src/system-test/context.h:31 | addOk(v) raises ok by v and leaves total unchanged |
| SystemTest.TestCaseCounter.IncOk | src/system-test/context.h:32 | incOk() raises ok by 1 and leaves total unchanged |
| SystemTest.Context.constructor | src/system-test/context.h:45-47 | a context's counter starts at zero |
| SystemTest.Context.AddCounter | src/system-test/context.h:51 | addCounter adds the argument componentwise to the context's counter |
| SystemTest.AddAll | src/system-test/context.h:51 | usage lemma, not a source routine: repeated `addCounter` calls on a fresh context give `Accumulate` of the counters |

## Left out

- Hardware access is not modelled. This covers the rpihal GPIO, SPI, I2C
  and system calls: `ledBar::init`/`deinit`, `adc::init`/`deinit`,
  `gpio::init`/`deinit`, and the I2C traffic of `temp::init` and `temp::get`.
  - Pin levels are fields of `Gpio.Pin`.
  - Bus transfers are recorded in traces; their status comes in as a parameter.
  - The ADC's peer is a function.
  - The device-ID check runs against the emulator object directly, not
    through the I2C library.
- The CPU temperature query (`RPIHAL_SYS_getCpuTemp`) is an `Option<real>`
  parameter of `App.Step`. `None` means the query failed, and then `tempCPU`
  keeps its value.
- Floating point is modelled with exact reals. Single-precision rounding of
  `norm()`, of the bar and temperature expressions and of `setTemp` is not
  modelled.
- The clock is a parameter `now` in microseconds. The 64-bit wrap-around of
  `timepoint_t` and of the `elapsed` subtraction is not modelled.
- `app.cpp` uses the external omw library's clock. Its semantics are taken to
  be those of `elapsed_us`/`elapsed_ms` in `util.h`.
- The `default:` branches of the state and mode switches are not modelled.
  State is a datatype and the mode stays in [0, 4) by proof, so both
  branches are unreachable.
- App.App.RunInit clears the two LEDs after assigning the variables. The
  source clears them in between. The order of pin writes against variable
  writes is not observable.
- Logging (`LOG_*`) is not modelled, except as `ErrorLogged` events in the
  LED-bar trace.
- `LATCH_AS_nCS` is fixed at 1. The alternative latch pulse after a
  successful transfer is not modelled.
- The third byte `tx[2]` of an ADC read is uninitialised in the source. The
  model sends 0; the emulator ignores it.
- LedBar.BarMask requires a non-negative value. A negative `value % 9`
  shifts by a negative amount in C, which is undefined.
- Temperature.TempRegisterValue models the conversion to `uint16_t` of a
  value outside [0, 65536) as wrap-around modulo 2^16. In C that conversion
  is undefined, both for a negative temperature and for one of 4096 °C or
  more (`temp * 16 + 0.5 >= 65536`).
- App.BarByteByMode does not restate the temperature mode, whose byte is
  `TempFixed` cast to 8 bits. `TempFixed` already keeps that value in
  [0, 256).
- Temperature.ReadLength and Temperature.ReadStatus only bound the number of
  filled bytes. `I2cRead` states the filled bytes and the untouched rest.
- Temperature.EmulatedTmp1075.I2cRead does not state that the pointer is
  unchanged. It modifies only the buffer, so that holds by its frame.
- The emulator instances under `PRJ_DEBUG` are not modelled beyond the
  encoding they exercise. `temp::init`'s configuration write is not modelled
  either.
- The system-test harness is not part of this model. This covers the
  interactive prompts and the GPIO/SPI/I2C/CLI test cases.
- `main()`'s loop plumbing is not modelled: the sleep and the emulator
  running check. Nor is the dispatch on the parsed flags.
- `util.cpp`'s time formatting and `sleep`, and `log.h`, are not part of this
  model.

## Findings

| source | as written | input that shows it | evidently intended | confidence | as-written member | corrected member |
|---|---|---|---|---|---|---|
| src/middleware/temperature.cpp:274 | `i2c_write` checks each register access with `m_checkRegAccess(regAddr, false)`, the read rule, so every register 0x00-0x0F is writable | write [0x0F, 0x12, 0x34] to the freshly reset emulator: status 3, the device ID becomes 0x1234 and the ID check fails | the write rule `m_checkRegAccess(regAddr, true)`, which admits only 0x01-0x03, so the same write is NAKed and the ID stays 0x7500 | not executed | Temperature.WriteAsWrittenOverwritesId | Temperature.ProtectedWriteRefusesId |
