# Raspberry Pi display and button routines, modelled in Dafny

This project models the logic in `src/output.rs` and `src/input.rs` of a small
Rust program for a Raspberry Pi:

- the 74HC595 bit serialiser: `turn_high_and_low`, `hc595_shift`, `hc595_in`,
  `hc595_out`, `clear_display`, and the copy of the bit loop inside `segment7`;
- the single seven-segment display (`segment7`);
- the four-digit display (`four_digit_segment7`, with its `pick_digit` and
  `light_1digit` closures);
- the two-chip LED matrix (`light_led_dot_matrix`);
- the toggling button (`button`).

Pin activity is an immutable trace of `Write(line, level)` events (module
`Pins`). Sleeps carry no information in a trace, so they are dropped, and a
pulse is just "high, then low". Each routine becomes a pure function from its
inputs to its trace. For `pick_digit` and `light_1digit` the result is an
`Exec`, which also records the out-of-bounds panic.

The traces are checked against an independent partner: a model of the
74HC595 as its datasheet describes it (module `ShiftRegister`).

- A rising SRCLK edge shifts the SDI level in.
- A rising RCLK edge copies the shift register to the outputs.
- A single chip shows the last eight levels of a copy (`Window(latch, 8)`).
- Two cascaded chips show the last sixteen: `NearChip` is the chip fed by SDI,
  `FarChip` the one behind it.

Running a routine's trace through this chip model turns claims about wire
events into claims about what the display shows. Some examples:

- the segment display shows each table code in turn;
- each place of the four-digit display shows its decimal digit of the count;
- the matrix lights column `k` going out and column `39 - k` coming back.

`hc595_shift`, `hc595_in` and the bit loop inside `segment7` are the same
loop up to pin names and sleep lengths, which the trace drops
(src/output.rs:114-122, 179-186 and 87-95). The model writes that
loop once (`Hc595.ShiftLoop`) and builds all three from it. So "`hc595_shift`
is `hc595_in` followed by `hc595_out`" and "the `segment7` loop is
`hc595_shift`" hold by construction; they are not proved equivalences
between separately written definitions.

The bit encoder has a round trip: folding the eight emitted levels, most
significant first, gives back the byte (`Hc595.RoundTrip`). The source's test
`0x80 & (code << i) != 0` on a `u8` is kept as written on `bv8`, whose `<<`
discards the bits shifted out.

The naming of `clear_display`'s `is_anode` flag is the opposite of the
display it is used with. `segment7`, whose table lights a segment on a high
line (`0x3f` draws "0"), passes `true`, and the routine shifts out 0x00.
`four_digit_segment7`, whose table lights a segment on a low line (`0xc0` draws
"0"), passes `false`, and gets 0xFF. Either way the latched pattern is the
blank of the display in use, and the model states that outcome
(`Segment7.ShowTableLatches`, `FourDigit.FourDigitEndsDark`).

On the two-chip matrix, `clear_display` shifts only eight levels. So it blanks
the near chip and hands the far chip the high byte of the last column shown,
`code_h[0] = 0x01` (`DotMatrix.MatrixEndState`). The wiring of the matrix
is not part of this model, so this is stated as behaviour, not as a defect.

## Model

| member | source | states |
|---|---|---|
| `Pins.Pulse` | src/output.rs:66-70 | `turn_high_and_low` writes only its own line, twice: high, then low |
| `Pins.Toggle` | src/input.rs:23 | `toggle` always changes the level |
| `Pins.Pulses` | src/output.rs:107-109 | `n` calls of `turn_high_and_low` on one line write it high and low alternately, starting high and ending low |
| `Hc595.SdiLevel` | src/output.rs:115-119 | the level the bit loop sets on iteration `i` is high exactly when bit 7 - i of `code` is set, and it is entry `i` of the reference MSB-first levels |
| `Hc595Truncation.ShiftTruncationImmaterial` | src/output.rs:115 | the `u8` shift's discarded high bits do not matter: the same test on a 16-bit shift picks the same level |
| `Hc595.ShiftLoop` | src/output.rs:114-121 | iterations `i` to 7 of the bit loop are exactly the SDI-write-then-SRCLK-pulse cycles of the reference levels from `i` on |
| `Hc595.Hc595In` | src/output.rs:178-187 | `hc595_in(code)` is 24 events: the eight cycles that clock the bits of `code` in, most significant first, with no latch |
| `Hc595.Hc595Out` | src/output.rs:189-191 | `hc595_out` clocks no level in and latches once: it is the frame of no levels |
| `Hc595.Hc595Shift` | src/output.rs:113-123 | `hc595_shift(code)` is 26 events: one frame of the bits of `code`, equal to `hc595_in(code)` followed by `hc595_out()`; both clocks end low |
| `Hc595.SdiBeforeEachPulse` | src/output.rs:114-122 | in `hc595_shift(code)`, event `3i` sets SDI to bit 7 - i, and events `3i+1` and `3i+2` raise and lower SRCLK |
| `Hc595.RoundTrip` | src/output.rs:113-123 | folding the eight emitted levels most significant first gives back `code`, for every byte |
| `Hc595.BitLevelsInjective` | src/output.rs:113-123 | different bytes are sent as different level sequences |
| `Hc595.ShiftLatchesCode` | src/output.rs:113-123 | an idle chip that receives `hc595_shift(code)` appends the bits of `code`, latches exactly once, ends idle, and then shows `code` |
| `Hc595.ShiftShowsCode` | src/output.rs:113-123 | the byte an idle chip shows after `hc595_shift(code)` is `code` |
| `Hc595.ClearDisplay` | src/output.rs:101-111 | `clear_display` is 19 writes: SDI first, low if `is_anode` and high otherwise, and never again; both clocks end low |
| `Hc595.ClearDisplayPulses` | src/output.rs:107-110 | after the SDI write, `clear_display` is exactly eight SRCLK pulses (writes 1 to 16, high then low) and one RCLK pulse (writes 17 and 18) |
| `Hc595.ClearMatchesShift` | src/output.rs:101-111 | to an idle chip, `clear_display(is_anode)` has the same effect as `hc595_shift(0x00)` if `is_anode` and `hc595_shift(0xFF)` otherwise |
| `Hc595.ClearLatchesBlank` | src/output.rs:101-111 | `clear_display` leaves an idle chip idle with exactly one new latch, the register followed by eight blank levels |
| `Segment7.ShowCodes` | src/output.rs:86-96 | the code loop of `segment7` sends one latched frame per table code, in table order |
| `Segment7.RunAllLow` | src/output.rs:82-84 | driving SDI, RCLK and SRCLK low makes any chip idle and latches nothing |
| `Segment7.ShowTableLatches` | src/output.rs:82-97 | from any chip state, the routine latches once per table code, in order, and then once more with 0x00 |
| `Segment7.ShowTable` | src/output.rs:82-97 | the routine drives the three lines low, then sends the latched frames of the table's glyphs, 26 writes per code, then the 19 writes of `clear_display(.., true)` |
| `Segment7.Segment7` | src/output.rs:72-99 | with the sixteen-entry table, `segment7` is 438 writes |
| `Segment7.Segment7ShowsEveryGlyph` | src/output.rs:72-99 | `segment7` latches 17 times: the sixteen glyphs of its table, then 0x00 |
| `CodeTables.ShowsByteAt` | src/output.rs:86-96 | a chip whose consecutive latches hold the frames of a code table shows the `k`-th code at the `k`-th of them |
| `Decimal.DigitIndex` | src/output.rs:164 | the place index `count / 10^digit % 10` is below 10, so the ten-entry `seg_code` lookup is in bounds |
| `Decimal.DigitsAreIndices` | src/output.rs:164 | the index looked up for place `d` is the `d`-th decimal digit of the count, least significant first |
| `Decimal.DigitsValue` | src/output.rs:164 | the first `n` place indices spell the count modulo 10^n |
| `Decimal.FourPlacesExact` | src/output.rs:164-167 | below the loop bound of 10000, the four place indices spell the count exactly |
| `FourDigit.PickDigit` | src/output.rs:149-154 | `pick_digit(d)` completes exactly when `d < 4`; afterwards place `d` is high and the other three are low; if it panics all four are low; it writes only place lines |
| `FourDigit.Light1Digit` | src/output.rs:156-166 | `light_1digit` completes exactly when `digit < 4` |
| `FourDigit.Light1Panics` | src/output.rs:149-159 | for `digit >= 4`, `light_1digit` panics in the pick, after the clear and after driving all four places low, before any glyph is shifted |
| `FourDigit.Light1OneHot` | src/output.rs:156-166 | after `light_1digit(count, d)` with `d < 4`, place `d` is the only place line that is high |
| `FourDigit.ShiftLeavesPlaces` | src/output.rs:160-165 | shifting the glyph out does not change any place line |
| `FourDigit.StepLatchesDigit` | src/output.rs:156-166 | from an idle chip, place `d`'s step latches twice, and the last latch holds the glyph of digit `d` of `count` |
| `FourDigit.SelectedPlaceShowsDigit` | src/output.rs:149-166 | at the end of place `d`'s step, while place `d` is the only selected place, the outputs read back as digit `d` of `count` |
| `FourDigit.RefreshPass` | src/output.rs:167-172 | one pass is 200 writes |
| `FourDigit.RefreshLatches` | src/output.rs:167-172 | a refresh pass latches eight frames into an idle chip: per place, the blank and then the glyph of that place's digit, and leaves the chip idle |
| `FourDigit.PlaceShowsDigit` | src/output.rs:156-172 | during a pass, the second latch of place `d`'s step holds the glyph of digit `d` of the value read for place `d`; the first holds the blank |
| `FourDigit.GlyphDigitOf` | src/output.rs:136 | the glyph of every digit 0-9 reads back as that digit, since no two digits share a glyph |
| `FourDigit.BlankIsNoDigit` | src/output.rs:158 | the 0xFF pattern `clear_display(.., false)` latches reads as no digit |
| `FourDigit.PlaceReadsDigit` | src/output.rs:156-172 | during a pass, the second latch of place `d`'s step reads as digit `d` of the value read for it, and the first reads as no digit |
| `FourDigit.PassShowsCount` | src/output.rs:164-172 | when the counter holds one value below 10000 for a whole pass, the four places read its decimal digits, which spell exactly that value |
| `FourDigit.PassesIdle` | src/output.rs:167-172 | any number of refresh passes leaves an idle chip idle |
| `FourDigit.FourDigitSegment7` | src/output.rs:167-173 | the routine is 200 writes per pass, and it ends with the 19 writes of `clear_display(.., false)` |
| `FourDigit.FourDigitEndsDark` | src/output.rs:167-173 | after any number of passes and the final `clear_display`, the outputs show the blank, which reads as no digit |
| `DotMatrix.SweepOrder` | src/output.rs:213-224 | one pass visits `2n` indices: `k` at step `k` going out, `n - 1 - k` at step `n + k` coming back, all below `n` |
| `DotMatrix.MatrixIndexesInRange` | src/output.rs:194-201 | both tables have twenty entries and every index a pass visits is below twenty |
| `DotMatrix.ColumnStep` | src/output.rs:214-216 | one step is one frame of sixteen levels: the bits of `code_l[i]`, then the bits of `code_h[i]`, then a single latch |
| `DotMatrix.Sweep` | src/output.rs:213-224 | the steps of a sweep are the frames of its columns, each clocked in and latched, in visiting order |
| `DotMatrix.SweepShowsColumn` | src/output.rs:213-218 | from an idle chip, step `k` latches once, with `code_l` of its column on the far chip and `code_h` on the near chip |
| `DotMatrix.MatrixPass` | src/output.rs:212-224 | one pass over `n` columns is `100n` writes: the latched frame of every column, forwards and then backwards |
| `DotMatrix.PassShowsColumn` | src/output.rs:212-224 | step `k` of a pass shows column `k` going out and column `2n - 1 - k` coming back |
| `DotMatrix.PassEnd` | src/output.rs:219-224 | a pass leaves an idle cascade idle, with column 0's sixteen levels last in the register |
| `DotMatrix.PassesIdle` | src/output.rs:212-225 | any number of passes leaves an idle cascade idle |
| `DotMatrix.PassesEnd` | src/output.rs:212-225 | after one or more passes, the register ends with column 0's sixteen levels |
| `DotMatrix.ClearAfterStep` | src/output.rs:226 | `clear_display` shifts eight levels into the cascade: the near chip gets the blank, and the far chip gets the high byte the near chip held |
| `DotMatrix.PassesEndState` | src/output.rs:212-226 | after one or more passes and the final clear, the near chip holds the blank and the far chip holds `code_h[0]` |
| `DotMatrix.LightLedDotMatrix` | src/output.rs:193-227 | the routine is 2000 writes per pass, and it ends with the 19 writes of `clear_display(.., true)` |
| `DotMatrix.MatrixEndState` | src/output.rs:193-227 | after at least one pass, `light_led_dot_matrix` ends with the near chip at 0x00 and the far chip still at `code_h[0]` |
| `DotMatrix.FirstPassShows` | src/output.rs:212-226 | whatever follows, the latches of the first pass stay on record, each showing its column on both chips |
| `DotMatrix.MatrixFirstPass` | src/output.rs:193-227 | the first pass of `light_led_dot_matrix` lights columns 0 to 19 of the two tables, then 19 back to 0 |
| `Button.Respond` | src/input.rs:22-24 | a poll result changes the indicator level exactly when it is `Ok` |
| `Button.LevelAfterPolls` | src/input.rs:21-26 | poll results that are all errors leave the indicator level as it was |
| `Button.ButtonLevel` | src/input.rs:17 | before any poll result the indicator is high |
| `Button.ButtonTrace` | src/input.rs:17-26 | the routine writes only the indicator: first high, then one write per successful poll and none per error |
| `Button.ButtonParity` | src/input.rs:17-26 | the indicator is high exactly when an even number of polls succeeded, whatever errors came between them |
| `Button.ButtonStep` | src/input.rs:22-24 | one more `Ok` toggles the indicator, one more `Err` leaves it unchanged, and two `Ok`s in a row restore it |
| `Button.ButtonTraceLevel` | src/input.rs:17-26 | the level last written to the indicator line is the state machine's level |

## Left out

- `src/main.rs` is not part of this model. It only dispatches to one routine.
- GPIO acquisition is not modelled: `Gpio::new()?.get(..)?.into_output()` and `into_input`. These are foreign library calls, and their `?` error exits happen before any pin activity.
- `button` calls `set_interrupt(..).expect(..)` after `set_high`, so a failed `set_interrupt` panics with the indicator already high. That trace so far is `Button.ButtonTrace([])`; the panic itself is not modelled.
- `light_led_dot_matrix` calls `ctrlc::set_handler(..).expect(..)` before any pin activity; a failure panics with an empty trace, which is not modelled.
- All `thread::sleep` calls are left out. Timing is not observable in a trace.
- The timer and the `Arc<Mutex<..>>` counter of `four_digit_segment7` are left out. So is the `while` guard that reads the counter. Each pass instead takes the four counter values it reads as a parameter. The list of passes stands for however long the guard stayed below 10000.
- The Ctrl-C handler and the `AtomicBool` of `light_led_dot_matrix` are left out. The number of passes made before the flag is seen is a parameter.
- `button` loops forever. The model takes any finite sequence of `poll_interrupt` results.
- The `println!` of a poll error is left out. It writes no pin.
- `blink_led`, `rgb_led`, `set_pwm`, `beep_active_buzzer` and `beep_passive_buzzer` are not modelled. They are fixed waveforms or PWM and floating-point tone output with no decision logic.
- `FourDigit.RefreshLatches`, `DotMatrix.SweepShowsColumn` and the other chip-level lemmas assume the chip starts idle, with both clocks low. `four_digit_segment7` and `light_led_dot_matrix` never drive SRCLK or RCLK low before their first pulse, so the first edge depends on the pins' power-on state. `segment7` does drive all three lines low, and `Segment7.ShowTableLatches` assumes nothing about the starting state.
- That place `d` is the selected place while its glyph is latched is proved for a single place step (`FourDigit.SelectedPlaceShowsDigit`), not inside a whole refresh pass. The pass-level lemmas (`FourDigit.PlaceReadsDigit`, `FourDigit.PassShowsCount`) speak of latches only, because relating a place step to its position inside the 200-write pass trace is beyond what the verifier can do here within its resource limit.
- A panic in `light_1digit` is recorded as `Panicked` with the trace emitted so far. Unwinding is not modelled. The routine only ever passes digits 0 to 3, so it never panics.
