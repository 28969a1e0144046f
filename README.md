# Quake on the ESP32-P4 handheld: platform layer model

This project models the platform glue that runs Quake on the Pico Held
handheld (an ESP32-P4 with an EK79007 MIPI-DSI panel). It proves properties
of that model in Dafny. The glue has six parts:

- **Timing** (`main/timing.c`): `micros()` and `millis()` measure from the
  instant `timing_init()` recorded. Both are truncated to 32 bits.
- **Audio** (`main/audio.c`): a simulated DMA ring of 16 KiB. The audio
  task mixes one chunk of CD music with one chunk of game audio and advances
  the read cursor by a chunk. `SNDDMA_*` report the ring to the engine.
- **Controls** (`main/control.c`): a thirteen-button keymap with edge flags
  for press and release, and two analogue axes. Each axis keeps a running
  min/max, a calibrated centre, an 18 % dead zone and a range of ±100 %. The
  centre comes from a start-up calibration that repeats until twenty samples
  in a row stay inside a tolerance band.
- **Input** (`main/input.c`): `QG_GetKey` reports the first button with a
  pending event as a Quake key. `QG_GetMouseMove` turns the stick into mouse
  motion.
- **Display** (`main/display.c`): the 8-bit palette is converted to RGB565.
  `QG_DrawFrame` hands each frame to the draw task and counts frames per
  second. The draw task converts a frame and flips between two frame
  buffers. The end screen draws the 80x25 text page in EGA colours.
- **Panel driver**
  (`managed_components/espressif__esp_lcd_ek79007/esp_lcd_ek79007.c`):
  creating the panel, sending the init sequence (the lane pad control, then
  the vendor table), mirroring through MADCTL and colour inversion.

Module layout: `CTypes` holds C integer semantics (truncating division,
32-bit wrap, bits of a natural number) and an `Option` type. There is one
module per source file: `Timing`, `Audio`, `Control`, `Input`, `Display`
and `Ek79007`. Objects whose state the source mutates are classes:
`Timing.Clock`, `Audio.AudioOut`, `Control.Buttons`, `Display.Screen` and
`Ek79007.Panel`. Each loop in the source is a method with loop invariants,
proved against a specification function that the lemmas describe.

The hardware and the RTOS appear as parameters. These are:

- the clock reading;
- the ADC samples and the GPIO levels;
- the CD audio chunk;
- the font;
- the codes the panel IO returns;
- the outcomes of allocation, reset-pin setup and DPI panel creation.

Integer semantics: `char` is taken as unsigned, as on RISC-V. C division
truncates toward zero (`CTypes.CDiv`). The casts to `uint32_t` wrap modulo
2^32 (`CTypes.U32`).

## Model

| member | source | states |
|---|---|---|
| CTypes.CDiv | main/timing.c:13 | C's truncating division: the quotient's magnitude is the floor of the magnitudes' quotient, and a non-zero quotient is positive exactly when the operands have the same sign |
| CTypes.U32 | main/timing.c:7 | the `(uint32_t)` cast: the result is in [0, 2^32), congruent to the input, and equal to it when it already fits |
| Timing.MicrosBetween | main/timing.c:4-8 | microseconds since the start, wrapped to 32 bits: congruent to the true elapsed time, and equal to it while that is below 2^32 |
| Timing.MillisBetween | main/timing.c:10-14 | seconds × 1000 plus the truncated microsecond difference / 1000, wrapped to 32 bits |
| Timing.MillisVersusElapsed | main/timing.c:10-14 | for a non-negative interval before the wrap, millis() is the floor of the elapsed milliseconds, plus one exactly when the microsecond field went backwards by an amount that is not a whole millisecond |
| Timing.CountersZeroAtStart | main/timing.c:4-18 | read at the recorded start instant, both counters are 0 |
| Timing.Clock.TimingInit | main/timing.c:16-18 | records the given time as the start |
| Timing.Clock.Micros | main/timing.c:4-8 | returns MicrosBetween(start, now); the start is unchanged |
| Timing.Clock.Millis | main/timing.c:10-14 | returns MillisBetween(start, now); the start is unchanged |
| Audio.Int16Of | main/audio.c:61-66 | reinterprets a byte pair as a little-endian `int16_t`: always within int16, and negative exactly when the high byte's top bit is set |
| Audio.SampleAt | main/audio.c:61-66 | the `digaudio[i]` sample read from the byte ring at any in-range byte offset is within int16 |
| Audio.SampleAtDecodesInt16Bytes | main/audio.c:61-66 | encoding an int16 as two little-endian bytes and reading it back gives the value back |
| Audio.MixSample | main/audio.c:64-68 | the mixed sample (CD scaled by cdvol/256, weighted 24:8 with the game sample, over 32, C division) always fits `int16_t` for a volume in 0..255 |
| Audio.ScaledBounds | main/audio.c:64 | the CD sample times a volume in 0..255 stays within 256 times the int16 range, and the scaled sample within int16 |
| Audio.ScaledNoLouder | main/audio.c:64 | scaling by cdvol/256 never makes the CD sample louder |
| Audio.MutedCdLeavesQuarterGameAudio | main/audio.c:64-68 | with the CD volume at 0 the output is the game sample divided by 4 |
| Audio.MixNoLouderThanInputs | main/audio.c:64-68 | the mix never clips: each output sample is no louder than the louder of its two inputs, at every volume |
| Audio.NextRpos | main/audio.c:70 | the cursor advances by one chunk modulo the ring, stays chunk-aligned and stays inside the ring |
| Audio.ChunkAlignedStep | main/audio.c:45-70 | from a chunk-aligned cursor inside the ring, the next cursor is again chunk-aligned |
| Audio.RposAfterIsModular | main/audio.c:70 | after n cycles the cursor is (start + n·CHUNKSZ) mod BUFFER_SIZE |
| Audio.CursorReturnsAfterEightCycles | main/audio.c:37-45 | eight chunks fill the ring: the cursor comes back to where it started |
| Audio.ChunkInsideRing | main/audio.c:37-63 | from an aligned cursor the whole chunk being mixed lies inside the ring |
| Audio.AudioOut.constructor | main/audio.c:34-41 | the cursor starts at 0, sound is not initialised and no shm is installed |
| Audio.AudioOut.MixCycle | main/audio.c:60-75 | one audio-task cycle: each output sample is MixSample of the CD sample and the game sample at the old cursor; the chunk goes to the I2S sink; the cursor moves to NextRpos |
| Audio.AudioOut.Init | main/audio.c:96-110 | installs shm with speed 44100, 16 bits, 2 channels, 8192 samples, position 0, submission chunk 1, and marks sound initialised |
| Audio.AudioOut.GetDMAPos | main/audio.c:112-117 | 0 when not initialised; otherwise cursor/2, stored into shm.samplepos and below 8192 |
| Audio.AudioOut.Shutdown | main/audio.c:119-124 | sound is no longer initialised; the rest of the state is unchanged |
| Control.KeymapAsWritten | main/control.c:7-51 | the keymap as the C initializer fills it: the six values land in the first six of eight fields |
| Control.AsWrittenStartButtonBreaksKeyInv | main/control.c:7-51 | as written, the start button boots with both event flags set and a pressed level of 0, so its entry is not in a consistent state |
| Control.KeymapIntended | main/control.c:37-51 | the keymap the initializer means: idle state, no pending events, the listed pull mode and pressed level |
| Control.KeyUpdate | main/control.c:197-212 | one button's update: a level that reaches the pressed state on an idle key sets the key pressed with a fresh press event and the time; a release on a pressed key sets a release event; otherwise nothing changes |
| Control.GuardAcceptsAsWritten | main/control.c:219 | the test `button > BUTTON_CNT` as written lets indices 0..13 through |
| Control.AsWrittenGuardAdmitsOnePastTheEnd | main/control.c:219 | the as-written guard passes button 13, one past the thirteen-entry keymap |
| Control.ButtonInRange | main/control.c:219 | the corrected guard admits exactly 0..12, and everything it admits the as-written guard also admits |
| Control.Widen | main/control.c:120-124 | the extremes grow to include the reading, by no more than that; the centre is unchanged |
| Control.Travel | main/control.c:126-139 | reference definition: the distance from the centre toward the extreme on the reading's side, as a percentage in 0..100 |
| Control.Deflection | main/control.c:126-139 | the axis value is in -100..100; it is 0 or at least 18 in magnitude; its magnitude is Travel with the dead zone applied; its sign follows the side of the centre |
| Control.ReadAxis | main/control.c:107-142 | the ten-sample loop averages with C division, widens the calibration, and returns Deflection of the average |
| Control.FirstSampleResets | main/control.c:80 | the first sample of a pass replaces the running value |
| Control.FirstSampleNeverRestarts | main/control.c:80-81 | a non-negative first sample is always inside its own band |
| Control.CarriedValueIrrelevant | main/control.c:88-100 | the y calibration's result does not depend on the x centre it starts from |
| Control.CalibConsumesFullPass | main/control.c:76-86 | a centre is produced only after a pass of twenty in-band samples, and never from more readings than were supplied |
| Control.CalibUnfold | main/control.c:78-85 | one reading of the calibration stream, seen from any position in it |
| Control.CalibPass | main/control.c:78-85 | one pass of the `for` loop ends exhausted, restarted (having consumed a reading) or completed, each in agreement with Calib |
| Control.CalibrateAxis | main/control.c:76-88 | the do/while succeeds exactly when Calib yields a centre, and returns that centre |
| Control.SetBit | main/control.c:205 | OR-ing `1u << i` into a value below 2^i sets bit i and keeps the other bits |
| Control.MaskStep | main/control.c:197-213 | one loop step of the pressed mask: bit i is added exactly when button i reads its pressed level, and the mask stays below 2^(i+1) |
| Control.Buttons.constructor | main/control.c:37-67 | the intended keymap, with calibration min 1000 and max 2000 on both axes |
| Control.Buttons.UpdateBtnState | main/control.c:194-216 | every key becomes KeyUpdate of its old state and its level; the returned mask is below 2^13 and has bit i set exactly when button i reads its pressed level, and then that key is held |
| Control.Buttons.StepButton | main/control.c:198-212 | one button steps to KeyUpdate of its old state; its key state becomes 1 exactly when it reads its pressed level; the other keys are untouched |
| Control.Buttons.GetBtnState | main/control.c:218-226 | whether an in-range button is held; false outside the range; nothing changes |
| Control.Buttons.GetBtnPressEvent | main/control.c:228-237 | returns the button's press flag and clears it; other keys are untouched |
| Control.Buttons.GetBtnReleaseEvent | main/control.c:239-248 | returns the button's release flag and clears it; other keys are untouched |
| Control.Buttons.EventsReportedOnce | main/control.c:228-248 | an event is reported by the first query and not by a second |
| Control.Buttons.GetAnaX | main/control.c:107-142 | the x calibration is widened by the average of channel 0 and the return is its Deflection; y is unchanged |
| Control.Buttons.GetAnaY | main/control.c:144-179 | the same for y on channel 1; x is unchanged |
| Control.Buttons.Calibrate | main/control.c:69-105 | x is calibrated with a band of 90–110 %, then y with a band of 80–110 %; each centre is stored when its axis completes and nothing else changes |
| Input.KeyTableCoversButtonsInjectively | main/input.c:52-65 | key_conv_tab gives each of the thirteen buttons a distinct non-zero Quake key |
| Input.FirstPending | main/input.c:169-179 | the lowest button with a pending press or release event, or BUTTON_CNT when there is none |
| Input.FirstPendingIs | main/input.c:169-179 | a pending button with no pending button before it is the one FirstPending finds |
| Input.GetKey | main/input.c:162-182 | updates the buttons; when some event is pending it returns 1 with that button's key and down = its press flag, and clears that button's flags; otherwise it returns 0 with key and down 0 |
| Input.GetMouseMove | main/input.c:187-190 | x is the y-axis deflection and y is the negated x-axis deflection, both within ±100 |
| Input.AsWrittenIdleBootReportsTab | main/input.c:162-178 | with the keymap as written and no button held, the first poll reports the start button, which is K_TAB, as pressed |
| Input.IntendedIdleBootReportsNothing | main/input.c:162-182 | with the intended keymap and every pin at its idle level, the first poll finds no event |
| Display.Rgb565 | main/display.c:131-134 | `r + (g<<5) + (b<<11)` of the shifted channels, a 16-bit value |
| Display.Rgb565Fields | main/display.c:131-134 | the top 5 bits hold the first byte >> 3, the middle 6 the second byte >> 2, the low 5 the third byte >> 3 |
| Display.Rgb565DropsLowBits | main/display.c:131-133 | channels that differ only in the dropped low bits give the same entry |
| Display.Rgb565Injective | main/display.c:131-134 | equal entries come only from channels that agree in the kept bits |
| Display.PaletteOf | main/display.c:127-136 | 256 entries, each a 16-bit RGB565 value |
| Display.EgaTriplet | main/display.c:160-177 | each of the 16 EGA triplets converts to the listed RGB565 value: black is 0x0000 and white is 0xFFFF |
| Display.EgaPaletteValues | main/display.c:160-178 | after loading the end-screen palette, entries 0..15 are the EGA colours and 16..255 are black |
| Display.TicksAfterIsModular | main/display.c:56-61 | the frame counter after n frames is n mod 101, and it resets on exactly every 101st frame |
| Display.FrameTimeBelowWindow | main/display.c:58-59 | the reported time per frame is non-negative and not more than the window's duration |
| Display.Converted | main/display.c:83-89 | as many output pixels as input pixels |
| Display.SurfaceOf | main/display.c:42 | the buffer index is always 0 or 1 |
| Display.SurfacesAlternate | main/display.c:117-118 | consecutive frames go to different buffers, and every second frame to the same one |
| Display.GlyphColour | main/display.c:150-151 | the pixel takes the foreground colour exactly when the glyph bit is set, and the background colour otherwise |
| Display.FittingCellInside | main/display.c:143-152 | a cell that passes draw_char's bounds test lies wholly inside the panel |
| Display.Fore | main/display.c:186 | the foreground is the attribute's low nibble, 0..15 |
| Display.Back | main/display.c:186 | the background is attribute bits 4..6, 0..7 |
| Display.AttributeRoundTrip | main/display.c:186 | foreground and background together give back the attribute's low seven bits |
| Display.CellOf | main/display.c:180-189 | the text cell a pixel falls in, or -1 outside the grid |
| Display.DivSlot | main/display.c:184-186 | v / d == q exactly when v lies in the q-th slot of width d |
| Display.CellOfIsRectangle | main/display.c:180-189 | a pixel belongs to cell k exactly when it lies in k's 8x16 rectangle |
| Display.EndScreenStep | main/display.c:184-189 | drawing cell k changes the end screen only inside k's rectangle |
| Display.CentredCellsFit | main/display.c:141-189 | on a panel at least 642x402 every centred cell passes draw_char's test |
| Display.Screen.constructor | main/display.c:39-48 | buffer 1 is current, no frame has been presented, nothing is pending and the counter is 0 |
| Display.Screen.SetPalette | main/display.c:127-136 | pal becomes PaletteOf(palette) |
| Display.Screen.DrawFrame | main/display.c:51-64 | publishes the frame and notifies the draw task; the counter becomes FpsNext; past 100 frames it reports the time per frame and restarts the window |
| Display.Screen.ConvertPixels | main/display.c:83-89 | the staging buffer becomes Converted(pal, frame); every pixel is a 16-bit value |
| Display.Screen.DrawStep | main/display.c:77-124 | with a pending notification, presents the converted frame on the current buffer and flips cur_buf; without one, nothing changes |
| Display.Screen.DrawChar | main/display.c:141-155 | a cell failing the bounds test leaves the buffer unchanged; otherwise each of its pixels becomes pal[GlyphColour] at the mirrored column x + 7 - px, and the rest of the buffer is unchanged |
| Display.Screen.ClearSurface | main/display.c:158 | every pixel of the current buffer becomes 0 |
| Display.Screen.DrawCell | main/display.c:184-188 | after cell k the buffer equals the end screen with k+1 cells drawn |
| Display.Screen.DrawRow | main/display.c:185-188 | after the 80 cells of row y the buffer equals the end screen with (y+1)·80 cells drawn |
| Display.Screen.DrawCells | main/display.c:183-190 | from the cleared buffer, the 25 rows leave the buffer equal to the end screen with all 2000 cells drawn |
| Display.Screen.DrawEndScreen | main/display.c:157-192 | the palette becomes the EGA palette and the buffer is the cleared screen with every text cell drawn (or left blank when there is no text page) |
| Display.FramesCoalesce | main/display.c:51-89 | three frames published before the draw task runs yield one presentation: the last frame's |
| Ek79007.OrBit | managed_components/espressif__esp_lcd_ek79007/esp_lcd_ek79007.c:352-361 | setting a mirror bit (OR with the bit mask): the bit is set and the bits below and above it are kept |
| Ek79007.AndNotBit | managed_components/espressif__esp_lcd_ek79007/esp_lcd_ek79007.c:352-361 | clearing a mirror bit (AND with the inverted mask): the bit is cleared and the bits below and above it are kept |
| Ek79007.MirroredMadctl | managed_components/espressif__esp_lcd_ek79007/esp_lcd_ek79007.c:347-361 | bit 0 (SHLR) is mirror_x, bit 1 (UPDN) is mirror_y, and bits 2..7 are unchanged |
| Ek79007.MirrorIdempotent | managed_components/espressif__esp_lcd_ek79007/esp_lcd_ek79007.c:343-369 | mirroring twice with the same flags gives the same MADCTL value as once, and only the two flags matter |
| Ek79007.LaneCommand | managed_components/espressif__esp_lcd_ek79007/esp_lcd_ek79007.c:228-239 | lanes 0 or 2 give 0x10, 4 gives 0x00, and anything else is rejected |
| Ek79007.CapturedIsLastMadctl | managed_components/espressif__esp_lcd_ek79007/esp_lcd_ek79007.c:254-265 | the captured MADCTL value is the first data byte of the last MADCTL command with data among the scanned commands |
| Ek79007.CapturedWithoutMadctl | managed_components/espressif__esp_lcd_ek79007/esp_lcd_ek79007.c:254-265 | without such a command the value stays unchanged |
| Ek79007.TableTxsPrefix | managed_components/espressif__esp_lcd_ek79007/esp_lcd_ek79007.c:254-277 | the transmissions of a shorter prefix of the table are a prefix of the longer one's |
| Ek79007.TransmissionOf | managed_components/espressif__esp_lcd_ek79007/esp_lcd_ek79007.c:240-275 | call 0 is the pad control with the lane command, and call j+1 is table command j with its data |
| Ek79007.TransmissionsPrefix | managed_components/espressif__esp_lcd_ek79007/esp_lcd_ek79007.c:240-275 | the first k+1 calls are the pad control followed by the first k table commands |
| Ek79007.FirstFailure | managed_components/espressif__esp_lcd_ek79007/esp_lcd_ek79007.c:240-277 | the index of the first call whose result is not ESP_OK, or the count when every call succeeds |
| Ek79007.SucceededBeforeFirstFailure | managed_components/espressif__esp_lcd_ek79007/esp_lcd_ek79007.c:254-277 | every call before the first failure succeeded |
| Ek79007.FirstFailureIs | managed_components/espressif__esp_lcd_ek79007/esp_lcd_ek79007.c:254-277 | a failing call preceded only by successes is the first failure |
| Ek79007.Panel.Table | managed_components/espressif__esp_lcd_ek79007/esp_lcd_ek79007.c:246-252 | the caller's init table when given, otherwise the default |
| Ek79007.Panel.constructor | managed_components/espressif__esp_lcd_ek79007/esp_lcd_ek79007.c:80-86 | the panel keeps the IO, table, lane count and reset settings, with MADCTL at its default 0x01 |
| Ek79007.Panel.Mirror | managed_components/espressif__esp_lcd_ek79007/esp_lcd_ek79007.c:343-369 | a null IO gives INVALID_STATE; otherwise it sends MADCTL with MirroredMadctl and keeps the new value only when the send succeeds |
| Ek79007.Panel.InvertColor | managed_components/espressif__esp_lcd_ek79007/esp_lcd_ek79007.c:371-387 | a null IO gives INVALID_STATE; otherwise it sends INVON or INVOFF without data and returns the send's result |
| Ek79007.Panel.SendInitCmds | managed_components/espressif__esp_lcd_ek79007/esp_lcd_ek79007.c:220-282 | an invalid lane count gives INVALID_ARG and sends nothing; otherwise exactly the transmissions up to and including the first failure are sent, the result is that failure's code or ESP_OK, and MADCTL holds the value captured from the commands scanned |
| Ek79007.Panel.SendTable | managed_components/espressif__esp_lcd_ek79007/esp_lcd_ek79007.c:254-281 | the table loop: the commands up to and including the first failure are sent, and the MADCTL capture follows them |
| Ek79007.NewPanel | managed_components/espressif__esp_lcd_ek79007/esp_lcd_ek79007.c:60-112 | missing arguments or an incomplete vendor config give INVALID_ARG; a failed allocation gives NO_MEM; a reset-pin or DPI failure returns its code; a panel exists exactly when the result is ESP_OK, and it is fresh with MADCTL at default and nothing sent |

## Left out

- FreeRTOS tasks, the drawing mutex, task notifications and `vTaskDelay`: the
  draw task's loop is one step (`DrawStep`) applied to the shared state; the
  mix loop is one cycle (`MixCycle`). Interleavings are not modelled.
- The PPA scale/rotate call and `esp_lcd_panel_draw_bitmap` are not modelled:
  a presentation records the converted frame and the buffer it went to.
- The floating-point volume cvars: `cdvol` is an input, and the master
  volume (only printed) is not modelled. The FPS `printf` and all logging
  are left out; `DrawFrame` returns the time per frame it would print.
- `gettimeofday`, `esp_timer_get_time`, `adc1_get_raw`, `gpio_get_level`,
  `CDAudio_get_samps`, the 8x16 font data and the text page loaded by
  `display_quit` are inputs.
- `handle_hw` in `main/input.c`: only its power-off decision is reported
  (`powerOff`); the GPIO write and the commented-out brightness code are
  not modelled.
- `ctrl_init`, `input_init`, `display_init`, `display_quit`, `audio_task`'s
  buffer allocation, the panel's `init`, `reset` and `del`, and the DPI
  panel creation are left out; they only configure hardware.
- The panel and frame sizes (`BSP_LCD_H_RES`, `BSP_LCD_V_RES`,
  `QUAKEGENERIC_RES_X/Y`) come from headers that are not part of this model;
  `Display.Screen.constructor` takes them as parameters.
- The vendor init tables (the per-revision `vendor_specific_init_default`):
  their bytes are not part of this model; the default table is a parameter.
- Control.Buttons.Calibrate: the source samples until calibration succeeds,
  which may be forever; the model reads finite streams and reports
  `done == false` when a stream ends first.
- Control.Deflection: requires that the divisor is non-zero
  (`!DividesByZero`); the source divides by zero when the averaged reading
  is at the centre and no lower reading has been seen, which the model does
  not describe.
- Control.Buttons.GetAnaX, Control.Buttons.GetAnaY, Control.ReadAxis and
  Input.GetMouseMove carry the same requirement.
- Audio.MixSample: requires a CD volume in 0..255, the range `bgmvolume` in
  0..1 gives; a larger console setting would make the stored sample wrap
  in `int16_t`, which the model does not describe.
- Display.Screen.DrawFrame: the reported value is the integer time per frame
  in microseconds; the division of 1e6 by it is not modelled.
- Integer overflow of the 32-bit `int` arithmetic in the mixer, the analogue
  path and the calibration is not modelled; the values in these paths
  (12-bit ADC readings, 16-bit samples) stay far from it.
- The model's `Control.Buttons.constructor` installs the intended keymap,
  and the getters use the corrected guard, as the findings below explain.

## Findings

| source | as written | input that shows it | evidently intended | confidence | as-written member | corrected member |
|---|---|---|---|---|---|---|
| main/control.c:37-51 | each initializer lists six values for an eight-field `keymap_t`, so the pull mode lands in `key_newly_pressed`, the pressed level in `key_newly_released`, and `pull_mode`/`pressed_state` stay 0 | boot with no button held: the start button has a pending press (and `ctrl_init` gives every pin a pull-up), so the first `QG_GetKey` returns K_TAB down | the values fill `pull_mode` and `pressed_state`, with no event pending at boot | high (not executed) | Control.KeymapAsWritten, Control.AsWrittenStartButtonBreaksKeyInv, Input.AsWrittenIdleBootReportsTab | Control.KeymapIntended, Input.IntendedIdleBootReportsNothing |
| main/control.c:219,229,240 | the range test is `button > BUTTON_CNT` | button 13 passes the test and indexes `keymap[13]`, one past the end | `button >= BUTTON_CNT` | high (not executed) | Control.GuardAcceptsAsWritten, Control.AsWrittenGuardAdmitsOnePastTheEnd | Control.ButtonInRange |
