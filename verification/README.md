# LED controller beat detection and animation rules, in Dafny

This project models the control logic of the RA-moon LED sketches: the
audio beat detectors that drive the global `brightnessPulse`, and the small
rendering-side rules that place waves and comets on the LED rings.

- **SpectralBeat** (`Brain_MK3-02_beat`). One call of `processAudio()` is a
  pure step function over a `DetectorState` record. The I2S status,
  bass-energy EMA, previous bass, debounce timer, pending beat event,
  pulse and fallback timer are all explicit fields. The step has three
  paths:
  - the random-kick fallback, when there is no I2S device;
  - nothing at all, on a short read;
  - the full analysis: bass-bin range and sum, EMA noise floor with
    re-seeding, the three-way beat test with an unsigned-millis debounce,
    the clamped strength, and the monotone, floored pulse.

  `consumeBeat` is a function returning the new state and the delivered
  strength.
- **EnergyBeat** (`Brain_MK2_04`). The time-domain detector: int16
  samples taken from 32-bit I2S words, their mean absolute value,
  a fixed threshold and a 200 ms cooldown.
- **SyntheticKick** (`Brain_MK2_09`). The fake envelope: a random kick
  with a 120 ms debounce and a 1.0 floor. On the pulse and lastKickMs,
  the MK3 fallback is proved to be this step; it also raises a beat event
  of strength 0.7.
- **Waves**, **WavesWrap**, **WavesCull**, **WavesForward**, **SingleWave**.
  Four `wave_position.cpp` variants:
  - wrap at the ends (`Brain_Modular_waves_05`);
  - erase off-screen waves (`Brain_Wave_Pulse_2.0_1`);
  - forward-only (`ELSA/..._cool_backwardbehavior`);
  - the single cursor with its hue counter (`modular_wave_animation`).

  Each list variant's `addWave` is `WavesWrap.AddWave`, `WavesCull.AddWave`
  or `WavesForward.AddWave`: `Waves.PushBack` of that variant's `NewWave`,
  so their contracts are those of `Waves.PushBack` and the `NewWave`
  rows. `WavesWrap.UpdateWaves` and `WavesForward.UpdateWaves` are
  `Waves.UpdateEach` of that variant's `Advance`, so their contracts are
  those of `Waves.UpdateEach` and the `Advance` rows.
- **FrameMapping**. The three `getInterpolatedFrame` variants. Each is
  one method parameterised by the skip threshold and by whether a reversed
  wave swaps its widths. The method is proved equal to a functional
  reference: the concatenation of the rings' contributions.
- **Comet** (`Brain_MK2_08`). The ping-pong head position, direction and
  hue.
- **AnimationSwitch** (`Brain_Wave_MultiAnimation_01`). The ten-second
  switch between two frame generators.

Modelling conventions:
- Floats are `real`.
- `uint32_t` and `unsigned long` timestamps are `Common.U32`. Their
  differences are taken mod 2^32 (`Common.Elapsed`).
- C's truncating `/` and `%`, and 32-bit wrap-around, are written out
  (`Common.CDiv`, `Common.CRem`, `Common.WrapI32`).
- These are inputs of each step: `millis()`, `random(0, 100)`, the I2S
  read results, the FFT magnitude bins, `getAsymmetricIntensity`, the
  colour construction, and the animation frame generators.

The `AUDIO_ENABLE_I2S = 0` build of `Brain_MK3-02_beat` is the
`i2sOk = false` case of `SpectralBeat.ProcessAudio`. In that build
`setupI2S` stores false and every call goes to `fakeAudioPulse`.

`processAudio` converts the band limits to bins with a truncating
`uint16_t` cast. 40 Hz gives bin 0, which is clamped to 1, and 180 Hz
gives bin 2, so the band is bins 1..2 (`SpectralBeat.BinOf`,
`SpectralBeat.ShippedBassBins`).

## Model

| member | source | states |
|---|---|---|
| Common.Elapsed | Brain_MK3-02_beat/audio_processor.cpp:176 | the unsigned difference `now - since` is the d with since + d = now (mod 2^32): the plain difference without a wrap, 2^32 - (since - now) across one |
| Common.EnforceFloor | Brain_MK2_09/audio_processor.cpp:25-26 | the pulse on exit is at least 1.0 and at least its old value, and is either unchanged or exactly 1.0 |
| Common.CDiv | _old/modular_wave_animation/wave_position.cpp:23 | C integer division truncates toward zero: the remainder has the dividend's sign and is smaller than the divisor |
| Common.CRem | _old/modular_wave_animation/wave_position.cpp:23 | C `%` satisfies a = (a / b) * b + a % b with the remainder carrying the sign of a |
| Common.WrapI32 | _old/modular_wave_animation/wave_position.cpp:23 | a value held in a 32-bit `long` is congruent to the exact one mod 2^32 and equal to it when it fits |
| Common.ToU32 | _old/modular_wave_animation/wave_position.cpp:22-23 | the `uint32_t` return conversion reduces mod 2^32 and keeps values already in range |
| SyntheticKick.ProcessAudio | Brain_MK2_09/audio_processor.cpp:13-27 | a kick (more than 120 ms since the last, unsigned, and draw < 6) sets pulse 1.6 and lastKickMs = now; otherwise lastKickMs is kept and a pulse >= 1 is unchanged (a lower one becomes 1); lastKickMs changes only on a kick; pulse >= 1 on exit |
| SyntheticKick.LastKickHeld | Brain_MK2_09/audio_processor.cpp:16-23 | between a kick and the next, lastKickMs keeps the first kick's time |
| SyntheticKick.KicksSpaced | Brain_MK2_09/audio_processor.cpp:20-22 | consecutive kicks are more than 120 ms apart in wrapping millis |
| SyntheticKick.PulseFloored | Brain_MK2_09/audio_processor.cpp:25-26 | after any call of a run the pulse is at least 1.0 |
| SpectralBeat.Init | Brain_MK3-02_beat/audio_processor.cpp:56-87 | power-up state: pulse 1.0, no pending beat, EMA, previous bass and both timers 0, I2S status as `I2S.begin` reported |
| SpectralBeat.Clamp01 | Brain_MK3-02_beat/audio_processor.cpp:58-62 | the result is in [0, 1]: 0 below, 1 above, the input itself inside |
| SpectralBeat.ConsumeBeat | Brain_MK3-02_beat/audio_processor.cpp:68-73 | nothing pending: delivers nothing and changes nothing; pending: delivers the stored strength and clears the flag, touching no other field |
| SpectralBeat.ConsumeTwice | Brain_MK3-02_beat/audio_processor.h:14-16 | edge-triggered: a second call right after the first delivers nothing and leaves the state as it was |
| SpectralBeat.FakeAudioPulse | Brain_MK3-02_beat/audio_processor.cpp:89-101 | a kick (strictly > 120 ms, unsigned, draw < 6) sets pulse 1.6, pending, strength 0.7 and lastKickMs = now; otherwise only the 1.0 floor applies; the audio-path fields are untouched |
| SpectralBeat.BinOf | Brain_MK3-02_beat/audio_processor.cpp:158-159 | the bin index is the floor of hz * 512 / 32000 (the `uint16_t` cast truncates) |
| SpectralBeat.ClampBins | Brain_MK3-02_beat/audio_processor.cpp:157-161 | the range never includes bin 0 nor goes past bin 255; in-range ends are kept, out-of-range ones become 1 or 255 |
| SpectralBeat.BassBins | Brain_MK3-02_beat/audio_processor.cpp:157-161 | the bass band lies within bins [1, 255] |
| SpectralBeat.ShippedBassBins | Brain_MK3-02_beat/audio_processor.cpp:158-161 | with 40 Hz, 180 Hz, 512 samples and 32 kHz the band is exactly bins 1..2 |
| SpectralBeat.SumBins | Brain_MK3-02_beat/audio_processor.cpp:163-167 | the inclusive bin sum is non-negative when its bins are |
| SpectralBeat.SumBinsWiden | Brain_MK3-02_beat/audio_processor.cpp:163-167 | widening the band never lowers the bass energy |
| SpectralBeat.SumBinsDropLow | Brain_MK3-02_beat/audio_processor.cpp:164-166 | a non-empty band's sum is its lowest bin plus the sum of the rest |
| SpectralBeat.BassEnergy | Brain_MK3-02_beat/audio_processor.cpp:156-167 | the bass energy of a window is magnitude[1] + magnitude[2], never negative |
| SpectralBeat.UpdateEma | Brain_MK3-02_beat/audio_processor.cpp:169-171 | the new EMA closes 8% of the gap between the baseline (re-seeded to bass if <= 0.0001) and bass; a re-seeding cycle gives ema == bass; non-negative inputs give a non-negative EMA |
| SpectralBeat.ShrunkIsPow | Brain_MK3-02_beat/audio_processor.cpp:171 | shrinking a distance n times by the factor 0.92 that the update keeps of the gap is multiplying it by 0.92^n |
| SpectralBeat.EmaShrinks | Brain_MK3-02_beat/audio_processor.cpp:170-171 | under constant bass, every update (re-seeding or not) keeps at most 0.92 of the gap to bass, so after n cycles the gap is at most the initial one shrunk n times |
| SpectralBeat.EmaConverges | Brain_MK3-02_beat/audio_processor.cpp:170-171 | under constant bass, after n cycles the EMA is within 0.92^n of its initial distance from bass |
| SpectralBeat.ReseedNeverFires | Brain_MK3-02_beat/audio_processor.cpp:170-177 | a cycle that re-seeds the baseline yields ema == bass and, with bass >= 0, cannot pass the beat test |
| SpectralBeat.Strength | Brain_MK3-02_beat/audio_processor.cpp:181-182 | the strength is in [0, 1]: 0 when bass/(ema + 0.001) <= 1.8, 1 when it is >= 3.6 |
| SpectralBeat.StrengthMonotone | Brain_MK3-02_beat/audio_processor.cpp:181-182 | at a fixed baseline a louder window never gets a weaker strength |
| SpectralBeat.RaisePulse | Brain_MK3-02_beat/audio_processor.cpp:189-190 | the pulse becomes the larger of its value and the candidate |
| SpectralBeat.AnalyseWindow | Brain_MK3-02_beat/audio_processor.cpp:156-195 | EMA updated and prevBass = bass; a beat (interval >= 120 unsigned, bass > 1.8 ema, rise > 0.1 ema, on the updated EMA) sets pending, the strength and lastBeatMs = now and sets the pulse to exactly max(old pulse, 1 + 0.9 strength); no beat leaves the beat fields alone; the pulse never drops and is >= 1 |
| SpectralBeat.ProcessAudio | Brain_MK3-02_beat/audio_processor.cpp:121-199 | no I2S: exactly the fallback; short read: the whole state unchanged; full read: the window analysis |
| SpectralBeat.BeatIffTimerMoves | Brain_MK3-02_beat/audio_processor.cpp:176-186 | a real beat fires exactly when the call changes lastBeatMs, which it sets to now, at least 120 ms (unsigned) after its old value |
| SpectralBeat.TimerIsPrevBeat | Brain_MK3-02_beat/audio_processor.cpp:176-186 | in every state of a run lastBeatMs is the time of the most recent real beat (or its initial value): short reads, quiet windows and the fallback never move it |
| SpectralBeat.BeatsSpaced | Brain_MK3-02_beat/audio_processor.cpp:174-186 | every real-path beat comes at least 120 ms (wrapping millis) after the previous one, or after the timer's initial value |
| SpectralBeat.FallbackIsSyntheticKick | Brain_MK3-02_beat/audio_processor.cpp:89-101 | without an I2S device, the pulse and lastKickMs of every state in a run are those of the Brain_MK2_09 kick run on the same times and draws |
| EnergyBeat.ShiftRight14 | Brain_MK2_04/audio_processor.cpp:52 | `w >> 14` is the floor of w / 2^14 and lies in [-2^17, 2^17) |
| EnergyBeat.ToI16 | Brain_MK2_04/audio_processor.cpp:52 | the `int16_t` conversion is congruent mod 2^16 and exact when the value fits |
| EnergyBeat.Sample | Brain_MK2_04/audio_processor.cpp:52 | the sample is the shifted word truncated to 16 bits, equal to the floor of w / 2^14 for words in [-2^29, 2^29) |
| EnergyBeat.Energy | Brain_MK2_04/audio_processor.cpp:50-56 | the sum of absolute samples is between 0 and 32768 per word |
| EnergyBeat.EnergyFitsLong | Brain_MK2_04/audio_processor.cpp:50-56 | over 64 words the energy is at most 64 * 32768 and fits a 32-bit `long` |
| EnergyBeat.Average | Brain_MK2_04/audio_processor.cpp:62 | the average is the truncated quotient energy / 64 and lies in [0, 32768] |
| EnergyBeat.WindowAverage | Brain_MK2_04/audio_processor.cpp:50-62 | a window's average lies in [0, 32768] |
| EnergyBeat.ProcessAudio | Brain_MK2_04/audio_processor.cpp:44-69 | a failed or empty read changes nothing; a beat (average > 3000 and strictly > 200 ms, unsigned) sets pulse 1.0 and lastBeatTime = now; otherwise nothing changes |
| EnergyBeat.LastBeatHeld | Brain_MK2_04/audio_processor.cpp:65-68 | between two beats lastBeatTime holds the first one's time |
| EnergyBeat.BeatsSpaced | Brain_MK2_04/audio_processor.cpp:65-67 | consecutive beats are more than 200 ms apart in wrapping millis |
| Waves.SpeedMagnitude | _old/Brain_Modular_waves_05/wave_position.cpp:31-33 | for every `int8_t` control the speed is in [0.1, 0.6]: 0.2 + control/25 for controls -2..10, 0.1 below, 0.6 above |
| Waves.SpeedMonotone | _old/Brain_Modular_waves_05/wave_position.cpp:31-33 | a larger control never gives a slower wave |
| Waves.UpdateEach | _old/Brain_Modular_waves_05/wave_position.cpp:13-23 | the in-place loop of `updateWaves` keeps the list length and replaces every wave by its own step, in place |
| Waves.ResetWaves | _old/Brain_Modular_waves_05/wave_position.cpp:8-10 | `resetWaves` leaves the list empty |
| Waves.PushBack | _old/Brain_Modular_waves_05/wave_position.cpp:47 | `addWave` (in every variant) appends exactly one wave at the end, the existing waves unchanged |
| WavesWrap.NewWave | _old/Brain_Modular_waves_05/wave_position.cpp:30-45 | speed magnitude in [0.1, 0.6], negative iff reverse; start at 10 + nose if reverse, else -tail; totalWidth = nose + tail; the other fields as given |
| WavesWrap.Advance | _old/Brain_Modular_waves_05/wave_position.cpp:13-22 | only the center changes: it moves by the speed, and goes back to the start position once past 10 + nose (forward) or -tail (reverse) |
| WavesWrap.NewWaveInRange | _old/Brain_Modular_waves_05/wave_position.cpp:35-45 | a new wave with a non-empty range starts inside [-tail, 10 + nose], moving its own way at an allowed speed |
| WavesWrap.AdvanceInRange | _old/Brain_Modular_waves_05/wave_position.cpp:14-22 | one step keeps a wave's center within [-tail, 10 + nose] |
| WavesWrap.UpdateInRange | _old/Brain_Modular_waves_05/wave_position.cpp:12-24 | `updateWaves` keeps every center within [-tail, 10 + nose] |
| WavesWrap.AddWaveInRange | _old/Brain_Modular_waves_05/wave_position.cpp:30-48 | appending a wave with a non-empty range keeps the invariant of the whole list |
| WavesWrap.CallsKeepInRange | _old/Brain_Modular_waves_05/wave_position.cpp:8-48 | for every sequence of reset, add (non-empty range) and update calls, every wave center stays within [-tail, 10 + nose] |
| WavesCull.NewWave | _old/Brain_Wave_Pulse_2.0_1/wave_position.cpp:29-41 | speed magnitude in [0.1, 0.6], negative iff reverse; start at 10 + nose if reverse, else -tail; totalWidth = nose + tail |
| WavesCull.MoveAll | _old/Brain_Wave_Pulse_2.0_1/wave_position.cpp:12-14 | every wave's center advances by its own speed, nothing else changes |
| WavesCull.RemoveOffScreen | _old/Brain_Wave_Pulse_2.0_1/wave_position.cpp:16-22 | the survivors are an order-preserving subsequence; exactly the off-screen waves (forward > 11 + nose, reverse < -tail - 1) are removed: a wave survives iff it is not off screen, and the count removed is the off-screen count |
| WavesCull.UpdateWaves | _old/Brain_Wave_Pulse_2.0_1/wave_position.cpp:11-23 | the list never grows; the result is an order-preserving subsequence of the moved waves, holding exactly the moved waves that are on screen, and its length is the input length minus the number of moved waves off screen, so equal waves keep their multiplicity |
| WavesCull.SameNewWaveAsWrap | _old/Brain_Wave_Pulse_2.0_1/wave_position.cpp:35-36 | this variant's `addWave` builds the same wave as Brain_Modular_waves_05's |
| WavesCull.LoneWaveFate | _old/Brain_Wave_Pulse_2.0_1/wave_position.cpp:11-23 | after n updates a lone wave is either erased or at its straight-line position, on screen |
| WavesCull.LoneWaveErased | _old/Brain_Wave_Pulse_2.0_1/wave_position.cpp:16-22 | once a lone wave's straight-line position is off screen it has been erased |
| WavesForward.NewWave | _old/ELSA/Brain_Modular_waves_02_cool_backwardbehavior/wave_position.cpp:21-33 | speed in [0.1, 0.6] and positive even when reverse; start at -tail; totalWidth = nose + tail |
| WavesForward.Advance | _old/ELSA/Brain_Modular_waves_02_cool_backwardbehavior/wave_position.cpp:12-13 | only the center changes: it moves by the speed, and restarts at -tail once past 12 + nose |
| WavesForward.ResetThenAdd | _old/ELSA/Brain_Modular_waves_02_cool_backwardbehavior/wave_position.cpp:6-35 | after `resetWaves` and one `addWave` the list is exactly that wave |
| WavesForward.ReverseIgnored | _old/ELSA/Brain_Modular_waves_02_cool_backwardbehavior/wave_position.cpp:11-14 | the `reverse` flag has no effect on `updateWaves` |
| WavesForward.ReverseOnlyRecorded | _old/ELSA/Brain_Modular_waves_02_cool_backwardbehavior/wave_position.cpp:26-33 | `addWave` with reverse set builds the forward wave with only the flag changed |
| WavesForward.UpdateInRange | _old/ELSA/Brain_Modular_waves_02_cool_backwardbehavior/wave_position.cpp:11-14 | every center stays within [-tail, 12 + nose] across updates |
| WavesForward.NewWaveInRange | _old/ELSA/Brain_Modular_waves_02_cool_backwardbehavior/wave_position.cpp:27-32 | a new wave with a non-empty range starts inside it, moving forward |
| SingleWave.NextWavePosition | _old/modular_wave_animation/wave_position.cpp:9-16 | the center advances 0.2, or past 12 restarts at -1 with one more cycle; the returned value is the new center and never exceeds 12 |
| SingleWave.ResetWave | _old/modular_wave_animation/wave_position.cpp:18-20 | the center goes back to -1 and the cycle count is kept |
| SingleWave.CycleCountsWraps | _old/modular_wave_animation/wave_position.cpp:11-14 | the cycle count rises by exactly one when the position wraps and is unchanged otherwise; the center stays within [-1, 12] |
| SingleWave.AdvanceReachable | _old/modular_wave_animation/wave_position.cpp:4-16 | from power-up the center stays in [-1, 12] and after n frames at most n cycles have been counted |
| SingleWave.WaveHueAsWritten | _old/modular_wave_animation/wave_position.cpp:22-24 | for cycle < 32768 the hue is (cycle * 65536 / 50) mod 65536, in [0, 65535] |
| SingleWave.HueOverflowWitness | _old/modular_wave_animation/wave_position.cpp:23 | at cycle 32768 the 32-bit product wraps and the as-written hue is 2^32 - 23592, where the intended hue is 23592 |
| SingleWave.WaveHue | _old/modular_wave_animation/wave_position.cpp:22-24 | the intended hue is in [0, 65535] for every cycle and equals the as-written one below 32768 |
| SingleWave.HueMatchesBelowOverflow | _old/modular_wave_animation/wave_position.cpp:23 | below 32768, reducing the cycle modulo 50 first gives the same hue as the code |
| SingleWave.HuePeriodic | _old/modular_wave_animation/wave_position.cpp:22-24 | the hue repeats every 50 cycles |
| FrameMapping.Value8 | _old/Brain_Wave_Pulse_2_02/frame_interpolation.cpp:27 | the `uint8_t` value is brightness * intensity truncated, never above the brightness |
| FrameMapping.Emit | _old/Brain_Wave_Pulse_06/frame_interpolation.cpp:33-40 | a ring contributes at most as many results as it has LEDs |
| FrameMapping.EmitMember | _old/Brain_Wave_Pulse_06/frame_interpolation.cpp:33-40 | a pair is emitted for a ring iff its LED is in the ring, inside [0, 120), and it carries the ring's colour |
| FrameMapping.GetInterpolatedFrame | _old/Brain_Wave_Pulse_06/frame_interpolation.cpp:5-44 | the loops compute the concatenation over rings 0..n-1 of each kept ring's in-range LEDs in stored order; every index is in [0, 120); the length is at most the total LED count |
| FrameMapping.ExpectedMember | _old/Brain_Wave_Pulse_06/frame_interpolation.cpp:17-41 | a (LED, colour) pair is output iff some ring at or above the threshold holds that in-range LED and the pair has that ring's colour |
| FrameMapping.ExpectedInStrip | _old/Brain_Wave_Pulse_2_02/frame_interpolation.cpp:30-31 | every output LED index lies in [0, 120) |
| FrameMapping.ExpectedLength | _old/Brain_Wave_Pulse_06/frame_interpolation.cpp:33-39 | the output is no longer than all frames' LEDs together |
| FrameMapping.AllSkippedIsEmpty | _old/Brain_Modular_waves_07/frame_interpolation.cpp:22 | when every ring is below the threshold nothing is output |
| FrameMapping.ReverseIsMirroredProfile | _old/Brain_Modular_waves_07/frame_interpolation.cpp:16-20 | a reversed wave takes LEDs from the rings in forward order; only the intensity profile is mirrored in the ring index (and width-swapped in the swapping variants) |
| FrameMapping.SwappingVariantsSwapWidths | _old/Brain_Wave_Pulse_2_02/frame_interpolation.cpp:19-24 | in the 0.001 and 0.005 variants a reversed wave is evaluated at ring n-1-i with tail and nose widths swapped |
| FrameMapping.Waves07KeepsWidths | _old/Brain_Modular_waves_07/frame_interpolation.cpp:17-20 | in the 0.01 variant the widths are passed unswapped and only the index is mirrored |
| Comet.Constrain | Brain_MK2_08/waveform.cpp:36 | `constrain` lands in [lo, hi] and keeps values already there |
| Comet.Step | Brain_MK2_08/waveform.cpp:33-39 | pos moves by dir; at or beyond either end dir flips and pos is constrained to [0, 59]; the hue rises by 1 mod 256 |
| Comet.StepReachable | Brain_MK2_08/waveform.cpp:33-37 | on reachable states a frame keeps pos in [0, 59] and dir in {1, -1}, moves pos by exactly dir (the constrain is a no-op), and flips dir exactly when the new pos is 0 or 59 |
| Comet.FramesReachable | Brain_MK2_08/waveform.cpp:13-39 | from pos 0, dir 1, after any number of frames pos is in [0, 59] (so `leds[pos]` is in bounds) and the hue is the frame count mod 256 |
| AnimationSwitch.UpdateAnimationSwitch | Brain_Wave_MultiAnimation_01/animation_manager.cpp:21-28 | a switch happens iff 10000 ms have passed (unsigned) or no frames are loaded; it records now, advances the index by 1 mod 2 and loads that generator's frames; otherwise nothing changes |
| AnimationSwitch.FirstCallSelectsSecond | Brain_Wave_MultiAnimation_01/animation_manager.cpp:8-26 | the first call always switches, selecting animation 1 |
| AnimationSwitch.SwitchAlternates | Brain_Wave_MultiAnimation_01/animation_manager.cpp:25 | two switches in a row return to the same animation |
| AnimationSwitch.RunConsistent | Brain_Wave_MultiAnimation_01/animation_manager.cpp:17-27 | the index stays in [0, 2), and `getCurrentAnimationFrames` returns the current generator's frames, after every sequence of calls |
| AnimationSwitch.InitRunConsistent | Brain_Wave_MultiAnimation_01/animation_manager.cpp:8-26 | from power-up, after at least one call, the index is in [0, 2) and the frames are the current generator's |

## Left out

- I2S bring-up and reads are not modelled: `setupI2S`, `I2S.begin`, `I2S.readBytes`, `i2s_driver_install` and `i2s_read` are hardware I/O. `I2S.begin`'s result is the `i2sOk` parameter of `SpectralBeat.Init`. The read results are inputs: a byte count and magnitudes for MK3, a status, byte count and word buffer for MK2_04.
- The MK3 sample extraction, DC removal, Hamming window and FFT (`Brain_MK3-02_beat/audio_processor.cpp:136-154`) are not modelled. ArduinoFFT is a foreign floating-point library. The model takes the 512 magnitude bins as a non-negative input.
- The FFT buffers and calls of Brain_MK2_04 (`Brain_MK2_04/audio_processor.cpp:54-60`) are not modelled. Their output feeds nothing in that sketch.
- `random(0, 100)` is a draw input in [0, 100). C++ evaluates `random` only when the interval test passes; the model does not track that, because the generator's internal state is not modelled.
- Floating-point rounding is not modelled: floats are exact reals. In particular, `SingleWave.NextWavePosition` adds 0.2 exactly. On the device, accumulated float rounding can shift the frame at which the center passes 12.
- SingleWave: the `int cycle` counter is unbounded here. The 32-bit overflow after 2^31 wraps is not modelled. The hue overflow at 32768, which comes much earlier, is modelled (see Findings).
- FrameMapping.GetInterpolatedFrame requires a brightness in [0, 255]. For a larger brightness the float-to-`uint8_t` conversion of `brightness * intensity` is undefined behaviour in C++, so no behaviour is modelled there.
- `getAsymmetricIntensity` (`_old/Brain_Wave_Pulse_02/waveform.cpp`) is an `exp`-based float function. It is a parameter, typed to return a value in [0, 1].
- The colour construction is a parameter from base hue and 8-bit value to colour. This covers `CHSV`, `nscale8_video` and `ColorHSV`. The model does not reproduce `baseHue >> 8`, which happens inside that parameter.
- LED output is not modelled: `fadeToBlackBy`, `FastLED.show`, `delay`, `Serial`, and the colour written to `leds[pos]` by the comet.
- The animation frame generators (`getAnimationFrames`, `getAnimationFramesLines`) are not part of this model. They are a parameter.
- `getCurrentAnimationFrames` returns `activeFrames` (modelled as `AnimationSwitch.CurrentAnimationFrames`). It has no contract of its own; `AnimationSwitch.RunConsistent` states what it returns.
- `getWaves()` only returns the list; the model's wave lists are values.
- The `volatile` qualifiers and any concurrent reader are not modelled. The model is single-threaded and sequential.
- Brain_MK2_04 words past `bytesRead` in a short but non-empty read are uninitialised in the source. The model treats them as arbitrary inputs.

## Findings

| source | as written | input that shows it | evidently intended | confidence | as-written member | corrected member |
|---|---|---|---|---|---|---|
| _old/modular_wave_animation/wave_position.cpp:23 | `(cycle * 65536L / 50) % 65536` is computed in a 32-bit `long` and returned as `uint32_t` | cycle = 32768: the product wraps to -2^31, truncating division and remainder give -23592, and the function returns 2^32 - 23592 | a hue in [0, 65535] repeating every 50 cycles (23592 at cycle 32768) | high; not executed | SingleWave.HueOverflowWitness | SingleWave.WaveHue |
