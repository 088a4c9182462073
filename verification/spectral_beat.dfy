/** The FFT beat detector of Brain_MK3-02_beat, modelled as a pure step
    function over an explicit detector state. One call of `processAudio()`
    either falls back to the synthetic kick (no I2S device), does nothing
    (short read), or runs the full cycle: bass-bin sum, EMA noise floor,
    three-way beat test with a 120 ms debounce, clamped strength and the
    monotone, floored brightness pulse. The FFT magnitude bins, `millis()`
    and `random()` are inputs of the cycle. */
module SpectralBeat {
  import opened Common
  import SyntheticKick

  const SampleRateHz: int := 32000
  const FftSamples: int := 512
  /** `sizeof(s_i2sRaw)`: 512 interleaved stereo pairs of 32-bit words. */
  const WantBytes: int := FftSamples * 2 * 4

  const BassMinHz: real := 40.0
  const BassMaxHz: real := 180.0

  const EmaAlpha: real := 0.08
  const BeatThreshold: real := 1.8
  const BeatRiseFactor: real := 0.10
  const MinBeatIntervalMs: int := 120
  /** An EMA at or below this is re-seeded from the current bass energy. */
  const ReseedLevel: real := 0.0001
  /** Guards the strength ratio against a zero baseline. */
  const RatioEpsilon: real := 0.001
  const PulseGain: real := 0.9

  const FallbackStrength: real := 0.7

  /** All process-wide state of the detector: the I2S status set up by
      `setupI2S`, the EMA and previous bass energy, the debounce timer,
      the pending beat event, the shared brightness pulse, and the
      fallback generator's `lastKickMs`. */
  datatype DetectorState = DetectorState(
    i2sOk: bool,
    bassEma: real,
    prevBass: real,
    lastBeatMs: U32,
    beatPending: bool,
    beatStrength: real,
    brightnessPulse: real,
    lastKickMs: U32)

  /** The statics' initial values, with `i2sOk` the result of `I2S.begin`. */
  function Init(i2sOk: bool): (s: DetectorState)
    ensures s.i2sOk == i2sOk && !s.beatPending && s.brightnessPulse == 1.0
    ensures s.bassEma == 0.0 && s.prevBass == 0.0 && s.lastBeatMs == 0 && s.lastKickMs == 0
  {
    DetectorState(i2sOk, 0.0, 0.0, 0, false, 0.0, 1.0, 0)
  }

  function Clamp01(x: real): (r: real)
    ensures 0.0 <= r <= 1.0
    ensures 0.0 <= x <= 1.0 ==> r == x
    ensures x < 0.0 ==> r == 0.0
    ensures x > 1.0 ==> r == 1.0
  {
    if x < 0.0 then 0.0 else if x > 1.0 then 1.0 else x
  }

  // ---------------------------------------------------------------------
  // Beat consumer API

  /** The state after `consumeBeat` and the strength it delivered, if any. */
  datatype Consumed = Consumed(state: DetectorState, strength: Option<real>)

  /** `consumeBeat(&strength)`: returns true (here: `Some`) once per pending
      beat, clearing the flag; the strength out-parameter may be null, which only
      means the caller ignores the value. */
  function ConsumeBeat(s: DetectorState): (r: Consumed)
    ensures !s.beatPending ==> r == Consumed(s, None)
    ensures s.beatPending ==> r.strength == Some(s.beatStrength)
    ensures !r.state.beatPending
    ensures r.state == s.(beatPending := false)
  {
    if !s.beatPending then Consumed(s, None)
    else Consumed(s.(beatPending := false), Some(s.beatStrength))
  }

  /** At-most-once delivery: an immediately repeated call delivers nothing
      and leaves the state as the first call left it. */
  lemma ConsumeTwice(s: DetectorState)
    ensures ConsumeBeat(ConsumeBeat(s).state) == Consumed(ConsumeBeat(s).state, None)
  {
  }

  // ---------------------------------------------------------------------
  // Fallback generator

  /** `fakeAudioPulse()`: the Brain_MK2_09 kick rule on the shared pulse and
      `lastKickMs`, which in addition raises a beat event of strength 0.7.
      The audio-path state is left alone. */
  function FakeAudioPulse(s: DetectorState, now: U32, draw: SyntheticKick.Draw): (r: DetectorState)
    ensures SyntheticKick.KickDue(now, s.lastKickMs, draw) ==>
              && r.brightnessPulse == SyntheticKick.KickPulse
              && r.beatPending && r.beatStrength == FallbackStrength
              && r.lastKickMs == now
    ensures !SyntheticKick.KickDue(now, s.lastKickMs, draw) ==>
              r == s.(brightnessPulse := EnforceFloor(s.brightnessPulse))
    ensures r.brightnessPulse >= 1.0
    ensures r.i2sOk == s.i2sOk && r.bassEma == s.bassEma && r.prevBass == s.prevBass
    ensures r.lastBeatMs == s.lastBeatMs
  {
    var kick := SyntheticKick.ProcessAudio(
      SyntheticKick.KickState(s.brightnessPulse, s.lastKickMs), now, draw);
    var kicked := SyntheticKick.KickDue(now, s.lastKickMs, draw);
    s.(brightnessPulse := kick.brightnessPulse,
       lastKickMs := kick.lastKickMs,
       beatPending := kicked || s.beatPending,
       beatStrength := if kicked then FallbackStrength else s.beatStrength)
  }

  // ---------------------------------------------------------------------
  // Bass band

  /** Bin index of a frequency, `(uint16_t)(hz * kFftSamples / kSampleRateHz)`:
      the cast truncates, which for a non-negative value is the floor. */
  function BinOf(hz: real): (b: int)
    requires 0.0 <= hz
    ensures b >= 0
    ensures b as real <= hz * FftSamples as real / SampleRateHz as real < b as real + 1.0
  {
    (hz * FftSamples as real / SampleRateHz as real).Floor
  }

  const MaxBin: int := FftSamples / 2 - 1

  /** The inclusive bin range after clamping: never the DC bin, never past
      the last non-redundant bin. */
  function ClampBins(rawMin: int, rawMax: int): (range: (int, int))
    ensures range.0 >= 1 && range.1 <= MaxBin
    ensures rawMin >= 1 ==> range.0 == rawMin
    ensures rawMax <= MaxBin ==> range.1 == rawMax
    ensures rawMin < 1 ==> range.0 == 1
    ensures rawMax > MaxBin ==> range.1 == MaxBin
  {
    (if rawMin < 1 then 1 else rawMin, if rawMax > MaxBin then MaxBin else rawMax)
  }

  function BassBins(): (range: (int, int))
    ensures 1 <= range.0 && range.1 <= MaxBin
  {
    ClampBins(BinOf(BassMinHz), BinOf(BassMaxHz))
  }

  /** With the shipped constants, 40 Hz truncates to bin 0 (clamped to 1)
      and 180 Hz to bin 2: the bass band is bins 1..2. */
  lemma ShippedBassBins()
    ensures BassBins() == (1, 2)
  {
    assert BinOf(BassMinHz) == 0;
    assert BinOf(BassMaxHz) == 2;
  }

  /** The FFT output as the detector sees it: `kFftSamples` magnitudes,
      each non-negative (a complex modulus). */
  ghost predicate Spectrum(mags: seq<real>)
  {
    |mags| == FftSamples && forall k :: 0 <= k < |mags| ==> mags[k] >= 0.0
  }

  /** Sum of `mags[lo..hi]`, both ends inclusive; 0 for an empty range. */
  function SumBins(mags: seq<real>, lo: int, hi: int): (r: real)
    requires 0 <= lo && hi < |mags|
    ensures (forall k :: lo <= k <= hi ==> mags[k] >= 0.0) ==> r >= 0.0
    decreases hi - lo
  {
    if hi < lo then 0.0 else SumBins(mags, lo, hi - 1) + mags[hi]
  }

  /** Widening the band never lowers the bass energy. */
  lemma {:induction false} SumBinsWiden(mags: seq<real>, lo: int, hi: int, lo': int, hi': int)
    requires 0 <= lo' <= lo && hi <= hi' < |mags|
    requires forall k :: 0 <= k < |mags| ==> mags[k] >= 0.0
    ensures SumBins(mags, lo, hi) <= SumBins(mags, lo', hi')
    decreases (hi' - hi) + (lo - lo')
  {
    if hi < lo {
    } else if hi < hi' {
      SumBinsWiden(mags, lo, hi, lo', hi' - 1);
    } else if lo' < lo {
      SumBinsDropLow(mags, lo', hi);
      SumBinsWiden(mags, lo, hi, lo' + 1, hi');
    }
  }

  /** Removing the lowest bin of a non-empty range subtracts exactly that bin. */
  lemma {:induction false} SumBinsDropLow(mags: seq<real>, lo: int, hi: int)
    requires 0 <= lo <= hi < |mags|
    ensures SumBins(mags, lo, hi) == mags[lo] + SumBins(mags, lo + 1, hi)
    decreases hi - lo
  {
    if lo < hi {
      SumBinsDropLow(mags, lo, hi - 1);
    }
  }

  /** The bass energy of one window: the magnitude sum over the bass bins. */
  function BassEnergy(mags: seq<real>): (bass: real)
    requires Spectrum(mags)
    ensures bass >= 0.0
    ensures bass == mags[1] + mags[2]
  {
    ShippedBassBins();
    SumBins(mags, BassBins().0, BassBins().1)
  }

  // ---------------------------------------------------------------------
  // Noise floor

  /** The EMA update, re-seeding a near-zero baseline from `bass` first.
      The result moves from the (possibly re-seeded) baseline toward `bass`
      by the fraction alpha. */
  function UpdateEma(ema: real, bass: real): (e: real)
    ensures var seed := if ema <= ReseedLevel then bass else ema;
            e - bass == (1.0 - EmaAlpha) * (seed - bass)
    ensures ema <= ReseedLevel ==> e == bass
    ensures ema >= 0.0 && bass >= 0.0 ==> e >= 0.0
    ensures bass >= 0.0 ==> e >= 0.0 || ema > ReseedLevel
  {
    var seeded := if ema <= ReseedLevel then bass else ema;
    (1.0 - EmaAlpha) * seeded + EmaAlpha * bass
  }

  /** `UpdateEma` applied `n` times to a constant bass energy. */
  function EmaAfter(ema: real, bass: real, n: nat): real
    decreases n
  {
    if n == 0 then ema else UpdateEma(EmaAfter(ema, bass, n - 1), bass)
  }

  function Pow(x: real, n: nat): (r: real)
    requires 0.0 <= x
    ensures r >= 0.0
    decreases n
  {
    if n == 0 then 1.0 else x * Pow(x, n - 1)
  }

  function Abs(x: real): real { if x < 0.0 then -x else x }

  /** `a` shrunk `n` times by the factor 1 - alpha. */
  function Shrunk(a: real, n: nat): real
    decreases n
  {
    if n == 0 then a else (1.0 - EmaAlpha) * Shrunk(a, n - 1)
  }

  lemma {:induction false} ShrunkIsPow(a: real, n: nat)
    ensures Shrunk(a, n) == Pow(1.0 - EmaAlpha, n) * a
    decreases n
  {
    if n > 0 {
      ShrunkIsPow(a, n - 1);
      assert (1.0 - EmaAlpha) * (Pow(1.0 - EmaAlpha, n - 1) * a)
          == ((1.0 - EmaAlpha) * Pow(1.0 - EmaAlpha, n - 1)) * a;
    }
  }

  /** Each update closes at least the fraction alpha of the gap to `bass`. */
  lemma {:induction false} EmaShrinks(ema: real, bass: real, n: nat)
    ensures Abs(EmaAfter(ema, bass, n) - bass) <= Shrunk(Abs(ema - bass), n)
    decreases n
  {
    if n > 0 {
      EmaShrinks(ema, bass, n - 1);
    }
  }

  /** Under a constant bass energy the baseline converges geometrically to
      it, whatever its cold-start value: after `n` cycles the distance is at
      most (1 - alpha)^n of the initial one. */
  lemma {:induction false} EmaConverges(ema: real, bass: real, n: nat)
    ensures Abs(EmaAfter(ema, bass, n) - bass) <= Pow(1.0 - EmaAlpha, n) * Abs(ema - bass)
  {
    EmaShrinks(ema, bass, n);
    ShrunkIsPow(Abs(ema - bass), n);
  }

  // ---------------------------------------------------------------------
  // Beat decision

  /** The three-way test, on the already-updated EMA: the debounce
      interval (unsigned), the level test and the rise test. */
  predicate BeatFires(ema: real, bass: real, prevBass: real, now: U32, lastBeatMs: U32)
  {
    && Elapsed(now, lastBeatMs) >= MinBeatIntervalMs
    && bass > ema * BeatThreshold
    && bass - prevBass > ema * BeatRiseFactor
  }

  /** A cycle that re-seeds the baseline cannot fire: the seeded EMA equals
      the bass energy, which then cannot exceed 1.8 times itself. */
  lemma ReseedNeverFires(ema: real, bass: real, prevBass: real, now: U32, lastBeatMs: U32)
    requires ema <= ReseedLevel && bass >= 0.0
    ensures UpdateEma(ema, bass) == bass
    ensures !BeatFires(UpdateEma(ema, bass), bass, prevBass, now, lastBeatMs)
  {
  }

  /** Normalised overshoot of the ratio bass/ema over the threshold,
      clamped to [0, 1]: 0 up to the threshold, 1 from twice the threshold. */
  function Strength(bass: real, ema: real): (r: real)
    requires ema >= 0.0
    ensures 0.0 <= r <= 1.0
    ensures bass <= BeatThreshold * (ema + RatioEpsilon) ==> r == 0.0
    ensures bass >= 2.0 * BeatThreshold * (ema + RatioEpsilon) ==> r == 1.0
  {
    var ratio := bass / (ema + RatioEpsilon);
    Clamp01((ratio - BeatThreshold) / BeatThreshold)
  }

  /** A louder window never gets a weaker strength. */
  lemma StrengthMonotone(b1: real, b2: real, ema: real)
    requires ema >= 0.0 && b1 <= b2
    ensures Strength(b1, ema) <= Strength(b2, ema)
  {
    var d := ema + RatioEpsilon;
    assert b2 / d - b1 / d == (b2 - b1) / d;
    assert (b2 - b1) / d >= 0.0;
  }

  /** Raising the pulse to a candidate value: the pulse only ever moves up,
      to the candidate when that is larger. */
  function RaisePulse(pulse: real, candidate: real): (r: real)
    ensures r >= pulse && r >= candidate
    ensures r == pulse || r == candidate
  {
    if pulse < candidate then candidate else pulse
  }

  /** The full-read path of `processAudio()`, from the bass sum through the
      `s_prevBass` update and the pulse floor. */
  function AnalyseWindow(s: DetectorState, mags: seq<real>, now: U32): (r: DetectorState)
    requires Spectrum(mags)
    ensures var bass := BassEnergy(mags);
            var ema := UpdateEma(s.bassEma, bass);
            && r.bassEma == ema
            && r.prevBass == bass
            && (BeatFires(ema, bass, s.prevBass, now, s.lastBeatMs) ==>
                  && r.beatPending
                  && r.beatStrength == Strength(bass, ema)
                  && r.lastBeatMs == now
                  && r.brightnessPulse == RaisePulse(s.brightnessPulse, 1.0 + PulseGain * r.beatStrength))
            && (!BeatFires(ema, bass, s.prevBass, now, s.lastBeatMs) ==>
                  && r.beatPending == s.beatPending
                  && r.beatStrength == s.beatStrength
                  && r.lastBeatMs == s.lastBeatMs
                  && r.brightnessPulse == EnforceFloor(s.brightnessPulse))
    ensures r.brightnessPulse >= s.brightnessPulse && r.brightnessPulse >= 1.0
    ensures r.i2sOk == s.i2sOk && r.lastKickMs == s.lastKickMs
  {
    var bass := BassEnergy(mags);
    var ema := UpdateEma(s.bassEma, bass);
    var fires := BeatFires(ema, bass, s.prevBass, now, s.lastBeatMs);
    var strength := Strength(bass, ema);
    var pulse := if fires then RaisePulse(s.brightnessPulse, 1.0 + PulseGain * strength)
                 else s.brightnessPulse;
    s.(bassEma := ema,
       prevBass := bass,
       beatPending := fires || s.beatPending,
       beatStrength := if fires then strength else s.beatStrength,
       lastBeatMs := if fires then now else s.lastBeatMs,
       brightnessPulse := EnforceFloor(pulse))
  }

  // ---------------------------------------------------------------------
  // One cycle

  /** The inputs of one call: the byte count `I2S.readBytes` returned, the
      FFT magnitudes of the window, the `millis()` reading and the random draw. */
  datatype Cycle = Cycle(gotBytes: nat, mags: seq<real>, now: U32, draw: SyntheticKick.Draw)

  /** A short read needs no spectrum; a full one delivers a valid one. */
  ghost predicate Readable(c: Cycle)
  {
    c.gotBytes < WantBytes || Spectrum(c.mags)
  }

  predicate FullRead(s: DetectorState, c: Cycle)
  {
    s.i2sOk && c.gotBytes >= WantBytes
  }

  /** `processAudio()` with `AUDIO_ENABLE_I2S` set. */
  function ProcessAudio(s: DetectorState, c: Cycle): (r: DetectorState)
    requires s.i2sOk ==> Readable(c)
    ensures !s.i2sOk ==> r == FakeAudioPulse(s, c.now, c.draw)
    ensures s.i2sOk && c.gotBytes < WantBytes ==> r == s
    ensures FullRead(s, c) ==> r == AnalyseWindow(s, c.mags, c.now)
    ensures r.i2sOk == s.i2sOk
  {
    if !s.i2sOk then FakeAudioPulse(s, c.now, c.draw)
    else if c.gotBytes < WantBytes then s
    else AnalyseWindow(s, c.mags, c.now)
  }

  /** The cycle fires a real (FFT-path) beat. */
  ghost predicate RealBeat(s: DetectorState, c: Cycle)
  {
    && FullRead(s, c)
    && Spectrum(c.mags)
    && var bass := BassEnergy(c.mags);
       BeatFires(UpdateEma(s.bassEma, bass), bass, s.prevBass, c.now, s.lastBeatMs)
  }

  /** A real beat fires exactly when the call moves `s_lastBeatMs`, and it
      moves it to the present time, at least 120 ms after its old value. */
  lemma BeatIffTimerMoves(s: DetectorState, c: Cycle)
    requires s.i2sOk ==> Readable(c)
    ensures RealBeat(s, c) <==> ProcessAudio(s, c).lastBeatMs != s.lastBeatMs
    ensures RealBeat(s, c) ==>
              ProcessAudio(s, c).lastBeatMs == c.now
              && Elapsed(c.now, s.lastBeatMs) >= MinBeatIntervalMs
  {
  }

  /** The states visited by successive cycles, starting from `s`. */
  function Run(s: DetectorState, cycles: seq<Cycle>): (states: seq<DetectorState>)
    requires s.i2sOk ==> forall k :: 0 <= k < |cycles| ==> Readable(cycles[k])
    ensures |states| == |cycles| + 1 && states[0] == s
    ensures forall k :: 0 <= k < |states| ==> states[k].i2sOk == s.i2sOk
    ensures forall k {:trigger cycles[k]} :: 0 <= k < |cycles| ==>
              states[k + 1] == ProcessAudio(states[k], cycles[k])
    decreases |cycles|
  {
    if |cycles| == 0 then [s]
    else [s] + Run(ProcessAudio(s, cycles[0]), cycles[1..])
  }

  /** The time of the most recent real beat before cycle `k` of a run, or
      the timer's initial value if there has been none. */
  ghost function PrevBeatTime(states: seq<DetectorState>, cycles: seq<Cycle>, k: nat): U32
    requires |states| == |cycles| + 1 && k <= |cycles|
    decreases k
  {
    if k == 0 then states[0].lastBeatMs
    else if RealBeat(states[k - 1], cycles[k - 1]) then cycles[k - 1].now
    else PrevBeatTime(states, cycles, k - 1)
  }

  /** `s_lastBeatMs` always holds the time of the most recent real beat:
      short reads, quiet windows and the fallback never touch it. */
  lemma {:induction false} TimerIsPrevBeat(s: DetectorState, cycles: seq<Cycle>, k: nat)
    requires s.i2sOk ==> forall m :: 0 <= m < |cycles| ==> Readable(cycles[m])
    requires k <= |cycles|
    ensures Run(s, cycles)[k].lastBeatMs == PrevBeatTime(Run(s, cycles), cycles, k)
    decreases k
  {
    if k > 0 {
      TimerIsPrevBeat(s, cycles, k - 1);
      var states := Run(s, cycles);
      assert states[k] == ProcessAudio(states[k - 1], cycles[k - 1]);
      BeatIffTimerMoves(states[k - 1], cycles[k - 1]);
    }
  }

  /** Debounce: every real beat comes at least 120 ms (in wrapping millis)
      after the previous one, or after the timer's initial value. */
  lemma BeatsSpaced(s: DetectorState, cycles: seq<Cycle>, j: nat)
    requires s.i2sOk ==> forall m :: 0 <= m < |cycles| ==> Readable(cycles[m])
    requires j < |cycles|
    requires RealBeat(Run(s, cycles)[j], cycles[j])
    ensures Elapsed(cycles[j].now, PrevBeatTime(Run(s, cycles), cycles, j)) >= MinBeatIntervalMs
  {
    TimerIsPrevBeat(s, cycles, j);
    BeatIffTimerMoves(Run(s, cycles)[j], cycles[j]);
  }

  /** The pulse and lastKickMs seen by the fallback generator. */
  function KickView(s: DetectorState): SyntheticKick.KickState
  {
    SyntheticKick.KickState(s.brightnessPulse, s.lastKickMs)
  }

  /** Without an I2S device every cycle is a Brain_MK2_09 kick step on the
      shared pulse and `lastKickMs`, so the fallback inherits its
      properties (kicks more than 120 ms apart, pulse at least 1.0). */
  lemma {:induction false} FallbackIsSyntheticKick(s: DetectorState, cycles: seq<Cycle>)
    requires !s.i2sOk
    ensures var states := Run(s, cycles);
            var ticks := seq(|cycles|, k requires 0 <= k < |cycles| =>
                             SyntheticKick.Tick(cycles[k].now, cycles[k].draw));
            forall k :: 0 <= k < |states| ==>
              KickView(states[k]) == SyntheticKick.Run(KickView(s), ticks)[k]
    decreases |cycles|
  {
    if |cycles| > 0 {
      var s1 := ProcessAudio(s, cycles[0]);
      FallbackIsSyntheticKick(s1, cycles[1..]);
      var ticks := seq(|cycles|, k requires 0 <= k < |cycles| =>
                       SyntheticKick.Tick(cycles[k].now, cycles[k].draw));
      var ticks1 := seq(|cycles| - 1, k requires 0 <= k < |cycles| - 1 =>
                        SyntheticKick.Tick(cycles[1..][k].now, cycles[1..][k].draw));
      assert ticks[1..] == ticks1;
      assert KickView(s1) == SyntheticKick.ProcessAudio(KickView(s), ticks[0].now, ticks[0].draw);
      var states := Run(s, cycles);
      assert states == [s] + Run(s1, cycles[1..]);
      assert SyntheticKick.Run(KickView(s), ticks)
          == [KickView(s)] + SyntheticKick.Run(KickView(s1), ticks1);
    }
  }
}
