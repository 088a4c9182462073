/** The time-domain beat detector of Brain_MK2_04: 64 left-channel 32-bit
    I2S words, each shifted to a 16-bit sample, averaged in absolute value,
    and compared with a fixed threshold under a 200 ms cooldown. */
module EnergyBeat {
  import opened Common

  const SampleSize: int := 64
  const BeatThreshold: int := 3000
  const BeatCooldownMs: int := 200
  /** Bound on `|sample|` for an `int16_t` sample. */
  const MaxAbsSample: int := 0x8000

  /** `brightnessPulse` and `lastBeatTime`. */
  datatype EnergyState = EnergyState(brightnessPulse: real, lastBeatTime: U32)

  const Init: EnergyState := EnergyState(1.0, 0)

  /** `w >> 14` on a signed 32-bit word: an arithmetic shift, i.e. the floor
      of w / 2^14 (Dafny's division by a positive divisor is the floor). */
  function ShiftRight14(w: I32): (r: int)
    ensures r * 0x4000 <= w < (r + 1) * 0x4000
    ensures -0x2_0000 <= r < 0x2_0000
  {
    w / 0x4000
  }

  /** Conversion to `int16_t`: two's-complement truncation to 16 bits. */
  function ToI16(x: int): (r: I16)
    ensures (r - x) % 0x1_0000 == 0
    ensures -0x8000 <= x < 0x8000 ==> r == x
  {
    (x + 0x8000) % 0x1_0000 - 0x8000
  }

  /** A sample: the 32-bit word shifted right arithmetically by 14 bits,
      then narrowed to 16 bits. */
  function Sample(w: I32): (s: I16)
    ensures (s - ShiftRight14(w)) % 0x1_0000 == 0
    ensures -0x2000_0000 <= w < 0x2000_0000 ==> s * 0x4000 <= w < (s + 1) * 0x4000
  {
    ToI16(ShiftRight14(w))
  }

  function AbsInt(x: int): (r: nat)
    ensures r == x || r == -x
  {
    if x < 0 then -x else x
  }

  /** `energy`: the sum of `abs(sample)` over the buffer, accumulated in order. */
  function Energy(buffer: seq<I32>): (e: int)
    ensures 0 <= e <= MaxAbsSample * |buffer|
    decreases |buffer|
  {
    if |buffer| == 0 then 0
    else Energy(buffer[..|buffer| - 1]) + AbsInt(Sample(buffer[|buffer| - 1]))
  }

  /** `long energy` is 32 bits on the target; the 64-word sum never overflows it. */
  lemma EnergyFitsLong(buffer: seq<I32>)
    requires |buffer| == SampleSize
    ensures 0 <= Energy(buffer) <= SampleSize * MaxAbsSample < 0x8000_0000
  {
  }

  /** The mean absolute sample: the energy divided by the window size with
      integer division (truncation equals floor here, the energy being
      non-negative). */
  function Average(energy: int): (avg: int)
    requires 0 <= energy <= SampleSize * MaxAbsSample
    ensures 0 <= avg <= MaxAbsSample
    ensures avg * SampleSize <= energy < (avg + 1) * SampleSize
  {
    energy / SampleSize
  }

  /** The result of `i2s_read`: the status, the byte count and the words of
      the 64-word buffer (words past `bytesRead` are whatever the buffer held). */
  datatype Read = Read(ok: bool, bytesRead: nat, buffer: seq<I32>)

  predicate ReadFailed(rd: Read)
  {
    !rd.ok || rd.bytesRead == 0
  }

  predicate BeatDue(average: int, now: U32, lastBeatTime: U32)
  {
    average > BeatThreshold && Elapsed(now, lastBeatTime) > BeatCooldownMs
  }

  /** The window average of a successful read. */
  function WindowAverage(rd: Read): (avg: int)
    requires |rd.buffer| == SampleSize
    ensures 0 <= avg <= MaxAbsSample
  {
    Average(Energy(rd.buffer))
  }

  /** `processAudio()`; the FFT it also computes feeds nothing and is omitted. */
  function ProcessAudio(s: EnergyState, rd: Read, now: U32): (r: EnergyState)
    requires |rd.buffer| == SampleSize
    ensures ReadFailed(rd) ==> r == s
    ensures !ReadFailed(rd) && BeatDue(WindowAverage(rd), now, s.lastBeatTime) ==>
              r == EnergyState(1.0, now)
    ensures !ReadFailed(rd) && !BeatDue(WindowAverage(rd), now, s.lastBeatTime) ==> r == s
  {
    if ReadFailed(rd) then s
    else if BeatDue(WindowAverage(rd), now, s.lastBeatTime) then EnergyState(1.0, now)
    else s
  }

  /** One cycle's inputs: the read and the `millis()` reading. */
  datatype Cycle = Cycle(rd: Read, now: U32)

  ghost predicate Buffers(cycles: seq<Cycle>)
  {
    forall k :: 0 <= k < |cycles| ==> |cycles[k].rd.buffer| == SampleSize
  }

  function Run(s: EnergyState, cycles: seq<Cycle>): (states: seq<EnergyState>)
    requires Buffers(cycles)
    ensures |states| == |cycles| + 1 && states[0] == s
    ensures forall k {:trigger cycles[k]} :: 0 <= k < |cycles| ==>
              states[k + 1] == ProcessAudio(states[k], cycles[k].rd, cycles[k].now)
    decreases |cycles|
  {
    if |cycles| == 0 then [s]
    else [s] + Run(ProcessAudio(s, cycles[0].rd, cycles[0].now), cycles[1..])
  }

  ghost predicate BeatAt(states: seq<EnergyState>, cycles: seq<Cycle>, k: int)
    requires Buffers(cycles) && |states| == |cycles| + 1
  {
    && 0 <= k < |cycles|
    && !ReadFailed(cycles[k].rd)
    && BeatDue(WindowAverage(cycles[k].rd), cycles[k].now, states[k].lastBeatTime)
  }

  lemma {:induction false} LastBeatHeld(s: EnergyState, cycles: seq<Cycle>, i: int, k: int)
    requires Buffers(cycles)
    requires 0 <= i < k <= |cycles|
    requires BeatAt(Run(s, cycles), cycles, i)
    requires forall m :: i < m < k ==> !BeatAt(Run(s, cycles), cycles, m)
    ensures Run(s, cycles)[k].lastBeatTime == cycles[i].now
    decreases k - i
  {
    var states := Run(s, cycles);
    assert states[k] == ProcessAudio(states[k - 1], cycles[k - 1].rd, cycles[k - 1].now);
    if k > i + 1 {
      LastBeatHeld(s, cycles, i, k - 1);
      assert !BeatAt(states, cycles, k - 1);
    }
  }

  /** Cooldown: consecutive beats are more than 200 ms apart. */
  lemma BeatsSpaced(s: EnergyState, cycles: seq<Cycle>, i: int, j: int)
    requires Buffers(cycles)
    requires 0 <= i < j < |cycles|
    requires BeatAt(Run(s, cycles), cycles, i) && BeatAt(Run(s, cycles), cycles, j)
    requires forall m :: i < m < j ==> !BeatAt(Run(s, cycles), cycles, m)
    ensures Elapsed(cycles[j].now, cycles[i].now) > BeatCooldownMs
  {
    LastBeatHeld(s, cycles, i, j);
  }
}
