/** The wave list of _old/ELSA/Brain_Modular_waves_02_cool_backwardbehavior:
    every wave travels forward, whatever its `reverse` flag, and restarts
    before ring 0 once past ring 12 plus its nose. */
module WavesForward {
  import opened Common
  import opened Waves

  const WrapBeyond: real := 12.0

  /** The wave `addWave` builds: always before ring 0 by the tail, always
      moving forward; `reverse` is only recorded. */
  function NewWave(hue: U32, speedControl: Int8, nose: real, tail: real, reverse: bool): (w: Wave)
    ensures MinSpeed <= w.speed <= MaxSpeed
    ensures w.center == -tail
    ensures w.totalWidth == nose + tail
    ensures w.hue == hue && w.noseWidth == nose && w.tailWidth == tail && w.reverse == reverse
  {
    Wave(-tail, SpeedMagnitude(speedControl), hue, nose, tail, nose + tail, reverse)
  }

  /** `addWave`: the new wave pushed onto the list. */
  function AddWave(ws: seq<Wave>, hue: U32, speedControl: Int8, nose: real, tail: real,
                   reverse: bool): seq<Wave>
  {
    PushBack(ws, NewWave(hue, speedControl, nose, tail, reverse))
  }

  /** One wave's step in `updateWaves`: add the speed; past ring 12 plus
      the nose, restart at minus the tail. */
  function Advance(w: Wave): (r: Wave)
    ensures r == w.(center := r.center)
    ensures w.center + w.speed > WrapBeyond + w.noseWidth ==> r.center == -w.tailWidth
    ensures w.center + w.speed <= WrapBeyond + w.noseWidth ==> r.center == w.center + w.speed
  {
    var c := w.center + w.speed;
    w.(center := if c > WrapBeyond + w.noseWidth then -w.tailWidth else c)
  }

  /** `updateWaves()`: every wave advanced in place. */
  function UpdateWaves(ws: seq<Wave>): seq<Wave>
  {
    UpdateEach(ws, Advance)
  }

  /** A freshly reset list holding one added wave is exactly that wave. */
  lemma ResetThenAdd(hue: U32, speedControl: Int8, nose: real, tail: real, reverse: bool)
    ensures AddWave(ResetWaves(), hue, speedControl, nose, tail, reverse)
         == [NewWave(hue, speedControl, nose, tail, reverse)]
  {
  }

  /** The `reverse` flag has no effect on motion: flipping it before or
      after a step gives the same wave. */
  lemma ReverseIgnored(w: Wave, flag: bool)
    ensures Advance(w.(reverse := flag)) == Advance(w).(reverse := flag)
  {
  }

  /** `addWave` with and without `reverse` builds the same wave apart from
      the recorded flag. */
  lemma ReverseOnlyRecorded(hue: U32, speedControl: Int8, nose: real, tail: real)
    ensures NewWave(hue, speedControl, nose, tail, true)
         == NewWave(hue, speedControl, nose, tail, false).(reverse := true)
  {
  }

  /** A wave of this variant: forward speed, non-empty range, center in it. */
  ghost predicate InRange(w: Wave)
  {
    && w.speed > 0.0
    && -w.tailWidth <= WrapBeyond + w.noseWidth
    && -w.tailWidth <= w.center <= WrapBeyond + w.noseWidth
  }

  /** The center stays within [-tail, 12 + nose] across updates. */
  lemma UpdateInRange(ws: seq<Wave>)
    requires forall i :: 0 <= i < |ws| ==> InRange(ws[i])
    ensures forall i :: 0 <= i < |ws| ==> InRange(UpdateWaves(ws)[i])
  {
  }

  lemma NewWaveInRange(hue: U32, speedControl: Int8, nose: real, tail: real, reverse: bool)
    requires -tail <= WrapBeyond + nose
    ensures InRange(NewWave(hue, speedControl, nose, tail, reverse))
  {
  }
}
