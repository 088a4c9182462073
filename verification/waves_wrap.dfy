/** The wave list of _old/Brain_Modular_waves_05: waves travel forward or
    backward across ten rings and restart from their start position once
    they have left the visible range plus their nose/tail margin. */
module WavesWrap {
  import opened Common
  import opened Waves

  const MaxFrameIndex: real := 10.0

  /** Where a wave enters: past the last ring by its nose when reversed,
      before ring 0 by its tail otherwise. */
  function StartCenter(nose: real, tail: real, reverse: bool): real
  {
    if reverse then MaxFrameIndex + nose else -tail
  }

  /** The wave `addWave` builds. */
  function NewWave(hue: U32, speedControl: Int8, nose: real, tail: real, reverse: bool): (w: Wave)
    ensures MinSpeed <= (if reverse then -w.speed else w.speed) <= MaxSpeed
    ensures w.speed < 0.0 <==> reverse
    ensures w.center == (if reverse then MaxFrameIndex + nose else -tail)
    ensures w.totalWidth == nose + tail
    ensures w.hue == hue && w.noseWidth == nose && w.tailWidth == tail && w.reverse == reverse
  {
    var speed := SpeedMagnitude(speedControl);
    Wave(StartCenter(nose, tail, reverse), if reverse then -speed else speed,
         hue, nose, tail, nose + tail, reverse)
  }

  /** `addWave`: the new wave pushed onto the list. */
  function AddWave(ws: seq<Wave>, hue: U32, speedControl: Int8, nose: real, tail: real,
                   reverse: bool): seq<Wave>
  {
    PushBack(ws, NewWave(hue, speedControl, nose, tail, reverse))
  }

  /** The wave has left the range in its direction of travel. */
  predicate Passed(w: Wave)
  {
    (!w.reverse && w.center > MaxFrameIndex + w.noseWidth) ||
    (w.reverse && w.center < -w.tailWidth)
  }

  /** One wave's step in `updateWaves`: advance by the speed, and restart
      once past the range. */
  function Advance(w: Wave): (r: Wave)
    ensures r == w.(center := r.center)
    ensures !Passed(w.(center := w.center + w.speed)) ==> r.center == w.center + w.speed
    ensures Passed(w.(center := w.center + w.speed)) ==>
              r.center == StartCenter(w.noseWidth, w.tailWidth, w.reverse)
  {
    var moved := w.(center := w.center + w.speed);
    if Passed(moved) then moved.(center := StartCenter(w.noseWidth, w.tailWidth, w.reverse))
    else moved
  }

  /** `updateWaves()`: every wave advanced in place, none added or removed. */
  function UpdateWaves(ws: seq<Wave>): seq<Wave>
  {
    UpdateEach(ws, Advance)
  }

  /** The invariant of a wave in the list: it moves in its own direction at
      an allowed speed, its range is non-empty, and its center is inside it. */
  ghost predicate InRange(w: Wave)
  {
    && (if w.reverse then -MaxSpeed <= w.speed <= -MinSpeed else MinSpeed <= w.speed <= MaxSpeed)
    && -w.tailWidth <= MaxFrameIndex + w.noseWidth
    && -w.tailWidth <= w.center <= MaxFrameIndex + w.noseWidth
  }

  /** A new wave satisfies the invariant when its range is non-empty. */
  lemma NewWaveInRange(hue: U32, speedControl: Int8, nose: real, tail: real, reverse: bool)
    requires -tail <= MaxFrameIndex + nose
    ensures InRange(NewWave(hue, speedControl, nose, tail, reverse))
  {
  }

  /** Advancing keeps a wave inside its range. */
  lemma AdvanceInRange(w: Wave)
    requires InRange(w)
    ensures InRange(Advance(w))
  {
  }

  /** Every wave center stays within [-tail, 10 + nose] across updates. */
  lemma UpdateInRange(ws: seq<Wave>)
    requires forall i :: 0 <= i < |ws| ==> InRange(ws[i])
    ensures forall i :: 0 <= i < |ws| ==> InRange(UpdateWaves(ws)[i])
  {
    forall i | 0 <= i < |ws|
      ensures InRange(UpdateWaves(ws)[i])
    {
      AdvanceInRange(ws[i]);
    }
  }

  /** Appending a wave whose range is non-empty keeps the invariant of the list. */
  lemma AddWaveInRange(ws: seq<Wave>, hue: U32, speedControl: Int8, nose: real, tail: real,
                       reverse: bool)
    requires forall i :: 0 <= i < |ws| ==> InRange(ws[i])
    requires -tail <= MaxFrameIndex + nose
    ensures forall i :: 0 <= i < |ws| + 1 ==>
              InRange(AddWave(ws, hue, speedControl, nose, tail, reverse)[i])
  {
    var r := AddWave(ws, hue, speedControl, nose, tail, reverse);
    NewWaveInRange(hue, speedControl, nose, tail, reverse);
    assert forall i :: 0 <= i < |ws| ==> r[i] == r[..|ws|][i];
  }

  /** The calls the animation makes on the wave list. */
  datatype Call =
    | Reset
    | Add(hue: U32, speedControl: Int8, nose: real, tail: real, reverse: bool)
    | Update

  function Apply(ws: seq<Wave>, c: Call): seq<Wave>
  {
    match c
    case Reset => ResetWaves()
    case Add(hue, sc, nose, tail, reverse) => AddWave(ws, hue, sc, nose, tail, reverse)
    case Update => UpdateWaves(ws)
  }

  /** The list after a sequence of calls, applied in order. */
  function ApplyAll(ws: seq<Wave>, calls: seq<Call>): seq<Wave>
    decreases |calls|
  {
    if |calls| == 0 then ws else ApplyAll(Apply(ws, calls[0]), calls[1..])
  }

  ghost predicate NonEmptyRanges(calls: seq<Call>)
  {
    forall k :: 0 <= k < |calls| && calls[k].Add? ==>
      -calls[k].tail <= MaxFrameIndex + calls[k].nose
  }

  /** Whatever sequence of `resetWaves`, `addWave` (with non-empty ranges)
      and `updateWaves` calls the animation makes, every wave center stays
      within [-tail, 10 + nose]. */
  lemma {:induction false} CallsKeepInRange(ws: seq<Wave>, calls: seq<Call>)
    requires forall i :: 0 <= i < |ws| ==> InRange(ws[i])
    requires NonEmptyRanges(calls)
    ensures var r := ApplyAll(ws, calls);
            forall i :: 0 <= i < |r| ==> InRange(r[i])
    decreases |calls|
  {
    if |calls| > 0 {
      var next := Apply(ws, calls[0]);
      match calls[0] {
        case Reset =>
        case Add(hue, sc, nose, tail, reverse) =>
          AddWaveInRange(ws, hue, sc, nose, tail, reverse);
        case Update =>
          UpdateInRange(ws);
      }
      assert NonEmptyRanges(calls[1..]) by {
        forall k | 0 <= k < |calls[1..]| && calls[1..][k].Add?
          ensures -calls[1..][k].tail <= MaxFrameIndex + calls[1..][k].nose
        {
          assert calls[1..][k] == calls[k + 1];
        }
      }
      assert forall i :: 0 <= i < |next| ==> InRange(next[i]);
      CallsKeepInRange(next, calls[1..]);
      assert ApplyAll(ws, calls) == ApplyAll(next, calls[1..]);
    }
  }
}
