/** The wave list of _old/Brain_Wave_Pulse_2.0_1: waves travel without
    wrapping, and `updateWaves` erases (`std::remove_if`) every wave that
    has left the visible range by more than one ring. */
module WavesCull {
  import opened Common
  import opened Waves
  import opened Seqs
  import WavesWrap

  /** The wave `addWave` builds: start past ring 10 by the nose when
      reversed, before ring 0 by the tail otherwise. */
  function NewWave(hue: U32, speedControl: Int8, nose: real, tail: real, reverse: bool): (w: Wave)
    ensures MinSpeed <= (if reverse then -w.speed else w.speed) <= MaxSpeed
    ensures w.speed < 0.0 <==> reverse
    ensures w.center == (if reverse then 10.0 + nose else -tail)
    ensures w.totalWidth == nose + tail
    ensures w.hue == hue && w.noseWidth == nose && w.tailWidth == tail && w.reverse == reverse
  {
    var speed := SpeedMagnitude(speedControl);
    Wave(if reverse then 10.0 + nose else -tail, if reverse then -speed else speed,
         hue, nose, tail, nose + tail, reverse)
  }

  /** `addWave`: the new wave pushed onto the list. */
  function AddWave(ws: seq<Wave>, hue: U32, speedControl: Int8, nose: real, tail: real,
                   reverse: bool): seq<Wave>
  {
    PushBack(ws, NewWave(hue, speedControl, nose, tail, reverse))
  }

  /** The `remove_if` predicate: a forward wave past ring 11 plus its nose,
      or a reversed wave before ring -1 minus its tail. */
  predicate OffScreen(w: Wave)
  {
    (!w.reverse && w.center > 11.0 + w.noseWidth) ||
    (w.reverse && w.center < -w.tailWidth - 1.0)
  }

  function Move(w: Wave): Wave
  {
    w.(center := w.center + w.speed)
  }

  /** The first loop of `updateWaves`: every wave advanced by its speed. */
  function MoveAll(ws: seq<Wave>): (r: seq<Wave>)
    ensures |r| == |ws|
    ensures forall i :: 0 <= i < |ws| ==> r[i] == ws[i].(center := ws[i].center + ws[i].speed)
  {
    UpdateEach(ws, Move)
  }

  function CountOffScreen(ws: seq<Wave>): (n: nat)
    ensures n <= |ws|
    decreases |ws|
  {
    if |ws| == 0 then 0 else (if OffScreen(ws[0]) then 1 else 0) + CountOffScreen(ws[1..])
  }

  /** `erase(remove_if(...), end())`: the survivors, in their original
      order, are exactly the waves that are not off screen. */
  function RemoveOffScreen(ws: seq<Wave>): (r: seq<Wave>)
    ensures |r| + CountOffScreen(ws) == |ws|
    ensures Subseq(r, ws)
    ensures forall w :: w in r ==> w in ws && !OffScreen(w)
    ensures forall w :: w in ws && !OffScreen(w) ==> w in r
    decreases |ws|
  {
    if |ws| == 0 then []
    else
      var rest := RemoveOffScreen(ws[1..]);
      assert forall w :: w in ws <==> w == ws[0] || w in ws[1..];
      if OffScreen(ws[0]) then rest
      else
        assert ([ws[0]] + rest)[1..] == rest;
        [ws[0]] + rest
  }

  /** `updateWaves()`: advance every wave, then drop those off screen.
      The list never grows and the survivors keep their relative order. */
  function UpdateWaves(ws: seq<Wave>): (r: seq<Wave>)
    ensures |r| <= |ws|
    ensures |r| + CountOffScreen(MoveAll(ws)) == |ws|
    ensures Subseq(r, MoveAll(ws))
    ensures forall w :: w in r <==> w in MoveAll(ws) && !OffScreen(w)
  {
    RemoveOffScreen(MoveAll(ws))
  }

  /** The first two `addWave` bodies agree: this variant's literal 10 is
      Brain_Modular_waves_05's `maxFrameIndex`. */
  lemma SameNewWaveAsWrap(hue: U32, speedControl: Int8, nose: real, tail: real, reverse: bool)
    ensures NewWave(hue, speedControl, nose, tail, reverse)
         == WavesWrap.NewWave(hue, speedControl, nose, tail, reverse)
  {
  }

  /** The list after `n` calls of `updateWaves`. */
  function UpdateTimes(ws: seq<Wave>, n: nat): seq<Wave>
    decreases n
  {
    if n == 0 then ws else UpdateWaves(UpdateTimes(ws, n - 1))
  }

  lemma UpdateLone(x: Wave)
    ensures UpdateWaves([x]) == (if OffScreen(Move(x)) then [] else [Move(x)])
  {
    assert MoveAll([x]) == [Move(x)];
    assert [Move(x)][1..] == [];
  }

  lemma UpdateEmpty()
    ensures UpdateWaves([]) == []
  {
  }

  /** Where a wave is after `n` unobstructed moves. */
  function At(w: Wave, n: nat): Wave
  {
    w.(center := w.center + n as real * w.speed)
  }

  lemma MoveAt(w: Wave, n: nat)
    requires n > 0
    ensures Move(At(w, n - 1)) == At(w, n)
  {
    assert (n - 1) as real * w.speed + w.speed == n as real * w.speed;
  }

  /** A lone wave either is gone or sits at its straight-line position,
      on screen. */
  lemma {:induction false} LoneWaveFate(w: Wave, n: nat)
    ensures UpdateTimes([w], n) == [] ||
            (UpdateTimes([w], n) == [At(w, n)] && (n > 0 ==> !OffScreen(At(w, n))))
    decreases n
  {
    if n == 0 {
      assert At(w, 0) == w;
    } else {
      LoneWaveFate(w, n - 1);
      var prev := UpdateTimes([w], n - 1);
      if prev == [] {
        UpdateEmpty();
        assert UpdateTimes([w], n) == UpdateWaves(prev);
      } else {
        assert prev == [At(w, n - 1)];
        MoveAt(w, n);
        UpdateLone(At(w, n - 1));
        assert UpdateTimes([w], n) == UpdateWaves(prev);
      }
    }
  }

  /** No wave lingers: once its straight-line position after `n` updates is
      off screen, it has been erased. With a speed of at least 0.1 such an
      `n` always exists. */
  lemma LoneWaveErased(w: Wave, n: nat)
    requires n > 0
    requires OffScreen(At(w, n))
    ensures UpdateTimes([w], n) == []
  {
    LoneWaveFate(w, n);
  }
}
