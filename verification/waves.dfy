/** The `Wave` record shared by the wave-list variants, and the speed rule
    all their `addWave` functions start from. */
module Waves {
  import opened Common

  datatype Wave = Wave(
    center: real,
    speed: real,
    hue: U32,
    noseWidth: real,
    tailWidth: real,
    totalWidth: real,
    reverse: bool)

  const MinSpeed: real := 0.1
  const MaxSpeed: real := 0.6

  /** `0.2 + speedControl / 25.0`, clamped to [0.1, 0.6]. Controls -2..10
      pass unclamped; below that the speed is 0.1, above it 0.6. */
  function SpeedMagnitude(speedControl: Int8): (speed: real)
    ensures MinSpeed <= speed <= MaxSpeed
    ensures -2 <= speedControl <= 10 ==> speed == 0.2 + speedControl as real / 25.0
    ensures speedControl < -2 ==> speed == MinSpeed
    ensures speedControl > 10 ==> speed == MaxSpeed
  {
    var speed := 0.2 + speedControl as real / 25.0;
    if speed < MinSpeed then MinSpeed else if speed > MaxSpeed then MaxSpeed else speed
  }

  /** A larger speed control never gives a slower wave. */
  lemma SpeedMonotone(a: Int8, b: Int8)
    requires a <= b
    ensures SpeedMagnitude(a) <= SpeedMagnitude(b)
  {
    assert a as real / 25.0 <= b as real / 25.0;
  }

  /** The in-place loop `for (auto& wave : waves) ...` of `updateWaves`:
      the list keeps its length and every wave is replaced by its step. */
  function UpdateEach(ws: seq<Wave>, step: Wave -> Wave): (r: seq<Wave>)
    ensures |r| == |ws|
    ensures forall i :: 0 <= i < |ws| ==> r[i] == step(ws[i])
  {
    seq(|ws|, i requires 0 <= i < |ws| => step(ws[i]))
  }

  /** `resetWaves()`: `waves.clear()`. */
  function ResetWaves(): (ws: seq<Wave>)
    ensures |ws| == 0
  {
    []
  }

  /** `waves.push_back(w)`: `w` appended, the existing waves untouched. */
  function PushBack(ws: seq<Wave>, w: Wave): (r: seq<Wave>)
    ensures |r| == |ws| + 1 && r[|ws|] == w
    ensures r[..|ws|] == ws
  {
    ws + [w]
  }
}
