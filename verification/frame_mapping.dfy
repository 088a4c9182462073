/** `getInterpolatedFrame` of the three ring-mapping variants
    (_old/Brain_Wave_Pulse_06, _old/Brain_Wave_Pulse_2_02,
    _old/Brain_Modular_waves_07): for each ring, in order, evaluate the
    wave's intensity, skip rings below a threshold, and emit every in-range
    LED of the ring with one colour. The intensity profile
    (`getAsymmetricIntensity`) and the colour construction are parameters. */
module FrameMapping {
  import opened Common
  import opened Seqs

  const NumLeds: int := 120

  /** A value of `exp(-x*x)`: in [0, 1]. */
  type Unit = x: real | 0.0 <= x <= 1.0

  /** `getAsymmetricIntensity(frameIndex, center, widthBehind, widthAhead)`. */
  type Intensity = (real, real, real, real) -> Unit

  /** The colour built from the base hue and the 8-bit value
      (`CHSV(...)` + `nscale8_video`, or `ColorHSV`). */
  type Paint<C> = (U32, U8) -> C

  datatype FrameResult<C> = FrameResult(ledIndex: int, color: C)

  /** The scalar arguments of `getInterpolatedFrame`. */
  datatype Args = Args(
    waveCenter: real,
    baseHue: U32,
    widthBehind: real,
    widthAhead: real,
    brightness: int,
    reverse: bool)

  /** What distinguishes the three copies: the skip threshold, and whether
      a reversed wave also swaps its tail and nose widths. */
  datatype Variant = Variant(skipBelow: real, swapWidths: bool)

  const Pulse06: Variant := Variant(0.001, true)
  const Pulse2v02: Variant := Variant(0.005, true)
  const Waves07: Variant := Variant(0.01, false)

  /** `brightness * intensity` converted to `uint8_t` (truncation). */
  function Value8(brightness: int, x: Unit): (v: U8)
    requires 0 <= brightness <= 255
    ensures v <= brightness
    ensures v as real <= brightness as real * x < v as real + 1.0
  {
    ScaleBounds(brightness as real, x);
    var v := (brightness as real * x).Floor;
    assert v as real <= brightness as real;
    v
  }

  lemma ScaleBounds(b: real, x: real)
    requires 0.0 <= b && 0.0 <= x <= 1.0
    ensures 0.0 <= b * x <= b
  {
    assert b - b * x == b * (1.0 - x);
  }

  /** The intensity of ring `i` of `n`: at the mirrored index `n-1-i` when
      reversed, with tail and nose widths swapped if the variant does so. */
  function RingIntensity(v: Variant, n: int, i: int, a: Args, f: Intensity): Unit
  {
    var index := if a.reverse then n - 1 - i else i;
    var swap := a.reverse && v.swapWidths;
    f(index as real, a.waveCenter,
      if swap then a.widthAhead else a.widthBehind,
      if swap then a.widthBehind else a.widthAhead)
  }

  predicate InStrip(led: int)
  {
    0 <= led < NumLeds
  }

  /** The in-range LEDs of one ring, in stored order, all with `colour`. */
  function Emit<C>(leds: seq<int>, colour: C): (r: seq<FrameResult<C>>)
    ensures |r| <= |leds|
    decreases |leds|
  {
    if |leds| == 0 then []
    else
      var last := leds[|leds| - 1];
      Emit(leds[..|leds| - 1], colour) + (if InStrip(last) then [FrameResult(last, colour)] else [])
  }

  lemma {:induction false} EmitMember<C>(leds: seq<int>, colour: C, x: FrameResult<C>)
    ensures x in Emit(leds, colour) <==> x.color == colour && x.ledIndex in leds && InStrip(x.ledIndex)
    decreases |leds|
  {
    if |leds| > 0 {
      var init := leds[..|leds| - 1];
      EmitMember(init, colour, x);
      assert leds == init + [leds[|leds| - 1]];
    }
  }

  predicate RingKept(v: Variant, frames: seq<seq<int>>, i: int, a: Args, f: Intensity)
  {
    RingIntensity(v, |frames|, i, a, f) >= v.skipBelow
  }

  function RingColour<C>(v: Variant, frames: seq<seq<int>>, i: int, a: Args, f: Intensity,
                         paint: Paint<C>): C
    requires 0 <= a.brightness <= 255
  {
    paint(a.baseHue, Value8(a.brightness, RingIntensity(v, |frames|, i, a, f)))
  }

  /** What ring `i` contributes. */
  function RingOutput<C>(v: Variant, frames: seq<seq<int>>, i: int, a: Args, f: Intensity,
                         paint: Paint<C>): seq<FrameResult<C>>
    requires 0 <= i < |frames| && 0 <= a.brightness <= 255
  {
    if !RingKept(v, frames, i, a, f) then []
    else Emit(frames[i], RingColour(v, frames, i, a, f, paint))
  }

  function RingsUpTo<C>(v: Variant, frames: seq<seq<int>>, a: Args, f: Intensity,
                        paint: Paint<C>, i: nat): seq<seq<FrameResult<C>>>
    requires i <= |frames| && 0 <= a.brightness <= 255
  {
    seq(i, k requires 0 <= k < i => RingOutput(v, frames, k, a, f, paint))
  }

  /** The reference result: the contributions of rings 0..n-1 concatenated in order. */
  function Expected<C>(v: Variant, frames: seq<seq<int>>, a: Args, f: Intensity,
                       paint: Paint<C>): seq<FrameResult<C>>
    requires 0 <= a.brightness <= 255
  {
    Flatten(RingsUpTo(v, frames, a, f, paint, |frames|))
  }

  lemma RingsUpToSnoc<C>(v: Variant, frames: seq<seq<int>>, a: Args, f: Intensity,
                         paint: Paint<C>, i: nat)
    requires i < |frames| && 0 <= a.brightness <= 255
    ensures Flatten(RingsUpTo(v, frames, a, f, paint, i + 1))
         == Flatten(RingsUpTo(v, frames, a, f, paint, i)) + RingOutput(v, frames, i, a, f, paint)
  {
    assert RingsUpTo(v, frames, a, f, paint, i + 1)[..i] == RingsUpTo(v, frames, a, f, paint, i);
  }

  /** `getInterpolatedFrame`, loop for loop. */
  method GetInterpolatedFrame<C>(v: Variant, frames: seq<seq<int>>, a: Args, f: Intensity,
                                 paint: Paint<C>) returns (result: seq<FrameResult<C>>)
    requires 0 <= a.brightness <= 255
    ensures result == Expected(v, frames, a, f, paint)
    ensures forall k :: 0 <= k < |result| ==> InStrip(result[k].ledIndex)
    ensures |result| <= TotalLength(frames)
  {
    result := [];
    var i := 0;
    while i < |frames|
      invariant 0 <= i <= |frames|
      invariant result == Flatten(RingsUpTo(v, frames, a, f, paint, i))
    {
      var before := result;
      var intensity := RingIntensity(v, |frames|, i, a, f);
      if intensity >= v.skipBelow {
        var colour := paint(a.baseHue, Value8(a.brightness, intensity));
        var leds := frames[i];
        var j := 0;
        while j < |leds|
          invariant 0 <= j <= |leds|
          invariant result == before + Emit(leds[..j], colour)
        {
          assert leds[..j + 1][..j] == leds[..j];
          if InStrip(leds[j]) {
            result := result + [FrameResult(leds[j], colour)];
          }
          j := j + 1;
        }
        assert leds[..|leds|] == leds;
      }
      RingsUpToSnoc(v, frames, a, f, paint, i);
      i := i + 1;
    }
    ExpectedInStrip(v, frames, a, f, paint);
    ExpectedLength(v, frames, a, f, paint);
  }

  /** An LED/colour pair is in the result exactly when some kept ring holds
      that in-range LED and the pair carries that ring's colour. */
  lemma ExpectedMember<C>(v: Variant, frames: seq<seq<int>>, a: Args, f: Intensity,
                          paint: Paint<C>, x: FrameResult<C>)
    requires 0 <= a.brightness <= 255
    ensures x in Expected(v, frames, a, f, paint) <==>
              exists i :: 0 <= i < |frames| && RingKept(v, frames, i, a, f)
                          && x.color == RingColour(v, frames, i, a, f, paint)
                          && x.ledIndex in frames[i] && InStrip(x.ledIndex)
  {
    var rings := RingsUpTo(v, frames, a, f, paint, |frames|);
    FlattenMember(rings, x);
    forall i | 0 <= i < |frames|
      ensures x in rings[i] <==> RingKept(v, frames, i, a, f)
                                  && x.color == RingColour(v, frames, i, a, f, paint)
                                  && x.ledIndex in frames[i] && InStrip(x.ledIndex)
    {
      if RingKept(v, frames, i, a, f) {
        EmitMember(frames[i], RingColour(v, frames, i, a, f, paint), x);
      }
    }
  }

  /** Every output LED index lies in [0, 120). */
  lemma ExpectedInStrip<C>(v: Variant, frames: seq<seq<int>>, a: Args, f: Intensity,
                           paint: Paint<C>)
    requires 0 <= a.brightness <= 255
    ensures var r := Expected(v, frames, a, f, paint);
            forall k :: 0 <= k < |r| ==> InStrip(r[k].ledIndex)
  {
    var r := Expected(v, frames, a, f, paint);
    forall k | 0 <= k < |r|
      ensures InStrip(r[k].ledIndex)
    {
      ExpectedMember(v, frames, a, f, paint, r[k]);
    }
  }

  lemma {:induction false} TotalLengthPointwise<T, U>(ss: seq<seq<T>>, us: seq<seq<U>>)
    requires |ss| == |us|
    requires forall i :: 0 <= i < |ss| ==> |ss[i]| <= |us[i]|
    ensures TotalLength(ss) <= TotalLength(us)
    decreases |ss|
  {
    if |ss| > 0 {
      TotalLengthPointwise(ss[..|ss| - 1], us[..|us| - 1]);
    }
  }

  /** The output is never longer than all frames' LEDs together. */
  lemma ExpectedLength<C>(v: Variant, frames: seq<seq<int>>, a: Args, f: Intensity,
                          paint: Paint<C>)
    requires 0 <= a.brightness <= 255
    ensures |Expected(v, frames, a, f, paint)| <= TotalLength(frames)
  {
    var rings := RingsUpTo(v, frames, a, f, paint, |frames|);
    FlattenLength(rings);
    TotalLengthPointwise(rings, frames);
  }

  /** When every ring's intensity is below the threshold nothing is emitted. */
  lemma AllSkippedIsEmpty<C>(v: Variant, frames: seq<seq<int>>, a: Args, f: Intensity,
                             paint: Paint<C>)
    requires 0 <= a.brightness <= 255
    requires forall i :: 0 <= i < |frames| ==> !RingKept(v, frames, i, a, f)
    ensures Expected(v, frames, a, f, paint) == []
  {
    var r := Expected(v, frames, a, f, paint);
    if |r| > 0 {
      ExpectedMember(v, frames, a, f, paint, r[0]);
      assert false;
    }
  }

  /** The profile a reversed wave is evaluated with, seen from the forward
      ring order: mirrored in the ring index, and with the widths swapped
      when the variant swaps them. */
  function Mirrored(v: Variant, n: int, f: Intensity): Intensity
  {
    (x: real, c: real, behind: real, ahead: real) =>
      if v.swapWidths then f((n - 1) as real - x, c, ahead, behind)
      else f((n - 1) as real - x, c, behind, ahead)
  }

  /** A reversed wave lights the same LEDs, in the same ring order, as a
      forward wave with the mirrored profile: reversing changes only which
      ring index (and, for the swapping variants, which width) the
      intensity is evaluated at, never where the LEDs come from. */
  lemma ReverseIsMirroredProfile<C>(v: Variant, frames: seq<seq<int>>, a: Args, f: Intensity,
                                    paint: Paint<C>)
    requires 0 <= a.brightness <= 255
    ensures Expected(v, frames, a.(reverse := true), f, paint)
         == Expected(v, frames, a.(reverse := false), Mirrored(v, |frames|, f), paint)
  {
    var n := |frames|;
    var g := Mirrored(v, n, f);
    forall i | 0 <= i < n
      ensures RingIntensity(v, n, i, a.(reverse := true), f)
           == RingIntensity(v, n, i, a.(reverse := false), g)
    {
      assert (n - 1 - i) as real == (n - 1) as real - i as real;
    }
    assert RingsUpTo(v, frames, a.(reverse := true), f, paint, n)
        == RingsUpTo(v, frames, a.(reverse := false), g, paint, n);
  }

  /** Brain_Wave_Pulse_06 and Brain_Wave_Pulse_2_02: a reversed wave is
      evaluated at ring n-1-i with tail and nose widths swapped. */
  lemma SwappingVariantsSwapWidths(n: int, i: int, a: Args, f: Intensity)
    requires a.reverse
    ensures RingIntensity(Pulse06, n, i, a, f)
         == f((n - 1 - i) as real, a.waveCenter, a.widthAhead, a.widthBehind)
    ensures RingIntensity(Pulse2v02, n, i, a, f)
         == f((n - 1 - i) as real, a.waveCenter, a.widthAhead, a.widthBehind)
  {
  }

  /** Brain_Modular_waves_07: the widths are passed unswapped whatever the
      direction; only the ring index is mirrored. */
  lemma Waves07KeepsWidths(n: int, i: int, a: Args, f: Intensity)
    ensures RingIntensity(Waves07, n, i, a, f)
         == f((if a.reverse then n - 1 - i else i) as real, a.waveCenter, a.widthBehind, a.widthAhead)
  {
  }
}
