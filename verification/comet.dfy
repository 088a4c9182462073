/** The bouncing comet of Brain_MK2_08: a head at `pos` on a 60-LED strip,
    moving one LED per frame in direction `dir`, reversing at either end,
    with a hue that cycles through 256 values. */
module Comet {
  import opened Common

  const NumLeds: int := 60

  datatype Comet = Comet(pos: int, dir: int, hue: U8)

  const Init: Comet := Comet(0, 1, 0)

  /** Arduino `constrain(x, lo, hi)`. */
  function Constrain(x: int, lo: int, hi: int): (r: int)
    requires lo <= hi
    ensures lo <= r <= hi
    ensures lo <= x <= hi ==> r == x
  {
    if x < lo then lo else if x > hi then hi else x
  }

  /** The position/direction/hue update at the end of `loop()`. */
  function Step(c: Comet): (r: Comet)
    ensures r.hue == (c.hue + 1) % 256
    ensures var p := c.pos + c.dir;
            if p <= 0 || p >= NumLeds - 1 then r.dir == -c.dir && r.pos == Constrain(p, 0, NumLeds - 1)
            else r.dir == c.dir && r.pos == p
  {
    var p := c.pos + c.dir;
    var hue := (c.hue + 1) % 256;
    if p <= 0 || p >= NumLeds - 1 then Comet(Constrain(p, 0, NumLeds - 1), -c.dir, hue)
    else Comet(p, c.dir, hue)
  }

  /** The states the comet can be in: on the strip, moving one LED at a
      time, and pointing inward at either end. */
  ghost predicate Reachable(c: Comet)
  {
    && 0 <= c.pos <= NumLeds - 1
    && (c.dir == 1 || c.dir == -1)
    && (c.pos == 0 ==> c.dir == 1)
    && (c.pos == NumLeds - 1 ==> c.dir == -1)
  }

  /** On reachable states `constrain` never changes the position, so each
      frame moves the head by exactly `dir`; the direction flips exactly
      when the new position is an end of the strip. */
  lemma StepReachable(c: Comet)
    requires Reachable(c)
    ensures Reachable(Step(c))
    ensures Step(c).pos == c.pos + c.dir
    ensures Step(c).dir == -c.dir <==> (Step(c).pos == 0 || Step(c).pos == NumLeds - 1)
  {
  }

  /** The comet after `n` frames. */
  function Frames(n: nat): Comet
    decreases n
  {
    if n == 0 then Init else Step(Frames(n - 1))
  }

  /** From `pos = 0, dir = 1` the head stays in [0, 59] forever, so
      `leds[pos]` is always in bounds, and the hue counts frames mod 256. */
  lemma {:induction false} FramesReachable(n: nat)
    ensures Reachable(Frames(n))
    ensures 0 <= Frames(n).pos < NumLeds
    ensures Frames(n).hue == n % 256
    decreases n
  {
    if n > 0 {
      var prev := Frames(n - 1);
      FramesReachable(n - 1);
      StepReachable(prev);
      assert Frames(n) == Step(prev);
      assert (prev.hue + 1) % 256 == n % 256 by {
        assert prev.hue == (n - 1) % 256;
      }
    }
  }
}
