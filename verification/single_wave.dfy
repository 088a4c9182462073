/** The single wave cursor of _old/modular_wave_animation: a center moving
    0.2 per frame from -1 to 12, a count of completed cycles, and a hue
    derived from that count (one full hue turn every 50 cycles). */
module SingleWave {
  import opened Common

  const Step: real := 0.2
  const MaxPos: real := 12.0
  const RestartPos: real := -1.0
  const HuePeriod: int := 50
  const HueRange: int := 65536

  /** The statics `waveCenter` and `cycle`. */
  datatype Cursor = Cursor(center: real, cycle: int)

  const Init: Cursor := Cursor(RestartPos, 0)

  /** `getNextWavePosition()`: the new cursor and the position returned. */
  function NextWavePosition(c: Cursor): (r: (Cursor, real))
    ensures r.1 == r.0.center
    ensures r.1 <= MaxPos
    ensures c.center + Step > MaxPos ==> r.0 == Cursor(RestartPos, c.cycle + 1)
    ensures c.center + Step <= MaxPos ==> r.0 == Cursor(c.center + Step, c.cycle)
  {
    var moved := c.center + Step;
    if moved > MaxPos then (Cursor(RestartPos, c.cycle + 1), RestartPos)
    else (Cursor(moved, c.cycle), moved)
  }

  /** `resetWave()`: back to the start; the cycle count is kept. */
  function ResetWave(c: Cursor): (r: Cursor)
    ensures r.center == RestartPos && r.cycle == c.cycle
  {
    c.(center := RestartPos)
  }

  ghost predicate Reachable(c: Cursor)
  {
    RestartPos <= c.center <= MaxPos && c.cycle >= 0
  }

  /** On reachable cursors the cycle count rises exactly when the returned
      position is the restart position, and by exactly one. */
  lemma CycleCountsWraps(c: Cursor)
    requires Reachable(c)
    ensures Reachable(NextWavePosition(c).0)
    ensures var (c', pos) := NextWavePosition(c);
            (c'.cycle == c.cycle + 1 <==> pos == RestartPos)
            && (c'.cycle == c.cycle || c'.cycle == c.cycle + 1)
  {
  }

  /** `getNextWavePosition` called `n` times. */
  function Advance(c: Cursor, n: nat): Cursor
    decreases n
  {
    if n == 0 then c else NextWavePosition(Advance(c, n - 1)).0
  }

  /** From the initial cursor, with any number of frames, the cursor stays
      reachable and never loses a cycle. */
  lemma {:induction false} AdvanceReachable(n: nat)
    ensures Reachable(Advance(Init, n))
    ensures Advance(Init, n).cycle <= n
    decreases n
  {
    if n > 0 {
      AdvanceReachable(n - 1);
      CycleCountsWraps(Advance(Init, n - 1));
    }
  }

  // ---------------------------------------------------------------------
  // Hue

  /** `getWaveHue()` as written: `(cycle * 65536L / 50) % 65536` in a
      32-bit `long`, converted to `uint32_t`. The product wraps from cycle
      32768 on; division and remainder truncate toward zero. */
  function WaveHueAsWritten(cycle: I32): (hue: U32)
    ensures 0 <= cycle < 0x8000 ==> hue == (cycle * HueRange / HuePeriod) % HueRange
    ensures 0 <= cycle < 0x8000 ==> hue < HueRange
  {
    var product := WrapI32(cycle * HueRange);
    ToU32(CRem(CDiv(product, HuePeriod), HueRange))
  }

  /** The input that shows the overflow: 32768 cycles after power-up the
      returned hue is 2^32 - 23592, far outside [0, 65535], where 23592
      was evidently meant. */
  lemma HueOverflowWitness()
    ensures WaveHueAsWritten(0x8000) == 0x1_0000_0000 - 23592
    ensures WaveHue(0x8000) == 23592
  {
    assert WrapI32(0x8000 * HueRange) == -0x8000_0000;
    assert CDiv(-0x8000_0000, HuePeriod) == -42949672;
    assert CRem(-42949672, HueRange) == -23592;
  }

  /** The hue as intended: the position of the cycle within its period of
      50, scaled to [0, 65535]. Equal to the as-written hue wherever that
      does not overflow. */
  function WaveHue(cycle: nat): (hue: int)
    ensures 0 <= hue < HueRange
    ensures cycle < 0x8000 ==> hue == WaveHueAsWritten(cycle)
  {
    HueMatchesBelowOverflow(cycle);
    (cycle % HuePeriod) * HueRange / HuePeriod
  }

  /** Below 32768 cycles the product fits and reducing the cycle modulo 50
      first changes nothing. */
  lemma HueMatchesBelowOverflow(cycle: nat)
    ensures cycle < 0x8000 ==>
              (cycle % HuePeriod) * HueRange / HuePeriod == WaveHueAsWritten(cycle)
  {
    if cycle < 0x8000 {
      var q := cycle / HuePeriod;
      var m := cycle % HuePeriod;
      assert cycle * HueRange == q * HuePeriod * HueRange + m * HueRange;
      assert (cycle * HueRange) / HuePeriod == q * HueRange + (m * HueRange) / HuePeriod;
      assert (m * HueRange) / HuePeriod < HueRange;
    }
  }

  /** The hue repeats every 50 cycles. */
  lemma HuePeriodic(cycle: nat)
    ensures WaveHue(cycle + HuePeriod) == WaveHue(cycle)
  {
    assert (cycle + HuePeriod) % HuePeriod == cycle % HuePeriod;
  }
}
