/** The synthetic audio envelope of Brain_MK2_09: no microphone, only a
    randomly timed "kick" that spikes the brightness pulse, with a 120 ms
    debounce and the 1.0 floor. The same kick rule is the fallback of the
    spectral detector (module SpectralBeat). */
module SyntheticKick {
  import opened Common

  const KickIntervalMs: int := 120
  const KickChancePercent: int := 6
  const KickPulse: real := 1.6

  /** A draw of `random(0, 100)`; the `uint8_t` cast leaves it unchanged. */
  type Draw = x: int | 0 <= x < 100

  /** `brightnessPulse` and the function-static `lastKickMs`. */
  datatype KickState = KickState(brightnessPulse: real, lastKickMs: U32)

  const Init: KickState := KickState(1.0, 0)

  /** The kick condition: strictly more than 120 ms since the last kick
      (unsigned arithmetic) and a draw below 6. */
  predicate KickDue(now: U32, lastKickMs: U32, draw: Draw)
  {
    Elapsed(now, lastKickMs) > KickIntervalMs && draw < KickChancePercent
  }

  /** One call of `processAudio()` with `millis() == now` and the random draw `draw`. */
  function ProcessAudio(s: KickState, now: U32, draw: Draw): (r: KickState)
    ensures r.brightnessPulse >= 1.0
    ensures KickDue(now, s.lastKickMs, draw) ==> r == KickState(KickPulse, now)
    ensures !KickDue(now, s.lastKickMs, draw) ==>
              r.lastKickMs == s.lastKickMs
              && (s.brightnessPulse >= 1.0 ==> r.brightnessPulse == s.brightnessPulse)
              && (s.brightnessPulse < 1.0 ==> r.brightnessPulse == 1.0)
    ensures r.lastKickMs != s.lastKickMs ==> KickDue(now, s.lastKickMs, draw) && r.lastKickMs == now
  {
    var kicked := if KickDue(now, s.lastKickMs, draw) then KickState(KickPulse, now) else s;
    kicked.(brightnessPulse := EnforceFloor(kicked.brightnessPulse))
  }

  /** One cycle's inputs: the `millis()` reading and the random draw. */
  datatype Tick = Tick(now: U32, draw: Draw)

  /** The states visited by successive calls, starting from `s`. */
  function Run(s: KickState, ticks: seq<Tick>): (states: seq<KickState>)
    ensures |states| == |ticks| + 1 && states[0] == s
    ensures forall k {:trigger ticks[k]} :: 0 <= k < |ticks| ==>
              states[k + 1] == ProcessAudio(states[k], ticks[k].now, ticks[k].draw)
    decreases |ticks|
  {
    if |ticks| == 0 then [s]
    else [s] + Run(ProcessAudio(s, ticks[0].now, ticks[0].draw), ticks[1..])
  }

  /** The cycle `k` of a run fires a kick. */
  predicate KickAt(states: seq<KickState>, ticks: seq<Tick>, k: int)
    requires |states| == |ticks| + 1
  {
    0 <= k < |ticks| && KickDue(ticks[k].now, states[k].lastKickMs, ticks[k].draw)
  }

  /** Between two kicks, `lastKickMs` keeps the time of the first one. */
  lemma {:induction false} LastKickHeld(s: KickState, ticks: seq<Tick>, i: int, k: int)
    requires 0 <= i < k <= |ticks|
    requires KickAt(Run(s, ticks), ticks, i)
    requires forall m :: i < m < k ==> !KickAt(Run(s, ticks), ticks, m)
    ensures Run(s, ticks)[k].lastKickMs == ticks[i].now
    decreases k - i
  {
    var states := Run(s, ticks);
    assert states[k] == ProcessAudio(states[k - 1], ticks[k - 1].now, ticks[k - 1].draw);
    if k > i + 1 {
      LastKickHeld(s, ticks, i, k - 1);
      assert !KickAt(states, ticks, k - 1);
    }
  }

  /** Consecutive kicks are more than 120 ms apart (in wrapping millis). */
  lemma KicksSpaced(s: KickState, ticks: seq<Tick>, i: int, j: int)
    requires 0 <= i < j < |ticks|
    requires KickAt(Run(s, ticks), ticks, i) && KickAt(Run(s, ticks), ticks, j)
    requires forall m :: i < m < j ==> !KickAt(Run(s, ticks), ticks, m)
    ensures Elapsed(ticks[j].now, ticks[i].now) > KickIntervalMs
  {
    LastKickHeld(s, ticks, i, j);
  }

  /** The pulse is at least 1.0 in every state after the first call. */
  lemma PulseFloored(s: KickState, ticks: seq<Tick>, k: int)
    requires 0 < k <= |ticks|
    ensures Run(s, ticks)[k].brightnessPulse >= 1.0
  {
    var states := Run(s, ticks);
    assert states[k] == ProcessAudio(states[k - 1], ticks[k - 1].now, ticks[k - 1].draw);
  }
}
