/** The timed animation switch of Brain_Wave_MultiAnimation_01: every ten
    seconds (or whenever no frames are loaded) the manager moves to the next
    of its two frame generators and loads that generator's frames. The
    generators themselves are a parameter. */
module AnimationSwitch {
  import opened Common

  const SwitchIntervalMs: int := 10000
  /** `sizeof(animations) / sizeof(animations[0])` */
  const AnimationCount: int := 2

  type Frames = seq<seq<int>>

  /** The frames produced by `animations[index]()`. */
  type Generators = int -> Frames

  /** The statics `lastSwitchTime`, `currentAnimation` and `activeFrames`. */
  datatype Manager = Manager(lastSwitchTime: U32, currentAnimation: int, activeFrames: Frames)

  const Init: Manager := Manager(0, 0, [])

  predicate SwitchDue(m: Manager, now: U32)
  {
    Elapsed(now, m.lastSwitchTime) >= SwitchIntervalMs || |m.activeFrames| == 0
  }

  /** `updateAnimationSwitch()` with `millis() == now`. The index update
      converts to `size_t` before the remainder; for divisor 2 that agrees
      with the mathematical modulus. */
  function UpdateAnimationSwitch(m: Manager, now: U32, generate: Generators): (r: Manager)
    ensures SwitchDue(m, now) ==>
              && r.lastSwitchTime == now
              && r.currentAnimation == (m.currentAnimation + 1) % AnimationCount
              && r.activeFrames == generate(r.currentAnimation)
    ensures !SwitchDue(m, now) ==> r == m
    ensures 0 <= m.currentAnimation < AnimationCount ==> 0 <= r.currentAnimation < AnimationCount
  {
    if SwitchDue(m, now) then
      var next := (m.currentAnimation + 1) % AnimationCount;
      Manager(now, next, generate(next))
    else m
  }

  /** `getCurrentAnimationFrames()` */
  function CurrentAnimationFrames(m: Manager): Frames
  {
    m.activeFrames
  }

  /** The first call always switches, selecting animation 1. */
  lemma FirstCallSelectsSecond(now: U32, generate: Generators)
    ensures UpdateAnimationSwitch(Init, now, generate) == Manager(now, 1, generate(1))
  {
  }

  /** Two switches in a row come back to the same animation. */
  lemma SwitchAlternates(m: Manager, t1: U32, t2: U32, generate: Generators)
    requires 0 <= m.currentAnimation < AnimationCount
    requires SwitchDue(m, t1) && SwitchDue(UpdateAnimationSwitch(m, t1, generate), t2)
    ensures UpdateAnimationSwitch(UpdateAnimationSwitch(m, t1, generate), t2, generate).currentAnimation
         == m.currentAnimation
  {
  }

  /** The manager after a sequence of calls at the given times. */
  function Run(m: Manager, times: seq<U32>, generate: Generators): Manager
    decreases |times|
  {
    if |times| == 0 then m
    else Run(UpdateAnimationSwitch(m, times[0], generate), times[1..], generate)
  }

  /** From a manager whose frames are the current generator's, or are empty
      with a call still to come, the index stays in [0, 2) and the frames returned by
      `getCurrentAnimationFrames` are always the current generator's. */
  lemma {:induction false} RunConsistent(m: Manager, times: seq<U32>, generate: Generators)
    requires 0 <= m.currentAnimation < AnimationCount
    requires m.activeFrames == generate(m.currentAnimation) || (|m.activeFrames| == 0 && |times| > 0)
    ensures var r := Run(m, times, generate);
            0 <= r.currentAnimation < AnimationCount
            && CurrentAnimationFrames(r) == generate(r.currentAnimation)
    decreases |times|
  {
    if |times| > 0 {
      var next := UpdateAnimationSwitch(m, times[0], generate);
      assert next.activeFrames == generate(next.currentAnimation);
      RunConsistent(next, times[1..], generate);
    }
  }

  /** In particular from power-up, after at least one call. */
  lemma InitRunConsistent(times: seq<U32>, generate: Generators)
    requires |times| > 0
    ensures var r := Run(Init, times, generate);
            0 <= r.currentAnimation < AnimationCount
            && CurrentAnimationFrames(r) == generate(r.currentAnimation)
  {
    RunConsistent(Init, times, generate);
  }
}
