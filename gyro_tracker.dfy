/**
 * The vanish bookkeeping of the whole-robot tracker (`GyroTracker`): a
 * counter of consecutive frames without an armor, and the getters that read
 * the tracker's filtered outputs.
 */
module GyroTracking {
  import opened Common

  /** `GyroTracker::VanishState`: the target was lost, or it appeared. */
  datatype VanishState = Vanish | Appear

  /** The enumerator values of the `uint8_t` enum: `VANISH = 0`, `APPEAR = 1`. */
  function StateCode(state: VanishState): (code: nat)
    ensures code < 2
    ensures code == 0 <==> state == Vanish
  {
    match state
    case Vanish => 0
    case Appear => 1
  }

  /** The enumerator a code names, if any. */
  function StateOfCode(code: nat): (r: Option<VanishState>)
    ensures r.Some? <==> code < 2
  {
    if code == 0 then Some(Vanish) else if code == 1 then Some(Appear) else None
  }

  /** The two enumerators are exactly the codes 0 and 1, and they round-trip. */
  lemma StateCodeRoundTrip(state: VanishState, code: nat)
    ensures StateOfCode(StateCode(state)) == Some(state)
    ensures code < 2 ==> StateCode(StateOfCode(code).value) == code
  {
  }

  /** The counter after one update. */
  function VanishStep(count: nat, state: VanishState): nat
  {
    if state == Vanish then count + 1 else 0
  }

  /** The counter after a sequence of updates, first to last. */
  function VanishAfter(count: nat, states: seq<VanishState>): nat
    decreases |states|
  {
    if |states| == 0 then count else VanishAfter(VanishStep(count, states[0]), states[1..])
  }

  /** `k` copies of the same state. */
  function Repeat(state: VanishState, k: nat): (r: seq<VanishState>)
    ensures |r| == k
    ensures forall i :: 0 <= i < k ==> r[i] == state
  {
    if k == 0 then [] else [state] + Repeat(state, k - 1)
  }

  /** Updates run one after the other. */
  lemma {:induction false} VanishAfterConcat(count: nat, xs: seq<VanishState>, ys: seq<VanishState>)
    ensures VanishAfter(count, xs + ys) == VanishAfter(VanishAfter(count, xs), ys)
    decreases |xs|
  {
    if |xs| > 0 {
      assert (xs + ys)[1..] == xs[1..] + ys;
      VanishAfterConcat(VanishStep(count, xs[0]), xs[1..], ys);
    } else {
      assert xs + ys == ys;
    }
  }

  /** Without an `Appear`, each update adds exactly one to the counter. */
  lemma {:induction false} VanishOnlyCounts(count: nat, states: seq<VanishState>)
    requires Appear !in states
    ensures VanishAfter(count, states) == count + |states|
    decreases |states|
  {
    if |states| > 0 {
      assert states[0] == Vanish;
      assert Appear !in states[1..];
      VanishOnlyCounts(count + 1, states[1..]);
    }
  }

  /** `Appear` followed by `k` times `Vanish` leaves the counter at `k`, whatever it was. */
  lemma AppearThenVanishes(count: nat, k: nat)
    ensures VanishAfter(count, [Appear] + Repeat(Vanish, k)) == k
  {
    VanishAfterConcat(count, [Appear], Repeat(Vanish, k));
    VanishOnlyCounts(0, Repeat(Vanish, k));
  }

  /**
   * One `Appear` anywhere resets the counter: what came before it no longer
   * matters, and afterwards the counter counts the misses since then.
   */
  lemma AppearResets(count: nat, before: seq<VanishState>, after: seq<VanishState>)
    ensures VanishAfter(count, before + [Appear] + after) == VanishAfter(0, after)
  {
    VanishAfterConcat(count, before + [Appear], after);
    VanishAfterConcat(count, before, [Appear]);
  }

  /** `Appear` is idempotent: a second one in a row changes nothing. */
  lemma AppearIdempotent(count: nat)
    ensures VanishAfter(count, [Appear, Appear]) == VanishAfter(count, [Appear]) == 0
  {
  }

  /** A 2-D vector (OpenCV's `Vec2f`), float components idealised as reals. */
  datatype Vec2 = Vec2(x: real, y: real)

  /**
   * The state of a `GyroTracker` this model keeps: the frame time delta, the
   * corrected armor pose, the filtered rotation speed and the vanish counter
   * (`_vanish_num`, declared in the tracker base class).
   */
  class GyroTracker {
    var sampleTime: real
    var pose: Vec2
    var rotSpeed: real
    var vanishNum: nat

    /** The frame time delta, as stored. */
    function GetSampleTime(): (r: real)
      reads this
      ensures r == sampleTime
    {
      sampleTime
    }

    /** The corrected armor pose normal, as stored. */
    function GetPose(): (r: Vec2)
      reads this
      ensures r == pose
    {
      pose
    }

    /** The filtered rotation speed about the y axis, as stored. */
    function GetRotatedSpeed(): (r: real)
      reads this
      ensures r == rotSpeed
    {
      rotSpeed
    }

    /** `VANISH` adds one to the counter and `APPEAR` resets it; nothing else changes. */
    method UpdateVanishState(state: VanishState)
      modifies this`vanishNum
      ensures vanishNum == VanishStep(old(vanishNum), state)
      ensures state == Vanish ==> vanishNum == old(vanishNum) + 1
      ensures state == Appear ==> vanishNum == 0
      ensures GetSampleTime() == old(GetSampleTime())
      ensures GetPose() == old(GetPose())
      ensures GetRotatedSpeed() == old(GetRotatedSpeed())
    {
      if state == Vanish {
        vanishNum := vanishNum + 1;
      } else {
        vanishNum := 0;
      }
    }
  }
}
