/** The retarget function shared by both emission policies: proportional
    control of the per-hash reward rate, smoothed so that the rate can at most
    double or halve from one epoch to the next, then clamped to [1, bus cap]. */
module Retarget {
  import opened Arith

  /** The rate may change by at most this factor per epoch. */
  const SMOOTHING_FACTOR: u64 := 2

  lemma ProductFitsU128(a: u64, b: u64)
    ensures a * b <= U64_MAX * U64_MAX < U128_MAX
  {
    MulLe(a, U64_MAX, b);
    MulLe(b, U64_MAX, U64_MAX);
  }

  /** `(current as u128).saturating_mul(target as u128).saturating_div(epoch as u128) as u64`:
      the exact quotient whenever it fits in a u64; otherwise its low 64 bits
      (the cast truncates, it does not saturate). */
  function RawRate(current: u64, epoch: u64, target: u64): (r: u64)
    requires epoch != 0
    ensures current * target / epoch <= U64_MAX ==> r == current * target / epoch
  {
    ProductFitsU128(current, target);
    TruncateToU64(SatMul128(current, target) / epoch)
  }

  /** The raw rate clamped into the smoothing band around the current rate. */
  function Smoothed(current: u64, raw: u64): (s: u64)
    ensures current / SMOOTHING_FACTOR <= s <= SatMul(current, SMOOTHING_FACTOR)
    ensures current / SMOOTHING_FACTOR <= raw <= SatMul(current, SMOOTHING_FACTOR) ==> s == raw
  {
    var newRateMin := current / SMOOTHING_FACTOR;
    var newRateMax := SatMul(current, SMOOTHING_FACTOR);
    Max(Min(raw, newRateMax), newRateMin)
  }

  /** `calculate_new_reward_rate`. With no signal (`epoch == 0`) the rate is
      held; otherwise the result lies in the smoothing band around `current`,
      clamped to [1, bus]. */
  function CalculateNewRewardRate(current: u64, epoch: u64, target: u64, bus: u64): (r: u64)
    ensures epoch == 0 ==> r == current
    ensures epoch != 0 ==> r <= bus
    ensures epoch != 0 && bus >= 1 ==> r >= 1
    ensures epoch != 0 ==>
      Min(Max(current / SMOOTHING_FACTOR, 1), bus) <= r <= Min(Max(SatMul(current, SMOOTHING_FACTOR), 1), bus)
  {
    if epoch == 0 then current
    else Min(Max(Smoothed(current, RawRate(current, epoch, target)), 1), bus)
  }

  /** Actual output equal to the target leaves an in-range rate unchanged. */
  lemma OnTargetKeepsRate(current: u64, target: u64, bus: u64)
    requires target != 0
    requires 1 <= current <= bus
    ensures CalculateNewRewardRate(current, target, target, bus) == current
  {
    MulDivCancel(current, target);
    assert RawRate(current, target, target) == current;
  }

  /** Output far below target (a single unit) doubles the rate, the largest
      step the smoothing band allows. */
  lemma MaxUpwardSmoothing(current: u64, target: u64, bus: u64)
    requires 1 <= current && 2 * current <= bus
    requires 2 <= target && current * target <= U64_MAX
    ensures CalculateNewRewardRate(current, 1, target, bus) == 2 * current
  {
    MulLe(2, target, current);
    assert current * target / 1 == current * target;
    assert RawRate(current, 1, target) == current * target;
  }

  /** Output far above target (u64::MAX) halves the rate, the smallest step
      the smoothing band allows. */
  lemma MaxDownwardSmoothing(current: u64, target: u64, bus: u64)
    requires 2 <= current && current / 2 <= bus
    requires current * target <= U64_MAX
    ensures CalculateNewRewardRate(current, U64_MAX, target, bus) == current / 2
  {
    DivLe(current * target, U64_MAX, U64_MAX);
    MulDivCancel(1, U64_MAX);
    assert RawRate(current, U64_MAX, target) <= 1;
  }

  /** More output than target lowers any rate of at least 2 that is within the cap. */
  lemma OverTargetLowersRate(current: u64, epoch: u64, target: u64, bus: u64)
    requires target < epoch
    requires 2 <= current <= bus
    ensures CalculateNewRewardRate(current, epoch, target, bus) < current
  {
    MulLe(target + 1, epoch, current);
    assert current * target + current <= epoch * current;
    DivLe(current * target, current * epoch - 1, epoch);
    DivUnique(current * epoch - 1, epoch, current - 1);
    assert RawRate(current, epoch, target) < current;
  }

  /** Less output than target raises a rate below the cap, provided the
      proportional quotient reaches `current + 1` and fits in a u64. */
  lemma UnderTargetRaisesRate(current: u64, epoch: u64, target: u64, bus: u64)
    requires 1 <= epoch
    requires 1 <= current < bus
    requires current * target >= (current + 1) * epoch
    requires current * target / epoch <= U64_MAX
    ensures CalculateNewRewardRate(current, epoch, target, bus) > current
  {
    MulDivCancel(current + 1, epoch);
    DivLe((current + 1) * epoch, current * target, epoch);
    assert RawRate(current, epoch, target) >= current + 1;
  }

  /** A rate of 1 stays 1 when the epoch produced more than half the target
      (`target < 2 * epoch`): the quotient `target/epoch` is then at most 1,
      and the floor of the band lifts it back to 1. */
  lemma UnitRateHolds(epoch: u64, target: u64, bus: u64)
    requires 1 <= epoch && target < 2 * epoch
    requires bus >= 1
    ensures CalculateNewRewardRate(1, epoch, target, bus) == 1
  {
    DivLe(target, 2 * epoch - 1, epoch);
    DivUnique(2 * epoch - 1, epoch, 1);
    assert RawRate(1, epoch, target) <= 1;
  }

  /** The clamp is to `bus`, not to `target`: a rate of 10 with output 1
      against a target of 5 and a cap of 100 doubles to 20, above the target. */
  lemma ResultCanExceedTarget()
    ensures CalculateNewRewardRate(10, 1, 5, 100) == 20 > 5
  {
    assert RawRate(10, 1, 5) == 50;
  }

  /** Because the u128 quotient is cast with `as u64`, a quotient of 2^65
      wraps to 0: an epoch that produced 1 unit against a target of 8 halves
      a rate of 2^62 instead of doubling it. */
  lemma TruncatedQuotientHalvesRate()
    ensures CalculateNewRewardRate(0x4000_0000_0000_0000, 1, 8, U64_MAX) == 0x2000_0000_0000_0000
  {
    assert RawRate(0x4000_0000_0000_0000, 1, 8) == 0;
  }
}
