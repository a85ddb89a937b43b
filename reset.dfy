/** The epoch reset: anyone may call it at any time, and before the current
    epoch has ended it does nothing. Otherwise it aggregates the eight buses,
    re-targets the base reward rate and the minimum difficulty, refills the
    buses and tells the treasury how much to mint. Two emission policies share
    it, selected by the config account's leading tag byte: coal (bounded
    supply with a halving schedule) and wood (no supply cap; bus rewards
    multiplied by an integer factor each epoch). */
module Reset {
  import opened Arith
  import opened Retarget

  /** The number of bus accounts the reset receives. */
  const BUS_COUNT: int := 8

  /** A bus account: one of the shards the mining rewards are paid from. */
  datatype Bus = Bus(id: u64, rewards: u64, theoreticalRewards: u64, topBalance: u64)

  /** The contents of a config account. Coal's `Config` layout has no
      `totalEpochRewards`; the coal reset never writes it. */
  datatype ConfigState = ConfigState(
    tag: u8,
    baseRewardRate: u64,
    lastResetAt: i64,
    minDifficulty: u64,
    topBalance: u64,
    totalEpochRewards: u64)

  /** The config account, whose fields the reset rewrites in place. */
  class Config {
    var tag: u8
    var baseRewardRate: u64
    var lastResetAt: i64
    var minDifficulty: u64
    var topBalance: u64
    var totalEpochRewards: u64

    function State(): ConfigState
      reads this
    {
      ConfigState(tag, baseRewardRate, lastResetAt, minDifficulty, topBalance, totalEpochRewards)
    }

    /** Writes back a saved state: what the host does to every account when a
        call fails after having written to it. */
    method Restore(s: ConfigState)
      modifies this
      ensures State() == s
    {
      tag, baseRewardRate, lastResetAt := s.tag, s.baseRewardRate, s.lastResetAt;
      minDifficulty, topBalance, totalEpochRewards := s.minDifficulty, s.topBalance, s.totalEpochRewards;
    }
  }

  /** The coal constants (epoch length, supply cap, targets, per-bus and
      per-epoch caps, rate thresholds), whose values are not part of this model. */
  datatype CoalParams = CoalParams(
    epochDuration: i64,
    maxSupply: u64,
    targetRewards: u64,
    busEpochRewards: u64,
    maxEpochRewards: u64,
    minThreshold: u64,
    maxThreshold: u64)

  /** The wood constants. `multiplier` is `WOOD_PROPOGATION_MULTIPLIER as u64`. */
  datatype WoodParams = WoodParams(
    epochDuration: i64,
    multiplier: u64,
    minThreshold: u64,
    maxThreshold: u64)

  /** Both policies' constants and the discriminators of the two config layouts. */
  datatype ResetParams = ResetParams(configTag: u8, woodConfigTag: u8, coal: CoalParams, wood: WoodParams)

  /** What a reset leaves behind: the config, the buses and either the amount
      to mint into the treasury or the error that aborted the call. */
  datatype Transition = Transition(config: ConfigState, buses: seq<Bus>, outcome: Result<u64>)

  datatype RateAndDifficulty = RateAndDifficulty(rate: u64, difficulty: u64)

  datatype Policy = CoalPolicy | WoodPolicy

  // ---------------------------------------------------------------------
  // Aggregates over the buses, each a left fold as the reset loop computes it.
  // ---------------------------------------------------------------------

  function Rewards(bs: seq<Bus>): (xs: seq<u64>)
    ensures |xs| == |bs| && forall i :: 0 <= i < |bs| ==> xs[i] == bs[i].rewards
  {
    seq(|bs|, i requires 0 <= i < |bs| => bs[i].rewards)
  }

  function Theoretical(bs: seq<Bus>): (xs: seq<u64>)
    ensures |xs| == |bs| && forall i :: 0 <= i < |bs| ==> xs[i] == bs[i].theoreticalRewards
  {
    seq(|bs|, i requires 0 <= i < |bs| => bs[i].theoreticalRewards)
  }

  function TopBalances(bs: seq<Bus>): (xs: seq<u64>)
    ensures |xs| == |bs| && forall i :: 0 <= i < |bs| ==> xs[i] == bs[i].topBalance
  {
    seq(|bs|, i requires 0 <= i < |bs| => bs[i].topBalance)
  }

  /** A sum accumulated with `saturating_add`, first element first. */
  function SatSum(xs: seq<u64>): u64
  {
    if xs == [] then 0 else SatAdd(SatSum(xs[..|xs| - 1]), xs[|xs| - 1])
  }

  /** The exact sum. */
  function Sum(xs: seq<u64>): nat
  {
    if xs == [] then 0 else Sum(xs[..|xs| - 1]) + xs[|xs| - 1]
  }

  /** The running maximum the loop keeps, starting from 0. */
  function MaxOf(xs: seq<u64>): u64
  {
    if xs == [] then 0
    else
      var m := MaxOf(xs[..|xs| - 1]);
      if xs[|xs| - 1] > m then xs[|xs| - 1] else m
  }

  /** One more element extends the saturating total by it. */
  lemma SatSumStep(xs: seq<u64>, i: nat)
    requires i < |xs|
    ensures SatSum(xs[..i + 1]) == SatAdd(SatSum(xs[..i]), xs[i])
  {
    assert xs[..i + 1][..i] == xs[..i];
  }

  /** One more element raises the running maximum to it when it is larger. */
  lemma MaxOfStep(xs: seq<u64>, i: nat)
    requires i < |xs|
    ensures MaxOf(xs[..i + 1]) == if xs[i] > MaxOf(xs[..i]) then xs[i] else MaxOf(xs[..i])
  {
    assert xs[..i + 1][..i] == xs[..i];
  }

  /** Saturating at every step gives the exact sum capped at u64::MAX: no
      intermediate saturation loses anything the final cap would keep. */
  lemma {:induction false} SatSumIsCappedSum(xs: seq<u64>)
    ensures SatSum(xs) == Min(Sum(xs), U64_MAX)
  {
    if xs != [] {
      SatSumIsCappedSum(xs[..|xs| - 1]);
    }
  }

  /** The running maximum bounds every element and is one of them (or 0). */
  lemma {:induction false} MaxOfIsMaximum(xs: seq<u64>)
    ensures forall i :: 0 <= i < |xs| ==> xs[i] <= MaxOf(xs)
    ensures MaxOf(xs) == 0 || exists i :: 0 <= i < |xs| && xs[i] == MaxOf(xs)
  {
    if xs != [] {
      var init := xs[..|xs| - 1];
      MaxOfIsMaximum(init);
      assert forall i :: 0 <= i < |init| ==> xs[i] == init[i];
      if MaxOf(init) != 0 && MaxOf(xs) == MaxOf(init) {
        var j :| 0 <= j < |init| && init[j] == MaxOf(init);
        assert xs[j] == MaxOf(xs);
      }
    }
  }

  // ---------------------------------------------------------------------
  // Halving schedule (coal).
  // ---------------------------------------------------------------------

  function Pow2(e: nat): (r: nat)
    ensures r >= 1
  {
    if e == 0 then 1 else 2 * Pow2(e - 1)
  }

  lemma {:induction false} Pow2Monotone(a: nat, b: nat)
    requires a <= b
    ensures Pow2(a) <= Pow2(b)
  {
    if a < b {
      Pow2Monotone(a, b - 1);
    }
  }

  /** The number of halvings: one for every full 5% of the supply cap already
      minted. Integer form of `((supply as f64 / MAX as f64) * 100.0 / 5.0) as u32`;
      f64 rounding next to a band edge is not modelled. */
  function HalvingExponent(supply: u64, maxSupply: u64): (e: nat)
    requires supply < maxSupply
    ensures e <= 19
    ensures e * maxSupply <= supply * 20 < (e + 1) * maxSupply
  {
    var e := supply * 20 / maxSupply;
    DivLe(supply * 20, maxSupply * 20 - 1, maxSupply);
    DivUnique(maxSupply * 20 - 1, maxSupply, 19);
    assert supply * 20 == e * maxSupply + (supply * 20) % maxSupply;
    e
  }

  /** `2u64.pow(exponent)`. */
  function HalvingFactor(supply: u64, maxSupply: u64): (f: nat)
    requires supply < maxSupply
    ensures 1 <= f <= Pow2(19)
  {
    Pow2Monotone(HalvingExponent(supply, maxSupply), 19);
    Pow2(HalvingExponent(supply, maxSupply))
  }

  /** More minted supply never means fewer halvings. */
  lemma HalvingMonotone(s1: u64, s2: u64, maxSupply: u64)
    requires s1 <= s2 < maxSupply
    ensures HalvingExponent(s1, maxSupply) <= HalvingExponent(s2, maxSupply)
    ensures HalvingFactor(s1, maxSupply) <= HalvingFactor(s2, maxSupply)
  {
    DivLe(s1 * 20, s2 * 20, maxSupply);
    Pow2Monotone(HalvingExponent(s1, maxSupply), HalvingExponent(s2, maxSupply));
  }

  /** Each further 5% of the cap halves the epoch constants: one more
      halving doubles the factor, and the scaled constant is the previous
      one halved (rounding down). */
  lemma HalvingStep(s1: u64, s2: u64, maxSupply: u64, x: u64)
    requires s1 < maxSupply && s2 < maxSupply
    requires HalvingExponent(s2, maxSupply) == HalvingExponent(s1, maxSupply) + 1
    ensures HalvingFactor(s2, maxSupply) == 2 * HalvingFactor(s1, maxSupply)
    ensures Scale(x, HalvingFactor(s2, maxSupply)) == Scale(x, HalvingFactor(s1, maxSupply)) / 2
  {
    var f := HalvingFactor(s1, maxSupply);
    HalveQuotient(x, f);
  }

  /** Dividing by `2f` is dividing by `f` and then by 2. */
  lemma HalveQuotient(x: nat, f: nat)
    requires f >= 1
    ensures x / (2 * f) == (x / f) / 2
  {
    var q := x / f;
    var h := q / 2;
    assert x == q * f + x % f;
    assert q == 2 * h + q % 2;
    assert x == h * (2 * f) + (q % 2) * f + x % f;
    assert (q % 2) * f <= f by { MulLe(q % 2, 1, f); }
    DivUnique(x, 2 * f, h);
  }

  /** A constant divided by the halving factor. */
  function Scale(x: u64, factor: nat): (r: u64)
    requires factor >= 1
    ensures r <= x
    ensures factor == 1 ==> r == x
  {
    DivAtMost(x, factor);
    x / factor
  }

  // ---------------------------------------------------------------------
  // Difficulty adjustment, shared by both policies.
  // ---------------------------------------------------------------------

  /** If the rate is at or below `low`, raise the minimum difficulty by one
      and double the rate (checked: overflow aborts the call); then, if the
      rate is at or above `high` and the difficulty exceeds 1, lower the
      difficulty by one and halve the rate. */
  function AdjustDifficulty(rate: u64, difficulty: u64, low: u64, high: u64): (r: Result<RateAndDifficulty>)
    ensures r.Err? <==> rate <= low && (difficulty == U64_MAX || 2 * rate > U64_MAX)
    ensures r.Err? ==> r.error == ArithmeticOverflow
    ensures r.Ok? ==>
      || (r.value.rate == rate && r.value.difficulty == difficulty)
      || (r.value.rate == 2 * rate && r.value.difficulty == difficulty + 1)
      || (r.value.rate == rate / 2 && r.value.difficulty == difficulty - 1)
    ensures r.Ok? && difficulty >= 1 ==> r.value.difficulty >= 1
    ensures r.Ok? && rate <= low ==> r.value.difficulty >= difficulty
    ensures r.Ok? && low < rate < high ==> r.value.rate == rate && r.value.difficulty == difficulty
    // The ordered rule, case by case: a low rate doubles with d+1, unless
    // the doubled rate then reaches `high` with d+1 > 1, which undoes it.
    ensures rate <= low && r.Ok? && (2 * rate < high || difficulty == 0) ==>
      r.value.rate == 2 * rate && r.value.difficulty == difficulty + 1
    ensures rate <= low && r.Ok? && 2 * rate >= high && difficulty >= 1 ==>
      r.value.rate == rate && r.value.difficulty == difficulty
    // A rate above `low` halves with d-1 when it reaches `high` and d > 1,
    // and is kept otherwise.
    ensures low < rate && rate >= high && difficulty > 1 ==>
      r.Ok? && r.value.rate == rate / 2 && r.value.difficulty == difficulty - 1
    ensures low < rate && (rate < high || difficulty <= 1) ==>
      r.Ok? && r.value.rate == rate && r.value.difficulty == difficulty
  {
    var raised :=
      if rate <= low then
        match (CheckedAdd(difficulty, 1), CheckedMul(rate, 2))
        case (Some(d), Some(x)) => Ok(RateAndDifficulty(x, d))
        case _ => Err(ArithmeticOverflow)
      else Ok(RateAndDifficulty(rate, difficulty));
    match raised
    case Err(e) => Err(e)
    case Ok(v) =>
      if v.rate >= high && v.difficulty > 1 then Ok(RateAndDifficulty(v.rate / 2, v.difficulty - 1))
      else Ok(v)
  }

  // ---------------------------------------------------------------------
  // The two policies as transitions on values.
  // ---------------------------------------------------------------------

  /** The guard: the epoch that started at `lastResetAt` has not ended yet. */
  predicate EpochPending(lastResetAt: i64, epochDuration: i64, now: i64)
  {
    SatAddI64(lastResetAt, epochDuration) > now
  }

  function CoalBus(b: Bus, adjustedBusRewards: u64): Bus
  {
    b.(rewards := adjustedBusRewards, theoreticalRewards := 0, topBalance := 0)
  }

  function CoalBuses(bs: seq<Bus>, adjustedBusRewards: u64): (r: seq<Bus>)
    ensures |r| == |bs| && forall i :: 0 <= i < |bs| ==> r[i] == CoalBus(bs[i], adjustedBusRewards)
  {
    seq(|bs|, i requires 0 <= i < |bs| => CoalBus(bs[i], adjustedBusRewards))
  }

  function WoodBus(b: Bus, multiplier: u64): Bus
  {
    b.(rewards := Max(SatMul(b.rewards, multiplier), 1))
  }

  function WoodBuses(bs: seq<Bus>, multiplier: u64): (r: seq<Bus>)
    ensures |r| == |bs| && forall i :: 0 <= i < |bs| ==> r[i] == WoodBus(bs[i], multiplier)
  {
    seq(|bs|, i requires 0 <= i < |bs| => WoodBus(bs[i], multiplier))
  }

  /** What an integer multiplier can do to a bus's rewards: 0 resets them to
      1, 1 only lifts them to at least 1, and 2 or more at least doubles them
      while the product fits. No u64 multiplier gives a 5% step. */
  lemma WoodBusGrowth(b: Bus, multiplier: u64)
    ensures multiplier == 0 ==> WoodBus(b, multiplier).rewards == 1
    ensures multiplier == 1 ==> WoodBus(b, multiplier).rewards == Max(b.rewards, 1)
    ensures multiplier >= 2 && b.rewards * multiplier <= U64_MAX ==>
      WoodBus(b, multiplier).rewards >= 2 * b.rewards
  {
    if multiplier >= 2 {
      MulLe(2, multiplier, b.rewards);
    }
  }

  /** The coal reset. */
  function CoalReset(cfg: ConfigState, bs: seq<Bus>, supply: u64, now: i64, p: CoalParams): (t: Transition)
    requires |bs| == BUS_COUNT
    ensures EpochPending(cfg.lastResetAt, p.epochDuration, now) ==> t == Transition(cfg, bs, Ok(0))
    ensures !EpochPending(cfg.lastResetAt, p.epochDuration, now) && supply >= p.maxSupply ==>
      t == Transition(cfg, bs, Err(MaxSupply))
    ensures t.outcome.Err? ==> t.config == cfg && t.buses == bs
    ensures t.outcome.Ok? ==> t.outcome.value <= SatSub(p.maxSupply, supply)
    ensures t.config.tag == cfg.tag && t.config.totalEpochRewards == cfg.totalEpochRewards
    ensures cfg.minDifficulty >= 1 ==> t.config.minDifficulty >= 1
  {
    if EpochPending(cfg.lastResetAt, p.epochDuration, now) then Transition(cfg, bs, Ok(0))
    else if supply >= p.maxSupply then Transition(cfg, bs, Err(MaxSupply))
    else
      var f := HalvingFactor(supply, p.maxSupply);
      var busRewards := Scale(p.busEpochRewards, f);
      var rate := CalculateNewRewardRate(
        cfg.baseRewardRate, SatSum(Theoretical(bs)), Scale(p.targetRewards, f), busRewards);
      match AdjustDifficulty(rate, cfg.minDifficulty, Scale(p.minThreshold, f), Scale(p.maxThreshold, f))
      case Err(e) => Transition(cfg, bs, Err(e))
      case Ok(adjusted) =>
        var epochRewards := SatSub(Scale(p.maxEpochRewards, f), SatSum(Rewards(bs)));
        Transition(
          cfg.(lastResetAt := now, topBalance := MaxOf(TopBalances(bs)),
               baseRewardRate := adjusted.rate, minDifficulty := adjusted.difficulty),
          CoalBuses(bs, busRewards),
          Ok(Min(SatSub(p.maxSupply, supply), epochRewards)))
  }

  /** The wood reset. */
  function WoodReset(cfg: ConfigState, bs: seq<Bus>, now: i64, p: WoodParams): (t: Transition)
    requires |bs| == BUS_COUNT
    ensures EpochPending(cfg.lastResetAt, p.epochDuration, now) ==> t == Transition(cfg, bs, Ok(0))
    ensures t.outcome.Err? ==> t.config == cfg && t.buses == bs && t.outcome.error == ArithmeticOverflow
    ensures t.outcome.Ok? ==> t.outcome.value <= cfg.totalEpochRewards
    ensures t.config.tag == cfg.tag
    ensures cfg.minDifficulty >= 1 ==> t.config.minDifficulty >= 1
  {
    if EpochPending(cfg.lastResetAt, p.epochDuration, now) then Transition(cfg, bs, Ok(0))
    else
      var grown := WoodBuses(bs, p.multiplier);
      var nextEpochRewards := SatSum(Rewards(grown));
      var epochRewards := SatSub(cfg.totalEpochRewards, SatSum(Rewards(bs)));
      var rate := CalculateNewRewardRate(
        cfg.baseRewardRate, epochRewards, nextEpochRewards, nextEpochRewards / BUS_COUNT);
      match AdjustDifficulty(rate, cfg.minDifficulty, p.minThreshold, p.maxThreshold)
      case Err(e) => Transition(cfg, bs, Err(e))
      case Ok(adjusted) =>
        Transition(
          cfg.(lastResetAt := now, topBalance := MaxOf(TopBalances(bs)), totalEpochRewards := nextEpochRewards,
               baseRewardRate := adjusted.rate, minDifficulty := adjusted.difficulty),
          grown,
          Ok(epochRewards))
  }

  /** The policy a config account's leading byte selects: the coal tag is
      tested first, then the wood tag; any other byte is rejected. */
  function PolicyOf(tag: u8, p: ResetParams): (r: Result<Policy>)
    ensures r == Ok(CoalPolicy) <==> tag == p.configTag
    ensures r == Ok(WoodPolicy) <==> tag != p.configTag && tag == p.woodConfigTag
    ensures r.Err? <==> tag != p.configTag && tag != p.woodConfigTag
    ensures r.Err? ==> r.error == InvalidAccountData
  {
    if tag == p.configTag then Ok(CoalPolicy)
    else if tag == p.woodConfigTag then Ok(WoodPolicy)
    else Err(InvalidAccountData)
  }

  /** `process_reset` on values. */
  function ResetTransition(cfg: ConfigState, bs: seq<Bus>, supply: u64, now: i64, p: ResetParams): (t: Transition)
    requires |bs| == BUS_COUNT
    ensures PolicyOf(cfg.tag, p).Err? ==> t == Transition(cfg, bs, Err(InvalidAccountData))
    ensures t.outcome.Err? ==> t.config == cfg && t.buses == bs
    ensures t.config.tag == cfg.tag
    ensures cfg.tag == p.configTag ==> t == CoalReset(cfg, bs, supply, now, p.coal)
    ensures cfg.tag != p.configTag && cfg.tag == p.woodConfigTag ==> t == WoodReset(cfg, bs, now, p.wood)
  {
    match PolicyOf(cfg.tag, p)
    case Ok(CoalPolicy) => CoalReset(cfg, bs, supply, now, p.coal)
    case Ok(WoodPolicy) => WoodReset(cfg, bs, now, p.wood)
    case Err(e) => Transition(cfg, bs, Err(e))
  }

  /** A coal reset past the guard and below the supply cap fails only when
      the difficulty adjustment overflows. Otherwise every bus is refilled to
      the halved per-bus cap with its id kept and its theoretical rewards and
      top balance cleared; the config records the largest prior top balance;
      and the amount minted is the unpaid part of the halved epoch cap,
      measured against the remaining rewards summed exactly (capped at
      u64::MAX), and never more than the supply left under the cap. */
  lemma CoalResetEpoch(cfg: ConfigState, bs: seq<Bus>, supply: u64, now: i64, p: CoalParams)
    requires |bs| == BUS_COUNT
    requires !EpochPending(cfg.lastResetAt, p.epochDuration, now) && supply < p.maxSupply
    ensures
      var t := CoalReset(cfg, bs, supply, now, p);
      var f := HalvingFactor(supply, p.maxSupply);
      var rate := CalculateNewRewardRate(
        cfg.baseRewardRate, Min(Sum(Theoretical(bs)), U64_MAX), p.targetRewards / f, p.busEpochRewards / f);
      var adjusted := AdjustDifficulty(rate, cfg.minDifficulty, p.minThreshold / f, p.maxThreshold / f);
      && (t.outcome.Err? <==> adjusted.Err?)
      && (adjusted.Ok? ==>
            && t.config.lastResetAt == now
            && t.config.baseRewardRate == adjusted.value.rate
            && t.config.minDifficulty == adjusted.value.difficulty
            && (forall i :: 0 <= i < |bs| ==> bs[i].topBalance <= t.config.topBalance)
            && (t.config.topBalance == 0 || exists i :: 0 <= i < |bs| && bs[i].topBalance == t.config.topBalance)
            && |t.buses| == |bs|
            && (forall i :: 0 <= i < |bs| ==> t.buses[i] == Bus(bs[i].id, p.busEpochRewards / f, 0, 0))
            && t.outcome == Ok(Min(p.maxSupply - supply,
                                   SatSub(p.maxEpochRewards / f, Min(Sum(Rewards(bs)), U64_MAX)))))
  {
    SatSumIsCappedSum(Rewards(bs));
    SatSumIsCappedSum(Theoretical(bs));
    MaxOfIsMaximum(TopBalances(bs));
  }

  /** A wood reset past the guard fails only when the difficulty adjustment
      overflows. Otherwise every bus's rewards grow to
      `max(1, rewards *sat multiplier)` (never decreasing when the multiplier
      is at least 1) with everything else in the bus untouched; the config's
      epoch total becomes the exact sum of the grown rewards (capped at
      u64::MAX); and the amount minted is the old epoch total minus what the
      buses left unpaid, floored at 0. */
  lemma WoodResetEpoch(cfg: ConfigState, bs: seq<Bus>, now: i64, p: WoodParams)
    requires |bs| == BUS_COUNT
    requires !EpochPending(cfg.lastResetAt, p.epochDuration, now)
    ensures
      var t := WoodReset(cfg, bs, now, p);
      var next := Min(Sum(Rewards(WoodBuses(bs, p.multiplier))), U64_MAX);
      var owed := SatSub(cfg.totalEpochRewards, Min(Sum(Rewards(bs)), U64_MAX));
      var adjusted := AdjustDifficulty(
        CalculateNewRewardRate(cfg.baseRewardRate, owed, next, next / BUS_COUNT),
        cfg.minDifficulty, p.minThreshold, p.maxThreshold);
      && (t.outcome.Err? <==> adjusted.Err?)
      && (adjusted.Ok? ==>
            && t.config.lastResetAt == now
            && t.config.baseRewardRate == adjusted.value.rate
            && t.config.minDifficulty == adjusted.value.difficulty
            && (forall i :: 0 <= i < |bs| ==> bs[i].topBalance <= t.config.topBalance)
            && (t.config.topBalance == 0 || exists i :: 0 <= i < |bs| && bs[i].topBalance == t.config.topBalance)
            && |t.buses| == |bs|
            && (forall i :: 0 <= i < |bs| ==>
                  && t.buses[i].rewards == Max(1, SatMul(bs[i].rewards, p.multiplier))
                  && t.buses[i].rewards >= 1
                  && (p.multiplier >= 1 ==> t.buses[i].rewards >= bs[i].rewards)
                  && t.buses[i] == bs[i].(rewards := t.buses[i].rewards))
            && t.config.totalEpochRewards == next
            && t.outcome == Ok(owed))
  {
    var grown := WoodBuses(bs, p.multiplier);
    SatSumIsCappedSum(Rewards(bs));
    SatSumIsCappedSum(Rewards(grown));
    MaxOfIsMaximum(TopBalances(bs));
    var t := WoodReset(cfg, bs, now, p);
    if t.outcome.Ok? {
      assert t.buses == grown;
      forall i | 0 <= i < |bs|
        ensures t.buses[i].rewards == Max(1, SatMul(bs[i].rewards, p.multiplier))
        ensures p.multiplier >= 1 ==> t.buses[i].rewards >= bs[i].rewards
        ensures t.buses[i] == bs[i].(rewards := t.buses[i].rewards)
      {
        assert t.buses[i] == WoodBus(bs[i], p.multiplier);
        if p.multiplier >= 1 {
          MulLe(1, p.multiplier, bs[i].rewards);
        }
      }
    }
  }

  // ---------------------------------------------------------------------
  // The reset as the program runs it: in place on the config and the buses.
  // ---------------------------------------------------------------------

  /** Puts the config and every bus back as they were. */
  method Rollback(config: Config, buses: array<Bus>, savedConfig: ConfigState, savedBuses: seq<Bus>)
    requires buses.Length == |savedBuses|
    modifies config, buses
    ensures config.State() == savedConfig && buses[..] == savedBuses
  {
    config.Restore(savedConfig);
    forall k | 0 <= k < buses.Length {
      buses[k] := savedBuses[k];
    }
  }

  /** The coal bus loop: totals the remaining and the theoretical rewards,
      finds the largest top balance, and refills every bus. */
  method ResetCoalBuses(buses: array<Bus>, adjustedBusEpochRewards: u64)
    returns (totalRemainingRewards: u64, totalTheoreticalRewards: u64, topBalance: u64)
    requires buses.Length == BUS_COUNT
    modifies buses
    ensures buses[..] == CoalBuses(old(buses[..]), adjustedBusEpochRewards)
    ensures totalRemainingRewards == SatSum(Rewards(old(buses[..])))
    ensures totalTheoreticalRewards == SatSum(Theoretical(old(buses[..])))
    ensures topBalance == MaxOf(TopBalances(old(buses[..])))
  {
    ghost var before := buses[..];
    ghost var remaining, theoretical, tops := Rewards(before), Theoretical(before), TopBalances(before);
    totalRemainingRewards, totalTheoreticalRewards, topBalance := 0, 0, 0;
    for i := 0 to BUS_COUNT
      invariant forall k :: 0 <= k < i ==> buses[k] == CoalBus(before[k], adjustedBusEpochRewards)
      invariant forall k :: i <= k < BUS_COUNT ==> buses[k] == before[k]
      invariant topBalance == MaxOf(tops[..i])
      invariant totalRemainingRewards == SatSum(remaining[..i])
      invariant totalTheoreticalRewards == SatSum(theoretical[..i])
    {
      var bus := buses[i];
      MaxOfStep(tops, i);
      SatSumStep(remaining, i);
      SatSumStep(theoretical, i);
      if bus.topBalance > topBalance {
        topBalance := bus.topBalance;
      }
      totalRemainingRewards := SatAdd(totalRemainingRewards, bus.rewards);
      totalTheoreticalRewards := SatAdd(totalTheoreticalRewards, bus.theoreticalRewards);
      buses[i] := bus.(rewards := adjustedBusEpochRewards, theoreticalRewards := 0, topBalance := 0);
    }
    assert tops[..BUS_COUNT] == tops && remaining[..BUS_COUNT] == remaining;
    assert theoretical[..BUS_COUNT] == theoretical;
  }

  /** The wood bus loop: totals the remaining rewards, finds the largest top
      balance, grows every bus's rewards by the multiplier (at least 1) and
      totals the grown rewards. */
  method GrowWoodBuses(buses: array<Bus>, multiplier: u64)
    returns (topBalance: u64, totalRemainingRewards: u64, nextEpochRewards: u64)
    requires buses.Length == BUS_COUNT
    modifies buses
    ensures buses[..] == WoodBuses(old(buses[..]), multiplier)
    ensures topBalance == MaxOf(TopBalances(old(buses[..])))
    ensures totalRemainingRewards == SatSum(Rewards(old(buses[..])))
    ensures nextEpochRewards == SatSum(Rewards(buses[..]))
  {
    ghost var before := buses[..];
    ghost var grown := WoodBuses(before, multiplier);
    ghost var remaining, next, tops := Rewards(before), Rewards(grown), TopBalances(before);
    topBalance, totalRemainingRewards, nextEpochRewards := 0, 0, 0;
    for i := 0 to BUS_COUNT
      invariant forall k :: 0 <= k < i ==> buses[k] == grown[k]
      invariant forall k :: i <= k < BUS_COUNT ==> buses[k] == before[k]
      invariant topBalance == MaxOf(tops[..i])
      invariant totalRemainingRewards == SatSum(remaining[..i])
      invariant nextEpochRewards == SatSum(next[..i])
    {
      var bus := buses[i];
      MaxOfStep(tops, i);
      SatSumStep(remaining, i);
      SatSumStep(next, i);
      assert bus == before[i] && grown[i] == WoodBus(before[i], multiplier);
      if bus.topBalance > topBalance {
        topBalance := bus.topBalance;
      }
      totalRemainingRewards := SatAdd(totalRemainingRewards, bus.rewards);
      var rewards := Max(SatMul(bus.rewards, multiplier), 1);
      assert bus.(rewards := rewards) == grown[i] && rewards == next[i];
      buses[i] := bus.(rewards := rewards);
      nextEpochRewards := SatAdd(nextEpochRewards, rewards);
    }
    assert tops[..BUS_COUNT] == tops && remaining[..BUS_COUNT] == remaining;
    assert next[..BUS_COUNT] == next;
    assert buses[..] == grown;
  }

  /** `process_reset_coal`: `supply` is the mint's current supply; the
      returned value is the amount to mint into the treasury. */
  method ResetCoal(config: Config, buses: array<Bus>, supply: u64, now: i64, p: CoalParams)
    returns (outcome: Result<u64>)
    requires buses.Length == BUS_COUNT
    modifies config, buses
    ensures Transition(config.State(), buses[..], outcome)
         == CoalReset(old(config.State()), old(buses[..]), supply, now, p)
  {
    if SatAddI64(config.lastResetAt, p.epochDuration) > now {
      return Ok(0);
    }
    var savedConfig := config.State();
    var savedBuses := buses[..];

    config.lastResetAt := now;

    if supply >= p.maxSupply {
      Rollback(config, buses, savedConfig, savedBuses);
      return Err(MaxSupply);
    }

    var factor := HalvingFactor(supply, p.maxSupply);
    var adjustedTargetRewards := Scale(p.targetRewards, factor);
    var adjustedBusEpochRewards := Scale(p.busEpochRewards, factor);
    var adjustedMaxEpochRewards := Scale(p.maxEpochRewards, factor);

    var totalRemainingRewards, totalTheoreticalRewards, topBalance := ResetCoalBuses(buses, adjustedBusEpochRewards);
    var totalEpochRewards := SatSub(adjustedMaxEpochRewards, totalRemainingRewards);

    config.topBalance := topBalance;
    config.baseRewardRate := CalculateNewRewardRate(
      config.baseRewardRate, totalTheoreticalRewards, adjustedTargetRewards, adjustedBusEpochRewards);

    var adjusted := AdjustDifficulty(
      config.baseRewardRate, config.minDifficulty,
      Scale(p.minThreshold, factor), Scale(p.maxThreshold, factor));
    if adjusted.Err? {
      Rollback(config, buses, savedConfig, savedBuses);
      return Err(adjusted.error);
    }
    config.minDifficulty := adjusted.value.difficulty;
    config.baseRewardRate := adjusted.value.rate;

    outcome := Ok(Min(SatSub(p.maxSupply, supply), totalEpochRewards));
  }

  /** `process_reset_wood`: the returned value is the amount to mint. */
  method ResetWood(config: Config, buses: array<Bus>, now: i64, p: WoodParams)
    returns (outcome: Result<u64>)
    requires buses.Length == BUS_COUNT
    modifies config, buses
    ensures Transition(config.State(), buses[..], outcome)
         == WoodReset(old(config.State()), old(buses[..]), now, p)
  {
    if SatAddI64(config.lastResetAt, p.epochDuration) > now {
      return Ok(0);
    }
    var savedConfig := config.State();
    var savedBuses := buses[..];

    config.lastResetAt := now;

    var topBalance, totalRemainingRewards, nextEpochRewards := GrowWoodBuses(buses, p.multiplier);

    var totalEpochRewards := SatSub(config.totalEpochRewards, totalRemainingRewards);
    var nextEpochBusRewards := nextEpochRewards / BUS_COUNT;

    config.topBalance := topBalance;
    config.totalEpochRewards := nextEpochRewards;
    config.baseRewardRate := CalculateNewRewardRate(
      config.baseRewardRate, totalEpochRewards, nextEpochRewards, nextEpochBusRewards);

    var adjusted := AdjustDifficulty(config.baseRewardRate, config.minDifficulty, p.minThreshold, p.maxThreshold);
    if adjusted.Err? {
      Rollback(config, buses, savedConfig, savedBuses);
      return Err(adjusted.error);
    }
    config.minDifficulty := adjusted.value.difficulty;
    config.baseRewardRate := adjusted.value.rate;

    outcome := Ok(totalEpochRewards);
  }

  /** `process_reset`: dispatch on the config account's leading byte. */
  method ProcessReset(config: Config, buses: array<Bus>, supply: u64, now: i64, p: ResetParams)
    returns (outcome: Result<u64>)
    requires buses.Length == BUS_COUNT
    modifies config, buses
    ensures Transition(config.State(), buses[..], outcome)
         == ResetTransition(old(config.State()), old(buses[..]), supply, now, p)
  {
    if config.tag == p.configTag {
      outcome := ResetCoal(config, buses, supply, now, p.coal);
      return;
    }
    if config.tag == p.woodConfigTag {
      outcome := ResetWood(config, buses, now, p.wood);
      return;
    }
    outcome := Err(InvalidAccountData);
  }
}
