# Proof-of-work emission: epoch reset and Mine, in Dafny

This project models the two pieces of the COAL/WOOD mining program (a fork of
ORE on Solana) that hold its emission logic, and proves properties of them.

* **The epoch reset** (`program/src/reset.rs`). Anyone may call it at any
  time; before the current epoch has ended it does nothing. It walks the
  eight bus accounts, which are the reward shards Mine pays from, and totals
  what they left unpaid. Under the coal policy it also totals what miners
  would have earned without caps. It re-targets the base reward rate with
  `calculate_new_reward_rate` and nudges the minimum difficulty. It refills
  the buses and returns the amount to mint into the treasury. The leading
  byte of the config account selects the policy:
  * coal has a bounded supply, and its caps halve for every 5% of that supply already minted;
  * wood has no supply cap, and each bus's rewards are multiplied by a fixed integer factor
    (saturating), floored at 1.
* **Mine** (`src/processor/mine.rs`, from the older crate). It checks the
  clock. It pays the treasury's reward rate from the caller's chosen bus
  into the caller's proof account. It replaces the proof's challenge with
  the hash of the first 40 bytes of the slot-hashes sysvar's data and bumps
  the lifetime counters.
  `validate_hash` is modelled on its own, because this version of Mine does
  not call it.

Files:

* `arith.dfy` (module `Arith`) holds the fixed-width integer types. It also
  holds the saturating, checked and truncating operations the Rust code
  uses, the error codes and a `Result` type.
* `retarget.dfy` (module `Retarget`) holds `calculate_new_reward_rate` and
  the lemmas about it.
* `reset.dfy` (module `Reset`) holds the bus record, the config account as a
  class, the two policies as pure transitions on values, and the imperative
  methods. Those methods rewrite a `Config` object and an 8-element bus
  `array` in place, and each is proved equal to its pure transition.
* `mine.dfy` (module `Mine`) holds the little-endian encoding, the hash
  order, `validate_hash`, the bus and proof accounts as classes, and `process_mine`.

Design decisions:

* The program's constants are fields of parameter records (`CoalParams`,
  `WoodParams`, `ResetParams`, `MineParams`), because their values are not
  part of this model. The exceptions are `SMOOTHING_FACTOR = 2` and `BUS_COUNT = 8`.
* Keccak (`hashv`) is a parameter of type `seq<u8> -> Hash`. `hashv` over
  several slices hashes their concatenation.
* The clock (`now`) and the mint's supply are parameters. The treasury mint
  is the returned amount.
* A failed call leaves every account as it was, as the Solana runtime
  guarantees. The code writes `last_reset_at` (reset.rs:71) before the
  MaxSupply check (reset.rs:75). It also rewrites the buses before the
  checked difficulty arithmetic. So the reset methods save the old state and
  put it back on an error (`Reset.Rollback`).
* `checked_add(1).unwrap()` and `checked_mul(2).unwrap()` abort the
  transaction on overflow. The model turns that into `Err(ArithmeticOverflow)`.

Where the code's own comments promise more than the code does, the model
follows the code:

* `calculate_new_reward_rate` computes the proportional rate as a u128
  `saturating_mul` then `saturating_div`, and then casts it with `as u64`
  (reset.rs:294-296). The cast keeps the low 64 bits; it does not saturate.
  `Retarget.TruncatedQuotientHalvesRate` shows an input where the wrap-around
  halves a rate that the signal says should double.
* The comment at reset.rs:302 reads "Prevent reward rate from dropping below
  1 or exceeding target_rewards". The code on the next line clamps to
  `bus_rewards`, not to `target_rewards`. So even with `epoch_rewards != 0`
  the result can exceed `target_rewards`. `Retarget.ResultCanExceedTarget`
  gives an input: rate 10, output 1, target 5 and cap 100 give 20. Also, the
  early return for `epoch_rewards == 0` (reset.rs:289-291) hands back the
  current rate unchanged, even when it is 0 or above the cap. So
  `Retarget.CalculateNewRewardRate` states the floor of 1 and the
  `bus_rewards` cap for `epoch_rewards != 0` only.
* The doc comment of `process_mine` says that Mine verifies the provided hash
  (mine.rs:25) and can only succeed when the hash and nonce satisfy the
  difficulty (mine.rs:34). The call to `validate_hash` is commented out
  (mine.rs:72-77). So `Mine.ProcessMine` does not check a hash, and the new
  challenge depends only on the slot-hashes data.
* The comment at reset.rs:225 says wood bus rewards grow by 5% each epoch.
  The code multiplies by `WOOD_PROPOGATION_MULTIPLIER as u64` (reset.rs:226),
  an integer. `Reset.WoodBusGrowth` shows what an integer factor does. A
  factor of 1, which is what `as u64` makes of 1.05, leaves the rewards at
  `max(r, 1)`. A factor of 2 or more at least doubles them while the product
  fits. No integer factor grows them by 5%.

About the retarget tests in reset.rs: the fuzz tests draw the current rate
from `[1, BUS_COAL_EPOCH_REWARDS)`. `Retarget.UnitRateHolds` shows that a
rate of 1 stays 1 for any output of more than half the target
(`target < 2*epoch`); only a smaller output can raise it. So `test_calculate_new_reward_rate_lower_fuzz`
(reset.rs:351-359) cannot see a strict drop for rate 1, nor for output
exactly equal to the target (`Retarget.OnTargetKeepsRate`), and
`test_calculate_new_reward_rate_higher_fuzz` (reset.rs:375-383) cannot see
a strict rise for rate 1 when the output exceeds half the target, nor for
any rate whose quotient `current*target/epoch` stays below `current+1`
(rate 2, output 9 and target 10 keep the rate at 2). The requires of
`Retarget.UnderTargetRaisesRate`, `current*target >= (current+1)*epoch`,
is exactly the condition for a rise.
`Retarget.OverTargetLowersRate` and `Retarget.UnderTargetRaisesRate` state
the directions on the inputs where they hold.

## Model

| member | source | states |
|---|---|---|
| `Retarget.ProductFitsU128` | program/src/reset.rs:294-295 | the u128 product of two u64 values never reaches u128::MAX, so `saturating_mul` there never saturates |
| `Retarget.RawRate` | program/src/reset.rs:294-296 | the u128 quotient cast to u64 equals `current*target/epoch` whenever that fits in u64 |
| `Retarget.Smoothed` | program/src/reset.rs:298-301 | the smoothed rate lies in `[current/2, current *sat 2]`, and equals the raw rate when the raw rate already lies there |
| `Retarget.CalculateNewRewardRate` | program/src/reset.rs:287-304 | with `epoch_rewards == 0` the rate is returned unchanged; otherwise the result is at most `bus_rewards`, at least 1 when `bus_rewards >= 1`, and lies in the smoothing band clamped to `[1, bus_rewards]` |
| `Retarget.OnTargetKeepsRate` | program/src/reset.rs:318-322 | actual output equal to the target leaves any rate in `[1, bus_rewards]` unchanged |
| `Retarget.MaxUpwardSmoothing` | program/src/reset.rs:386-390 | an epoch output of 1 doubles the rate, when `2*current <= bus_rewards`, `target >= 2` and `current*target` fits in u64 (e.g. 1000 becomes 2000) |
| `Retarget.MaxDownwardSmoothing` | program/src/reset.rs:393-397 | an epoch output of u64::MAX halves any rate of at least 2 whose half is within the cap, when `current*target` fits in u64 (e.g. 1000 becomes 500) |
| `Retarget.OverTargetLowersRate` | program/src/reset.rs:332-360 | output above target strictly lowers every rate in `[2, bus_rewards]` |
| `Retarget.UnderTargetRaisesRate` | program/src/reset.rs:363-383 | output below target strictly raises a rate below the cap, when the quotient reaches `current+1` and fits in u64 |
| `Retarget.UnitRateHolds` | program/src/reset.rs:287-304 | a rate of 1 stays 1 whenever the epoch produced more than half the target (`target < 2*epoch`) and the cap is at least 1 |
| `Retarget.ResultCanExceedTarget` | program/src/reset.rs:302-303 | the result is clamped to `bus_rewards`, not to `target_rewards`: rate 10 with output 1 against target 5 and cap 100 becomes 20, above the target |
| `Retarget.TruncatedQuotientHalvesRate` | program/src/reset.rs:294-301 | because of the `as u64` cast, rate 2^62 with output 1 against target 8 becomes 2^61, a halving |
| `Reset.SatSumIsCappedSum` | program/src/reset.rs:103-105 | a sum taken with `saturating_add` at every step equals the exact sum capped at u64::MAX |
| `Reset.MaxOfIsMaximum` | program/src/reset.rs:97-100 | the running top balance, started at 0, is at least every bus's top balance and is one of them (or 0) |
| `Reset.HalvingExponent` | program/src/reset.rs:82-83 | the exponent is at most 19 and counts the whole 5% steps of the supply cap that are already minted: `e*MAX <= 20*supply < (e+1)*MAX` |
| `Reset.HalvingFactor` | program/src/reset.rs:83 | the halving factor lies in `[1, 2^19]` |
| `Reset.HalvingMonotone` | program/src/reset.rs:79-86 | more minted supply never gives a smaller halving exponent or factor |
| `Reset.HalvingStep` | program/src/reset.rs:79-86 | each further 5% step of the cap doubles the halving factor and halves (rounding down) every constant scaled by it |
| `Reset.Scale` | program/src/reset.rs:84-86 | a constant divided by the halving factor never exceeds the constant |
| `Reset.WoodBusGrowth` | program/src/reset.rs:225-226 | a factor of 0 sets a bus's rewards to 1, a factor of 1 leaves them at `max(r, 1)`, and a factor of at least 2 at least doubles them while the product fits in u64 |
| `Reset.AdjustDifficulty` | program/src/reset.rs:124-134 | fails (overflow) exactly when the rate is at most the low threshold and the difficulty is u64::MAX or twice the rate overflows; the rules apply in order: a rate at most `low` becomes `(2*rate, d+1)`, except that when `2*rate >= high` and `d >= 1` the second rule halves it back to `(rate, d)`; a rate above `low` becomes `(rate/2, d-1)` when it is at least `high` and `d > 1`, and is kept otherwise; `d >= 1` is preserved |
| `Reset.CoalReset` | program/src/reset.rs:58-140 | before the epoch ends the reset is a no-op minting 0; at or above the supply cap it fails with MaxSupply and changes nothing; every error leaves config and buses unchanged; the amount minted never exceeds `MAX -sat supply`; `min_difficulty >= 1` is preserved; the tag is untouched |
| `Reset.CoalResetEpoch` | program/src/reset.rs:88-140 | past the guard and below the cap: fails only on overflow in the difficulty step; otherwise every bus becomes `(id, BUS_REWARDS/f, 0, 0)`, the config top balance is the largest prior bus top balance, rate and difficulty come from the retarget and the adjustment, and the mint is `min(MAX - supply, MAX_EPOCH/f -sat min(Σ remaining, u64::MAX))` |
| `Reset.WoodReset` | program/src/reset.rs:193-264 | before the epoch ends the reset is a no-op minting 0; every error is an overflow and leaves config and buses unchanged; the amount minted is at most the prior epoch total; `min_difficulty >= 1` is preserved |
| `Reset.WoodResetEpoch` | program/src/reset.rs:208-264 | past the guard: fails only on overflow in the difficulty step; otherwise each bus's rewards become `max(1, rewards *sat multiplier)`, which is at least 1 and (for a multiplier of at least 1) never smaller, with id, theoretical rewards and top balance untouched; the epoch total becomes the capped exact sum of the new rewards; the mint is `old total -sat min(Σ old rewards, u64::MAX)` |
| `Reset.PolicyOf` | program/src/reset.rs:15-29 | the coal tag selects coal, otherwise the wood tag selects wood, and any other byte fails with InvalidAccountData |
| `Reset.ResetTransition` | program/src/reset.rs:15-29 | the coal tag gives exactly the coal reset, otherwise the wood tag gives exactly the wood reset, and an unknown tag fails with InvalidAccountData with nothing changed; every error leaves config and buses unchanged |
| `Reset.ResetCoalBuses` | program/src/reset.rs:88-111 | the loop leaves every bus refilled and returns the saturating totals of remaining and theoretical rewards and the largest top balance of the buses as they were |
| `Reset.GrowWoodBuses` | program/src/reset.rs:208-228 | the loop leaves every bus grown and returns the largest prior top balance, the saturating total of the prior rewards and the saturating total of the grown rewards |
| `Reset.ResetCoal` | program/src/reset.rs:58-140 | the in-place coal reset on a `Config` and a bus array leaves exactly the state and result of `CoalReset` |
| `Reset.ResetWood` | program/src/reset.rs:193-264 | the in-place wood reset leaves exactly the state and result of `WoodReset` |
| `Reset.ProcessReset` | program/src/reset.rs:15-29 | the dispatching reset leaves exactly the state and result of `ResetTransition` |
| `Mine.LeBytesRoundTrip` | src/processor/mine.rs:105 | decoding the little-endian bytes of a number that fits gives the number back |
| `Mine.FromLeBytesRoundTrip` | src/processor/mine.rs:105 | encoding the value of a byte string gives the byte string back |
| `Mine.ToLeBytes` | src/processor/mine.rs:105 | `to_le_bytes` gives 8 bytes that decode to the number |
| `Mine.LexLeTotal` | src/processor/mine.rs:123 | any two hashes are comparable in the hash order |
| `Mine.LexLeAntisymmetric` | src/processor/mine.rs:123 | two hashes each at most the other are equal |
| `Mine.LexLeAllFF` | src/processor/mine.rs:139-146 | every hash is at most the all-0xFF hash |
| `Mine.LexLeAllZero` | src/processor/mine.rs:148-156 | a hash is at most the all-zero hash exactly when it is all zero |
| `Mine.Preimage` | src/processor/mine.rs:118-122 | the hashed bytes are the nonce's 8 little-endian bytes, then the current challenge, then the signer's key |
| `Mine.ValidateHash` | src/processor/mine.rs:112-127 | succeeds exactly when `H(nonce_le ‖ current_hash ‖ signer)` is at most the difficulty, returns that hash, and otherwise fails with HashInvalid |
| `Mine.ValidateHashEasiest` | src/processor/mine.rs:139-146 | with the all-0xFF difficulty validation always succeeds |
| `Mine.ValidateHashHardest` | src/processor/mine.rs:148-156 | with the all-zero difficulty validation succeeds exactly when the hash is all zero |
| `Mine.ProcessMine` | src/processor/mine.rs:55-107 | fails with NotStarted exactly when `now < START_AT`, with NeedsReset exactly when started and `now >= last_reset_at +sat EPOCH_DURATION`, with BusRewardsInsufficient exactly when the epoch is active and the bus holds less than the reward rate, and an error leaves bus and proof unchanged; on success the bus loses exactly the rate, the proof's balance, hash count and reward total grow (saturating), the challenge becomes the hash of the first 40 bytes of the slot-hashes data, no other field changes, bus + balance is conserved absent saturation, and the return data decodes to the rate |

## Left out

- Account loading, signer, PDA and discriminator checks, and the byte casts (reset.rs:34-56 and 162-191; mine.rs:42-53). Accounts are already-typed records, and the reset receives exactly 8 buses.
- The `mint_to` call (reset.rs:141-157 and 257-273). The reset returns the amount it would mint.
- `Clock::get` and `msg!`. The time is the `now` parameter.
- Keccak. It is an arbitrary function from bytes to 32-byte hashes, so nothing about its cryptographic strength is modelled.
- `Reset.HalvingExponent` uses the exact integer exponent `⌊20·supply / MAX⌋` in place of the f64 computation (reset.rs:82-83). Next to a band edge, f64 rounding may pick the neighbouring exponent. That is not modelled.
- `Mine.ProcessMine` requires the slot-hashes data to be at least 40 bytes long. The sysvar's data always is, and the code's slice `[0..40]` would panic otherwise.
- The constants' values. They are record fields, so every property holds for all values. `WOOD_PROPOGATION_MULTIPLIER` enters as the u64 its `as u64` cast gives.
- The commented-out hash check in Mine and its TODO reward multipliers (mine.rs:72-81) are not part of the modelled Mine.
- Proof-account creation (`program/src/open.rs`) is not part of this model. Nor are claim, admin, and the module re-exports.
- Concurrency between calls. Each call is one atomic step.
