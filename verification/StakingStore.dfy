/** The staking contract's storage, and its operations working on it in place. A token transfer writes the token
    contract's balances; when the invocation fails after one, the host takes it back. */
module StakingStore {
  import opened Prelude
  import opened StakingSpec

  datatype Rewards = Computed(value: nat) | Failed(error: Error)

  class StakingEnv {
    const self: Address
    var admin: Option<Address>
    var config: Option<StakingConfig>
    var tiers: map<string, StakingTier>
    var tierList: seq<string>
    var stakes: map<Address, StakeInfo>
    var balances: map<(Address, Address), nat>

    function Contents(): Vault
      reads this
    {
      Vault(self, admin, config, tiers, tierList, stakes, balances)
    }

    constructor (contract: Address)
      ensures Contents() == Run(contract, [])
    {
      self, admin, config := contract, None, None;
      tiers, tierList, stakes, balances := map[], [], map[], map[];
    }

    method SetStakingConfig(caller: Address, newConfig: StakingConfig) returns (r: Outcome)
      modifies this`config
      ensures (Contents(), r) == StakingSpec.SetConfig(old(Contents()), caller, newConfig)
    {
      if admin.None? { return Err(AdminNotSet); }
      if admin.value != caller { return Err(Unauthorized); }
      if newConfig.penaltyBps > 10_000 { return Err(InvalidPaymentAmount); }
      config := Some(newConfig);
      return Ok;
    }

    method CreateStakingTier(caller: Address, id: string, minStake: i128, lock: u64, multiplier: u32, rate: u32)
      returns (r: Outcome)
      modifies this`tiers, this`tierList
      ensures (Contents(), r) == StakingSpec.CreateTier(old(Contents()), caller, id, minStake, lock, multiplier, rate)
    {
      if admin.None? { return Err(AdminNotSet); }
      if admin.value != caller { return Err(Unauthorized); }
      if minStake <= 0 { return Err(InvalidPaymentAmount); }
      if multiplier == 0 { return Err(InvalidPaymentAmount); }
      if rate == 0 || rate > 10_000 { return Err(InvalidPaymentAmount); }
      if id in tiers { return Err(TierAlreadyExists); }
      tiers := tiers[id := StakingTier(minStake, lock, multiplier, rate)];
      tierList := tierList + [id];
      return Ok;
    }

    /** `token::Client::transfer`: all of the amount moves, or nothing does and the call traps. */
    method Transfer(token: Address, from: Address, to: Address, amount: nat) returns (ok: bool)
      modifies this`balances
      ensures ok == Pay(old(Contents()), token, from, to, amount).Some?
      ensures Contents() == if ok then Pay(old(Contents()), token, from, to, amount).value else old(Contents())
    {
      var available := Held(Contents(), token, from);
      if available < amount { return false; }
      balances := balances[(token, from) := available - amount];
      balances := balances[(token, to) := Held(Contents(), token, to) + amount];
      return true;
    }

    method StakeTokens(now: u64, staker: Address, tierId: string, amount: i128) returns (r: Outcome)
      modifies this`stakes, this`balances
      ensures (Contents(), r) == StakingSpec.StakeTokens(old(Contents()), now, staker, tierId, amount)
    {
      if config.None? { return Err(StakingNotConfigured); }
      if !config.value.stakingEnabled { return Err(StakingDisabled); }
      if tierId !in tiers { return Err(TierNotFound); }
      var tier := tiers[tierId];
      if amount < tier.minStakeAmount { return Err(BelowMinimumStake); }
      var saved := balances;
      if staker in stakes {
        var existing := stakes[staker];
        if existing.tierId != tierId { return Err(Unauthorized); }
        var moved := Transfer(config.value.stakingToken, staker, self, amount);
        if !moved { return Trap; }
        if existing.amount + amount > I128_MAX || now + tier.lockDuration > U64_MAX {
          balances := saved;
          return Err(Overflow);
        }
        stakes := stakes[staker := StakeInfo(existing.amount + amount, tierId, existing.stakedAt,
                                             now + tier.lockDuration, existing.claimedRewards, false)];
        return Ok;
      }
      var moved := Transfer(config.value.stakingToken, staker, self, amount);
      if !moved { return Trap; }
      if now + tier.lockDuration > U64_MAX {
        balances := saved;
        return Err(Overflow);
      }
      stakes := stakes[staker := StakeInfo(amount, tierId, now, now + tier.lockDuration, 0, false)];
      return Ok;
    }

    /** The arithmetic of `calculate_pending_rewards`, one checked operation at a time. */
    method CheckedRewards(now: u64, stake: StakeInfo, tier: StakingTier) returns (pending: Option<nat>)
      requires !stake.emergencyUnstaked
      ensures pending == PendingRewards(stake, tier, now)
    {
      var elapsed := if now >= stake.stakedAt then now - stake.stakedAt else 0;
      var product := stake.amount * tier.baseRateBps;
      if product > I128_MAX { return None; }
      product := product * elapsed;
      if product > I128_MAX { return None; }
      product := product * tier.rewardMultiplierBps;
      if product > I128_MAX { return None; }
      var gross := product / (BPS * YEAR_SECS) / BPS;
      if gross - stake.claimedRewards > I128_MAX || gross < stake.claimedRewards { return Some(0); }
      return Some(gross - stake.claimedRewards);
    }

    /** `RewardsModule::calculate_pending_rewards`. */
    method CalculatePendingRewards(now: u64, stake: StakeInfo) returns (r: Rewards)
      ensures stake.emergencyUnstaked ==> r == Computed(0)
      ensures !stake.emergencyUnstaked && stake.tierId !in tiers ==> r == Failed(TierNotFound)
      ensures !stake.emergencyUnstaked && stake.tierId in tiers ==>
                var tier, elapsed := tiers[stake.tierId], Max(now - stake.stakedAt, 0);
                var product := stake.amount * tier.baseRateBps * elapsed * tier.rewardMultiplierBps;
                && (r == Failed(Overflow) <==>
                      || stake.amount * tier.baseRateBps > I128_MAX
                      || stake.amount * tier.baseRateBps * elapsed > I128_MAX || product > I128_MAX)
                && (r.Computed? <==> r != Failed(Overflow))
                && var due := product / 3_153_600_000_000_000 - stake.claimedRewards;
                && (r.Computed? ==> r.value == (if due > I128_MAX then 0 else Max(due, 0))
                                    && PendingRewards(stake, tier, now) == Some(r.value))
                && (r.Failed? ==> PendingRewards(stake, tier, now).None?)
    {
      if stake.emergencyUnstaked { return Computed(0); }
      if stake.tierId !in tiers { return Failed(TierNotFound); }
      PendingClosedForm(stake, tiers[stake.tierId], now);
      var pending := CheckedRewards(now, stake, tiers[stake.tierId]);
      return if pending.Some? then Computed(pending.value) else Failed(Overflow);
    }

    method UnstakeTokens(now: u64, staker: Address) returns (r: Outcome)
      modifies this`stakes, this`balances
      ensures (Contents(), r) == StakingSpec.Unstake(old(Contents()), now, staker)
    {
      if config.None? { return Err(StakingNotConfigured); }
      if staker !in stakes { return Err(StakeNotFound); }
      var stake := stakes[staker];
      if now < stake.unlockAt { return Err(StillLocked); }
      var rewards := CalculatePendingRewards(now, stake);
      if rewards.Failed? { return Err(rewards.error); }
      var saved := balances;
      var moved := Transfer(config.value.stakingToken, self, staker, stake.amount);
      if !moved { return Trap; }
      if rewards.value > 0 {
        moved := Transfer(config.value.rewardPool, self, staker, rewards.value);
        if !moved {
          balances := saved;
          return Trap;
        }
      }
      stakes := stakes - {staker};
      return Ok;
    }

    method EmergencyUnstake(staker: Address) returns (r: Outcome)
      modifies this`stakes, this`balances
      ensures (Contents(), r) == StakingSpec.EmergencyUnstake(old(Contents()), staker)
    {
      if config.None? { return Err(StakingNotConfigured); }
      if staker !in stakes { return Err(StakeNotFound); }
      var stake := stakes[staker];
      if stake.amount * config.value.penaltyBps > I128_MAX { return Err(Overflow); }
      var penalty := stake.amount * config.value.penaltyBps / 10_000;
      var amountReturned := stake.amount - penalty;
      if amountReturned > 0 {
        var moved := Transfer(config.value.stakingToken, self, staker, amountReturned);
        if !moved { return Trap; }
      }
      stakes := stakes - {staker};
      return Ok;
    }
  }
}
