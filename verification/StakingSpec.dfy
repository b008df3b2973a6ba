/** Staking, its rewards and the token balances it moves, as functions on a state
    (contracts/manage_hub/src/staking.rs, rewards.rs). A failed invocation leaves no writes. */
module StakingSpec {
  import opened Prelude

  const BPS: nat := 10_000
  const YEAR_SECS: nat := 365 * 24 * 60 * 60

  datatype StakingConfig = StakingConfig(
    stakingEnabled: bool, penaltyBps: u32, stakingToken: Address, rewardPool: Address)

  /** A tier as stored: `create_staking_tier` lets no other through. */
  datatype StakingTier = StakingTier(
    minStakeAmount: positive128, lockDuration: u64, rewardMultiplierBps: u32, baseRateBps: u32)

  datatype StakeInfo = StakeInfo(amount: positive128, tierId: string, stakedAt: u64, unlockAt: u64,
                                 claimedRewards: i128, emergencyUnstaked: bool)

  datatype Error =
    | AdminNotSet | Unauthorized | InvalidPaymentAmount | TierAlreadyExists | TierNotFound
    | StakingNotConfigured | StakingDisabled | BelowMinimumStake | StakeNotFound | StillLocked | Overflow

  /** `Trap`: a token contract refused a transfer, which ends the invocation. */
  datatype Outcome = Ok | Err(error: Error) | Trap

  /** `balances` maps a token and an account to what the account has of it; it belongs to the token contracts. */
  datatype Vault = Vault(
    self: Address,
    admin: Option<Address>,
    config: Option<StakingConfig>,
    tiers: map<string, StakingTier>,
    tierList: seq<string>,
    stakes: map<Address, StakeInfo>,
    balances: map<(Address, Address), nat>)

  function Held(v: Vault, token: Address, account: Address): nat {
    if (token, account) in v.balances then v.balances[(token, account)] else 0
  }

  /** `token::Client::transfer`. */
  function Pay(v: Vault, token: Address, from: Address, to: Address, amount: nat): Option<Vault> {
    if Held(v, token, from) < amount then None
    else
      var paid := v.(balances := v.balances[(token, from) := Held(v, token, from) - amount]);
      Some(paid.(balances := paid.balances[(token, to) := Held(paid, token, to) + amount]))
  }

  // ---------------------------------------------------------------- rewards

  function Gross(amount: nat, tier: StakingTier, elapsed: nat): nat {
    amount * tier.baseRateBps * elapsed * tier.rewardMultiplierBps
  }

  function Elapsed(now: u64, since: u64): nat {
    if now >= since then now - since else 0
  }

  /** `calculate_pending_rewards`, with its three checked multiplications and two divisions; None is Overflow. */
  function PendingRewards(s: StakeInfo, tier: StakingTier, now: u64): Option<nat> {
    if s.emergencyUnstaked then Some(0)
    else
      var elapsed := Elapsed(now, s.stakedAt);
      if s.amount * tier.baseRateBps > I128_MAX then None
      else if s.amount * tier.baseRateBps * elapsed > I128_MAX then None
      else if s.amount * tier.baseRateBps * elapsed * tier.rewardMultiplierBps > I128_MAX then None
      else
        var gross := Gross(s.amount, tier, elapsed) / (BPS * YEAR_SECS) / BPS;
        if gross - s.claimedRewards > I128_MAX then Some(0)
        else Some(Max(gross - s.claimedRewards, 0))
  }

  /** Dividing by ten thousand times the seconds of a year, and then by ten thousand, is one division. */
  lemma TwoDivisionsAreOne(n: nat)
    ensures n / (10_000 * 31_536_000) / 10_000 == n / 3_153_600_000_000_000 >= 0
  {
    QuotientOfQuotient(n, 10_000 * 31_536_000, 10_000);
    QuotientBound(n, 3_153_600_000_000_000);
  }

  /** The pending rewards in closed form: one rounding of amount * rate * elapsed * multiplier, less what was claimed;
      none exactly if a product overflows. */
  lemma PendingClosedForm(s: StakeInfo, tier: StakingTier, now: u64)
    requires !s.emergencyUnstaked
    ensures var elapsed := Max(now - s.stakedAt, 0);
      var product := s.amount * tier.baseRateBps * elapsed * tier.rewardMultiplierBps;
      var pending := PendingRewards(s, tier, now);
      && (pending.None? <==>
            || s.amount * tier.baseRateBps > I128_MAX || s.amount * tier.baseRateBps * elapsed > I128_MAX
            || product > I128_MAX)
      && var due := product / 3_153_600_000_000_000 - s.claimedRewards;
      && (pending.Some? ==> pending.value == if due > I128_MAX then 0 else Max(due, 0))
  {
    var product: nat := Gross(s.amount, tier, Elapsed(now, s.stakedAt));
    TwoDivisionsAreOne(product);
    QuotientBound(product, 3_153_600_000_000_000);
  }

  // ---------------------------------------------------------------- operations

  function SetConfig(v: Vault, admin: Address, config: StakingConfig): (Vault, Outcome) {
    if v.admin.None? then (v, Err(AdminNotSet))
    else if v.admin.value != admin then (v, Err(Unauthorized))
    else if config.penaltyBps > BPS then (v, Err(InvalidPaymentAmount))
    else (v.(config := Some(config)), Ok)
  }

  function CreateTier(v: Vault, admin: Address, id: string, minStake: i128, lock: u64, multiplier: u32,
                      rate: u32): (Vault, Outcome) {
    if v.admin.None? then (v, Err(AdminNotSet))
    else if v.admin.value != admin then (v, Err(Unauthorized))
    else if minStake <= 0 || multiplier == 0 || rate == 0 || rate > BPS then (v, Err(InvalidPaymentAmount))
    else if id in v.tiers then (v, Err(TierAlreadyExists))
    else (v.(tiers := v.tiers[id := StakingTier(minStake, lock, multiplier, rate)], tierList := v.tierList + [id]), Ok)
  }

  function StakeTokens(v: Vault, now: u64, staker: Address, tierId: string, amount: i128): (Vault, Outcome) {
    if v.config.None? then (v, Err(StakingNotConfigured))
    else if !v.config.value.stakingEnabled then (v, Err(StakingDisabled))
    else if tierId !in v.tiers then (v, Err(TierNotFound))
    else if amount < v.tiers[tierId].minStakeAmount then (v, Err(BelowMinimumStake))
    else if staker in v.stakes && v.stakes[staker].tierId != tierId then (v, Err(Unauthorized))
    else
      var paid := Pay(v, v.config.value.stakingToken, staker, v.self, amount);
      var before := if staker in v.stakes then v.stakes[staker].amount else 0;
      if paid.None? then (v, Trap)
      else if before + amount > I128_MAX then (v, Err(Overflow))
      else if now + v.tiers[tierId].lockDuration > U64_MAX then (v, Err(Overflow))
      else
        var unlockAt := now + v.tiers[tierId].lockDuration;
        var stake :=
          if staker in v.stakes then
            StakeInfo(before + amount, tierId, v.stakes[staker].stakedAt, unlockAt, v.stakes[staker].claimedRewards,
                      false)
          else StakeInfo(amount, tierId, now, unlockAt, 0, false);
        (paid.value.(stakes := v.stakes[staker := stake]), Ok)
  }

  function Unstake(v: Vault, now: u64, staker: Address): (Vault, Outcome) {
    if v.config.None? then (v, Err(StakingNotConfigured))
    else if staker !in v.stakes then (v, Err(StakeNotFound))
    else
      var s := v.stakes[staker];
      if now < s.unlockAt then (v, Err(StillLocked))
      else if s.tierId !in v.tiers && !s.emergencyUnstaked then (v, Err(TierNotFound))
      else
        var rewards := if s.emergencyUnstaked then Some(0) else PendingRewards(s, v.tiers[s.tierId], now);
        if rewards.None? then (v, Err(Overflow))
        else
          var principal := Pay(v, v.config.value.stakingToken, v.self, staker, s.amount);
          if principal.None? then (v, Trap)
          else
            var paid := if rewards.value > 0
                        then Pay(principal.value, v.config.value.rewardPool, v.self, staker, rewards.value)
                        else principal;
            if paid.None? then (v, Trap)
            else (paid.value.(stakes := v.stakes - {staker}), Ok)
  }

  /** The part of an emergency withdrawal that stays behind. */
  function Penalty(amount: positive128, penaltyBps: u32): nat {
    amount * penaltyBps / BPS
  }

  function EmergencyUnstake(v: Vault, staker: Address): (Vault, Outcome) {
    if v.config.None? then (v, Err(StakingNotConfigured))
    else if staker !in v.stakes then (v, Err(StakeNotFound))
    else
      var s, c := v.stakes[staker], v.config.value;
      if s.amount * c.penaltyBps > I128_MAX then (v, Err(Overflow))
      else
        var returned := s.amount - Penalty(s.amount, c.penaltyBps);
        var paid := if returned > 0 then Pay(v, c.stakingToken, v.self, staker, returned) else Some(v);
        if paid.None? then (v, Trap)
        else (paid.value.(stakes := v.stakes - {staker}), Ok)
  }

  // ---------------------------------------------------------------- runs

  datatype Call =
    | DoAdmin(user: Address)
    | DoConfig(caller: Address, config: StakingConfig)
    | DoTier(caller: Address, id: string, minStake: i128, lock: u64, multiplier: u32, rate: u32)
    | DoStake(staker: Address, tierId: string, amount: i128)
    | DoUnstake(staker: Address)
    | DoEmergency(staker: Address)
    | DoDeposit(token: Address, account: Address, units: nat)  // somebody else's token transfer

  datatype Event = Event(now: u64, call: Call)

  function Step(v: Vault, e: Event): Vault {
    match e.call
    case DoAdmin(a) => v.(admin := Some(a))
    case DoConfig(a, c) => SetConfig(v, a, c).0
    case DoTier(a, id, m, l, x, r) => CreateTier(v, a, id, m, l, x, r).0
    case DoStake(s, t, n) => StakeTokens(v, e.now, s, t, n).0
    case DoUnstake(s) => Unstake(v, e.now, s).0
    case DoEmergency(s) => EmergencyUnstake(v, s).0
    case DoDeposit(token, account, n) => v.(balances := v.balances[(token, account) := Held(v, token, account) + n])
  }

  function Run(self: Address, es: seq<Event>): Vault {
    if es == [] then Vault(self, None, None, map[], [], map[], map[])
    else Step(Run(self, es[..|es| - 1]), es[|es| - 1])
  }
}
