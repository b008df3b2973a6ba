/** Custody of staked tokens, lock times and reward arithmetic over every run. */
module StakingProofs {
  import opened Prelude
  import opened LedgerSums
  import opened StakingSpec

  // ---------------------------------------------------------------- custody

  function Amounts(stakes: map<Address, StakeInfo>): Ledger {
    map a | a in stakes :: stakes[a].amount
  }

  function Outcome(v: Vault, e: Event): StakingSpec.Outcome {
    match e.call
    case DoStake(s, t, n) => StakeTokens(v, e.now, s, t, n).1
    case DoUnstake(s) => Unstake(v, e.now, s).1
    case DoEmergency(s) => EmergencyUnstake(v, s).1
    case _ => Ok
  }

  /** What one call leaves with the contract beyond the stakes: a penalty, or tokens somebody sent it. */
  function KeptBy(v: Vault, e: Event, token: Address): nat {
    match e.call
    case DoEmergency(s) =>
      if Outcome(v, e) == Ok && s in v.stakes && v.config.Some?
      then
        QuotientBound(v.stakes[s].amount * v.config.value.penaltyBps, 10_000);
        v.stakes[s].amount * v.config.value.penaltyBps / 10_000
      else 0
    case DoDeposit(t, account, n) => if t == token && account == v.self then n else 0
    case _ => 0
  }

  function Kept(self: Address, es: seq<Event>, token: Address): nat {
    if es == [] then 0
    else Kept(self, es[..|es| - 1], token) + KeptBy(Run(self, es[..|es| - 1]), es[|es| - 1], token)
  }

  /** The staking token never changes, rewards are paid in another one, and the contract does not stake with itself. */
  predicate Regular(self: Address, e: Event, token: Address) {
    && (e.call.DoConfig? ==> e.call.config.stakingToken == token && e.call.config.rewardPool != token)
    && (e.call.DoStake? || e.call.DoUnstake? || e.call.DoEmergency? ==> e.call.staker != self)
  }

  ghost predicate RegularRun(self: Address, es: seq<Event>, token: Address) {
    forall i :: 0 <= i < |es| ==> Regular(self, es[i], token)
  }

  ghost predicate CustodyOk(v: Vault, token: Address, kept: nat) {
    && (v.config.Some? ==> v.config.value.stakingToken == token && v.config.value.rewardPool != token
                           && v.config.value.penaltyBps <= BPS)
    && Held(v, token, v.self) == Total(Amounts(v.stakes)) + kept
  }

  lemma AmountsAfterUpdate(stakes: map<Address, StakeInfo>, a: Address, s: StakeInfo)
    ensures Amounts(stakes[a := s]) == Amounts(stakes)[a := s.amount]
    ensures Total(Amounts(stakes[a := s])) == Total(Amounts(stakes)) - Balance(Amounts(stakes), a) + s.amount
  {
    assert Amounts(stakes[a := s]) == Amounts(stakes)[a := s.amount];
    TotalAfterUpdate(Amounts(stakes), a, s.amount);
  }

  lemma AmountsAfterRemoval(stakes: map<Address, StakeInfo>, a: Address)
    requires a in stakes
    ensures Total(Amounts(stakes - {a})) == Total(Amounts(stakes)) - stakes[a].amount
    ensures stakes[a].amount <= Total(Amounts(stakes))
  {
    assert Amounts(stakes - {a}) == Amounts(stakes) - {a};
    TotalAfterRemoval(Amounts(stakes), a);
  }

  /** A transfer between two accounts moves exactly the amount, in exactly its token. */
  lemma PayMoves(v: Vault, token: Address, from: Address, to: Address, amount: nat)
    requires from != to
    ensures var p := Pay(v, token, from, to, amount);
      && (p.Some? <==> amount <= Held(v, token, from))
      && (p.Some? ==>
            && p.value == v.(balances := p.value.balances)
            && Held(p.value, token, from) == Held(v, token, from) - amount
            && Held(p.value, token, to) == Held(v, token, to) + amount
            && forall t, a :: t != token || (a != from && a != to) ==> Held(p.value, t, a) == Held(v, t, a))
  {
  }

  lemma StakeKeepsCustody(v: Vault, e: Event, token: Address, kept: nat)
    requires e.call.DoStake? && CustodyOk(v, token, kept) && Regular(v.self, e, token)
    ensures CustodyOk(Step(v, e), token, kept) && Step(v, e).self == v.self
  {
    var s, n := e.call.staker, e.call.amount;
    if Outcome(v, e) == Ok {
      PayMoves(v, token, s, v.self, n);
      AmountsAfterUpdate(v.stakes, s, Step(v, e).stakes[s]);
    }
  }

  /** The two transfers of an unstake: the principal in the staking token, then the rewards in the other one. */
  lemma UnstakePayments(v: Vault, token: Address, staker: Address, principal: nat, rewards: nat)
    requires v.config.Some? && v.config.value.stakingToken == token && v.config.value.rewardPool != token
    requires staker != v.self
    ensures var p := Pay(v, token, v.self, staker, principal);
      && (p.Some? <==> principal <= Held(v, token, v.self))
      && (p.Some? ==>
            && p.value == v.(balances := p.value.balances)
            && Held(p.value, token, v.self) == Held(v, token, v.self) - principal
            && Held(p.value, token, staker) == Held(v, token, staker) + principal
            && var q := Pay(p.value, v.config.value.rewardPool, v.self, staker, rewards);
               && (q.Some? <==> rewards <= Held(v, v.config.value.rewardPool, v.self))
               && (q.Some? ==> q.value == v.(balances := q.value.balances)
                               && Held(q.value, v.config.value.rewardPool, staker)
                                  == Held(v, v.config.value.rewardPool, staker) + rewards
                               && Held(q.value, token, v.self) == Held(v, token, v.self) - principal
                               && Held(q.value, token, staker) == Held(v, token, staker) + principal))
  {
    PayMoves(v, token, v.self, staker, principal);
    var p := Pay(v, token, v.self, staker, principal);
    if p.Some? {
      PayMoves(p.value, v.config.value.rewardPool, v.self, staker, rewards);
    }
  }

  /** The rewards an unstake would pay, if they can be computed. */
  function RewardsOf(v: Vault, now: u64, staker: Address): Option<nat>
    requires staker in v.stakes
  {
    var s := v.stakes[staker];
    if s.emergencyUnstaked then Some(0)
    else if s.tierId !in v.tiers then None
    else PendingRewards(s, v.tiers[s.tierId], now)
  }

  lemma UnstakeKeepsCustody(v: Vault, e: Event, token: Address, kept: nat)
    requires e.call.DoUnstake? && CustodyOk(v, token, kept) && Regular(v.self, e, token)
    ensures CustodyOk(Step(v, e), token, kept) && Step(v, e).self == v.self
  {
    var staker := e.call.staker;
    if staker in v.stakes && Outcome(v, e) == Ok {
      UnstakePayments(v, token, staker, v.stakes[staker].amount, RewardsOf(v, e.now, staker).value);
      AmountsAfterRemoval(v.stakes, staker);
    }
  }

  lemma PenaltyIsPart(amount: positive128, bps: u32)
    requires bps <= BPS
    ensures Penalty(amount, bps) == amount * bps / 10_000 && 0 <= Penalty(amount, bps) <= amount
  {
    ProductOrder(bps, BPS, amount);
    QuotientMonotone(amount * bps, amount * BPS, BPS);
    QuotientUnique(amount * BPS, BPS, amount, 0);
  }

  lemma EmergencyKeepsCustody(v: Vault, e: Event, token: Address, kept: nat)
    requires e.call.DoEmergency? && CustodyOk(v, token, kept) && Regular(v.self, e, token)
    ensures CustodyOk(Step(v, e), token, kept + KeptBy(v, e, token)) && Step(v, e).self == v.self
  {
    var staker := e.call.staker;
    if staker in v.stakes && Outcome(v, e) == Ok {
      var amount := v.stakes[staker].amount;
      PenaltyIsPart(amount, v.config.value.penaltyBps);
      var returned := amount - Penalty(amount, v.config.value.penaltyBps);
      PayMoves(v, token, v.self, staker, returned);
      AmountsAfterRemoval(v.stakes, staker);
    }
  }

  lemma StepKeepsCustody(v: Vault, e: Event, token: Address, kept: nat)
    requires CustodyOk(v, token, kept) && Regular(v.self, e, token)
    ensures CustodyOk(Step(v, e), token, kept + KeptBy(v, e, token)) && Step(v, e).self == v.self
  {
    match e.call
    case DoStake(_, _, _) => StakeKeepsCustody(v, e, token, kept);
    case DoUnstake(_) => UnstakeKeepsCustody(v, e, token, kept);
    case DoEmergency(_) => EmergencyKeepsCustody(v, e, token, kept);
    case _ =>
  }

  lemma {:induction false} RunKeepsCustody(self: Address, es: seq<Event>, token: Address)
    requires RegularRun(self, es, token)
    ensures CustodyOk(Run(self, es), token, Kept(self, es, token)) && Run(self, es).self == self
  {
    if es != [] {
      RunKeepsCustody(self, es[..|es| - 1], token);
      StepKeepsCustody(Run(self, es[..|es| - 1]), es[|es| - 1], token, Kept(self, es[..|es| - 1], token));
    } else {
      assert Amounts(map[]) == map[];
    }
  }

  /** With a fixed staking token that is not the reward token, the contract always holds exactly the sum of the active
      stakes, the penalties it kept, and what others sent it. */
  lemma CustodyIsExact(self: Address, es: seq<Event>, token: Address)
    requires RegularRun(self, es, token)
    ensures Held(Run(self, es), token, self) == Total(Amounts(Run(self, es).stakes)) + Kept(self, es, token)
  {
    RunKeepsCustody(self, es, token);
  }

  /** So a stake's principal can always be paid: a normal unstake succeeds exactly when the lock is over, the rewards
      can be computed and the contract has them; and it pays the staker the whole principal. */
  lemma UnstakeSucceedsExactly(self: Address, es: seq<Event>, token: Address, now: u64, staker: Address)
    requires RegularRun(self, es, token) && staker != self
    requires staker in Run(self, es).stakes && Run(self, es).config.Some?
    ensures var v := Run(self, es);
      var (w, r) := Unstake(v, now, staker);
      && (r == Ok <==>
            && now >= v.stakes[staker].unlockAt
            && RewardsOf(v, now, staker).Some?
            && Held(v, v.config.value.rewardPool, self) >= RewardsOf(v, now, staker).value)
      && (r == Ok ==>
            && staker !in w.stakes
            && Held(w, token, staker) == Held(v, token, staker) + v.stakes[staker].amount
            && var pool := v.config.value.rewardPool;
               Held(w, pool, staker) == Held(v, pool, staker) + RewardsOf(v, now, staker).value)
  {
    var v := Run(self, es);
    RunKeepsCustody(self, es, token);
    AmountsAfterRemoval(v.stakes, staker);
    if RewardsOf(v, now, staker).Some? {
      UnstakePayments(v, token, staker, v.stakes[staker].amount, RewardsOf(v, now, staker).value);
    }
  }

  /** That the reward token differs is what it takes: with custody exact before, a successful unstake leaves it exact
      if and only if rewards come in another token or come to nothing; else they are paid out of other stakes. */
  lemma UnstakeKeepsCustodyExactly(v: Vault, now: u64, staker: Address, kept: nat)
    requires v.config.Some? && staker in v.stakes && staker != v.self && Unstake(v, now, staker).1 == Ok
    requires Held(v, v.config.value.stakingToken, v.self) == Total(Amounts(v.stakes)) + kept
    ensures var w, c := Unstake(v, now, staker).0, v.config.value;
      Held(w, c.stakingToken, v.self) == Total(Amounts(w.stakes)) + kept
      <==> c.rewardPool != c.stakingToken || RewardsOf(v, now, staker) == Some(0)
  {
    var c, amount, rewards := v.config.value, v.stakes[staker].amount, RewardsOf(v, now, staker).value;
    AmountsAfterRemoval(v.stakes, staker);
    PayMoves(v, c.stakingToken, v.self, staker, amount);
    PayMoves(Pay(v, c.stakingToken, v.self, staker, amount).value, c.rewardPool, v.self, staker, rewards);
  }

  /** And an emergency withdrawal works at any time, short of an overflow: the staker gets back all but the penalty,
      which is never more than the stake. */
  lemma EmergencyAlwaysPays(self: Address, es: seq<Event>, token: Address, staker: Address)
    requires RegularRun(self, es, token) && staker != self
    requires staker in Run(self, es).stakes && Run(self, es).config.Some?
    ensures var v := Run(self, es);
      var amount, bps := v.stakes[staker].amount, v.config.value.penaltyBps;
      var (w, r) := EmergencyUnstake(v, staker);
      && (r == Ok <==> amount * bps <= I128_MAX)
      && (r == Ok ==>
            var penalty := amount * bps / 10_000;
            && staker !in w.stakes && 0 <= penalty <= amount
            && Held(w, token, staker) == Held(v, token, staker) + amount - penalty
            && Held(w, token, self) == Held(v, token, self) - amount + penalty)
  {
    var v := Run(self, es);
    RunKeepsCustody(self, es, token);
    AmountsAfterRemoval(v.stakes, staker);
    var amount, bps := v.stakes[staker].amount, v.config.value.penaltyBps;
    PenaltyIsPart(amount, bps);
    PayMoves(v, token, self, staker, amount - Penalty(amount, bps));
  }

  // ---------------------------------------------------------------- a stake is its deposits

  datatype Deposit = Deposit(amount: nat, time: u64)

  /** The deposits, in order, since the staker last withdrew. */
  function Deposits(self: Address, es: seq<Event>, staker: Address): seq<Deposit> {
    if es == [] then []
    else
      var init, e := es[..|es| - 1], es[|es| - 1];
      var before := Deposits(self, init, staker);
      if Outcome(Run(self, init), e) != Ok then before
      else
        match e.call
        case DoStake(s, t, n) => if s == staker && n >= 0 then before + [Deposit(n, e.now)] else before
        case DoUnstake(s) => if s == staker then [] else before
        case DoEmergency(s) => if s == staker then [] else before
        case _ => before
  }

  function Sum(ds: seq<Deposit>): nat {
    if ds == [] then 0 else Sum(ds[..|ds| - 1]) + ds[|ds| - 1].amount
  }

  ghost predicate ClockRunsOn(es: seq<Event>) {
    forall i, j :: 0 <= i < j < |es| ==> es[i].now <= es[j].now
  }

  /** What the storage knows of the deposits `ds`. */
  ghost predicate Records(v: Vault, staker: Address, ds: seq<Deposit>) {
    && (staker in v.stakes <==> ds != [])
    && (staker in v.stakes ==>
          var s := v.stakes[staker];
          && s.amount == Sum(ds) && s.stakedAt == ds[0].time
          && s.tierId in v.tiers
          && s.unlockAt == ds[|ds| - 1].time + v.tiers[s.tierId].lockDuration
          && s.claimedRewards == 0 && !s.emergencyUnstaked)
  }

  lemma OthersKeepRecords(v: Vault, e: Event, staker: Address, ds: seq<Deposit>)
    requires Records(v, staker, ds)
    requires (e.call.DoStake? || e.call.DoUnstake? || e.call.DoEmergency?) ==>
               e.call.staker != staker || Outcome(v, e) != Ok
    ensures Records(Step(v, e), staker, ds)
  {
  }

  lemma StakeRecords(v: Vault, e: Event, ds: seq<Deposit>)
    requires e.call.DoStake? && Records(v, e.call.staker, ds) && Outcome(v, e) == Ok
    ensures e.call.amount >= 0 && Records(Step(v, e), e.call.staker, ds + [Deposit(e.call.amount, e.now)])
  {
    assert (ds + [Deposit(e.call.amount, e.now)])[..|ds|] == ds;
  }

  lemma {:induction false} StakeIsItsDeposits(self: Address, es: seq<Event>, staker: Address)
    ensures Records(Run(self, es), staker, Deposits(self, es, staker))
  {
    if es != [] {
      var init, e := es[..|es| - 1], es[|es| - 1];
      StakeIsItsDeposits(self, init, staker);
      var v, ds := Run(self, init), Deposits(self, init, staker);
      if e.call.DoStake? && e.call.staker == staker && Outcome(v, e) == Ok {
        StakeRecords(v, e, ds);
      } else if (e.call.DoUnstake? || e.call.DoEmergency?) && e.call.staker == staker && Outcome(v, e) == Ok {
        WithdrawalRecords(v, e);
      } else {
        OthersKeepRecords(v, e, staker, ds);
      }
    }
  }

  lemma WithdrawalRecords(v: Vault, e: Event)
    requires (e.call.DoUnstake? || e.call.DoEmergency?) && Outcome(v, e) == Ok
    ensures Records(Step(v, e), e.call.staker, [])
  {
  }

  ghost predicate InOrder(ds: seq<Deposit>) {
    forall i, j :: 0 <= i < j < |ds| ==> ds[i].time <= ds[j].time
  }

  ghost predicate NoLaterThan(ds: seq<Deposit>, now: u64) {
    forall i :: 0 <= i < |ds| ==> ds[i].time <= now
  }

  lemma {:induction false} DepositsAreInOrder(self: Address, es: seq<Event>, staker: Address)
    requires ClockRunsOn(es)
    ensures InOrder(Deposits(self, es, staker))
    ensures es == [] || NoLaterThan(Deposits(self, es, staker), es[|es| - 1].now)
  {
    if es != [] {
      var init, e := es[..|es| - 1], es[|es| - 1];
      DepositsAreInOrder(self, init, staker);
      assert init != [] ==> init[|init| - 1].now <= e.now;
      var before, ds := Deposits(self, init, staker), Deposits(self, es, staker);
      assert NoLaterThan(before, e.now);
      assert ds == before || ds == [] || (exists n: nat :: ds == before + [Deposit(n, e.now)]);
    }
  }

  /** No normal unstake happens before the last deposit's lock has run out: a stake's unlock time is its last deposit
      plus the lock of a tier that can never be redefined. */
  lemma LockIsHonoured(self: Address, es: seq<Event>, staker: Address, now: u64)
    requires Unstake(Run(self, es), now, staker).1 == Ok
    ensures var ds := Deposits(self, es, staker);
      var v := Run(self, es);
      && ds != [] && staker in v.stakes && v.stakes[staker].tierId in v.tiers
      && now >= ds[|ds| - 1].time + v.tiers[v.stakes[staker].tierId].lockDuration
  {
    StakeIsItsDeposits(self, es, staker);
  }

  lemma {:induction false} TiersAreImmutable(self: Address, es: seq<Event>, k: nat, id: string)
    requires k <= |es| && id in Run(self, es[..k]).tiers
    ensures id in Run(self, es).tiers && Run(self, es).tiers[id] == Run(self, es[..k]).tiers[id]
  {
    if k == |es| {
      assert es[..k] == es;
    } else {
      assert es[..|es| - 1][..k] == es[..k];
      TiersAreImmutable(self, es[..|es| - 1], k, id);
      StepKeepsTiers(Run(self, es[..|es| - 1]), es[|es| - 1], id);
    }
  }

  lemma StepKeepsTiers(v: Vault, e: Event, id: string)
    requires id in v.tiers
    ensures id in Step(v, e).tiers && Step(v, e).tiers[id] == v.tiers[id]
  {
  }

  /** After every run the tier list names every tier once, and nothing else. */
  lemma {:induction false} TierListIsExact(self: Address, es: seq<Event>)
    ensures var v := Run(self, es);
      Distinct(v.tierList) && forall id :: id in v.tierList <==> id in v.tiers
  {
    if es != [] {
      TierListIsExact(self, es[..|es| - 1]);
      StepKeepsTierList(Run(self, es[..|es| - 1]), es[|es| - 1]);
    }
  }

  lemma StepKeepsTierList(v: Vault, e: Event)
    requires Distinct(v.tierList) && forall id :: id in v.tierList <==> id in v.tiers
    ensures var w := Step(v, e); Distinct(w.tierList) && forall id :: id in w.tierList <==> id in w.tiers
  {
    if e.call.DoTier? && e.call.id !in v.tiers {
      DistinctSnoc(v.tierList, e.call.id);
    }
  }

  // ---------------------------------------------------------------- success

  /** A stake succeeds exactly while staking is on, in a known tier, the one already chosen if any, with at least its
      minimum, with the tokens there and without an overflow. Amounts add up, the first date stays, the lock starts
      anew, and exactly the amount moves. */
  lemma StakeSucceedsExactly(v: Vault, now: u64, staker: Address, tierId: string, amount: i128)
    ensures var (w, r) := StakeTokens(v, now, staker, tierId, amount);
      && (r == Ok <==>
            && v.config.Some? && v.config.value.stakingEnabled
            && tierId in v.tiers && amount >= v.tiers[tierId].minStakeAmount
            && (staker in v.stakes ==>
                  v.stakes[staker].tierId == tierId && v.stakes[staker].amount + amount <= I128_MAX)
            && amount <= Held(v, v.config.value.stakingToken, staker)
            && now + v.tiers[tierId].lockDuration <= U64_MAX)
      && (r == Ok ==>
            && w == v.(stakes := w.stakes, balances := w.balances)
            && staker in w.stakes
            && w.stakes[staker].amount == amount + (if staker in v.stakes then v.stakes[staker].amount else 0)
            && w.stakes[staker].tierId == tierId
            && w.stakes[staker].stakedAt == (if staker in v.stakes then v.stakes[staker].stakedAt else now)
            && w.stakes[staker].unlockAt == now + v.tiers[tierId].lockDuration
            && (forall u :: u in v.stakes && u != staker ==> u in w.stakes && w.stakes[u] == v.stakes[u])
            && (forall u :: u in w.stakes && u != staker ==> u in v.stakes)
            && var token := v.config.value.stakingToken;
               if staker == v.self then Held(w, token, staker) == Held(v, token, staker)
               else Held(w, token, staker) == Held(v, token, staker) - amount
                    && Held(w, token, v.self) == Held(v, token, v.self) + amount)
      && (r != Ok ==> w == v)
  {
    if v.config.Some? && amount >= 0 && staker != v.self {
      PayMoves(v, v.config.value.stakingToken, staker, v.self, amount);
    }
  }

  lemma ConfigurationLeaves(v: Vault, caller: Address, config: StakingConfig)
    ensures var (w, r) := SetConfig(v, caller, config);
      && (r == Ok <==> v.admin == Some(caller) && config.penaltyBps <= 10_000)
      && (r == Ok ==> w == v.(config := w.config) && w.config == Some(config))
      && (r != Ok ==> w == v)
  {
  }

  lemma TierLeaves(v: Vault, caller: Address, id: string, minStake: i128, lock: u64, multiplier: u32, rate: u32)
    ensures var (w, r) := CreateTier(v, caller, id, minStake, lock, multiplier, rate);
      && (r == Ok <==>
            v.admin == Some(caller) && minStake > 0 && multiplier > 0 && 0 < rate <= 10_000 && id !in v.tiers)
      && (r == Ok ==>
            && w == v.(tiers := w.tiers, tierList := v.tierList + [id])
            && id in w.tiers && w.tiers[id] == StakingTier(minStake, lock, multiplier, rate)
            && (forall t :: t in w.tiers && t != id <==> t in v.tiers)
            && (forall t :: t in v.tiers ==> w.tiers[t] == v.tiers[t]))
      && (r != Ok ==> w == v)
  {
  }

  // ---------------------------------------------------------------- reward arithmetic

  /** What amount, rate, time and multiplier multiply up to, before the division. */
  function Product(amount: nat, rate: nat, elapsed: nat, multiplier: nat): nat {
    amount * rate * elapsed * multiplier
  }

  /** The reward in one rounding; 3,153,600,000,000,000 is 10,000 times 31,536,000 seconds times 10,000. */
  function Reward(amount: nat, tier: StakingTier, elapsed: nat): nat {
    QuotientBound(Product(amount, tier.baseRateBps, elapsed, tier.rewardMultiplierBps), 3_153_600_000_000_000);
    Product(amount, tier.baseRateBps, elapsed, tier.rewardMultiplierBps) / 3_153_600_000_000_000
  }

  /** For a stake as the storage keeps it, nothing claimed yet, rewards are computed exactly if no product overflows,
      and the two-stage division rounds only once. */
  lemma RewardIsOneFloor(s: StakeInfo, tier: StakingTier, now: u64)
    requires s.claimedRewards == 0 && !s.emergencyUnstaked
    ensures var elapsed := Max(now - s.stakedAt, 0);
      && (PendingRewards(s, tier, now).Some? <==>
            && s.amount * tier.baseRateBps <= I128_MAX
            && s.amount * tier.baseRateBps * elapsed <= I128_MAX
            && s.amount * tier.baseRateBps * elapsed * tier.rewardMultiplierBps <= I128_MAX)
      && (PendingRewards(s, tier, now).Some? ==>
            PendingRewards(s, tier, now).value
            == s.amount * tier.baseRateBps * elapsed * tier.rewardMultiplierBps / 3_153_600_000_000_000)
  {
    var product := Product(s.amount, tier.baseRateBps, Max(now - s.stakedAt, 0), tier.rewardMultiplierBps);
    TwoDivisionsAreOne(product);
    QuotientBound(product, 3_153_600_000_000_000);
  }

  lemma ProductIsMonotone(a: nat, b: nat, r: nat, s: nat, d: nat, e: nat, m: nat, n: nat)
    requires a <= b && r <= s && d <= e && m <= n
    ensures Product(a, r, d, m) <= Product(b, s, e, n)
  {
    ProductMonotone(a, b, r, s);
    ProductMonotone(a * r, b * s, d, e);
    ProductMonotone(a * r * d, b * s * e, m, n);
  }

  lemma ProductAdds(a: nat, b: nat, r: nat, d: nat, m: nat)
    ensures Product(a + b, r, d, m) == Product(a, r, d, m) + Product(b, r, d, m)
  {
    Distributes(a, b, r);
    Distributes(a * r, b * r, d);
    Distributes(a * r * d, b * r * d, m);
  }

  /** Rewards never fall when the amount, the time, the rate or the multiplier grows. */
  lemma RewardIsMonotone(a: nat, b: nat, tier: StakingTier, other: StakingTier, d: nat, e: nat)
    requires a <= b && d <= e
    requires tier.baseRateBps <= other.baseRateBps && tier.rewardMultiplierBps <= other.rewardMultiplierBps
    ensures Reward(a, tier, d) <= Reward(b, other, e)
  {
    var r, s, m, n := tier.baseRateBps, other.baseRateBps, tier.rewardMultiplierBps, other.rewardMultiplierBps;
    ProductIsMonotone(a, b, r, s, d, e, m, n);
    QuotientMonotone(Product(a, r, d, m), Product(b, s, e, n), 3_153_600_000_000_000);
  }

  /** What the deposits would have earned each on its own, from its own date. */
  function EarnedApart(ds: seq<Deposit>, tier: StakingTier, now: u64): nat {
    if ds == [] then 0
    else
      var d := ds[|ds| - 1];
      EarnedApart(ds[..|ds| - 1], tier, now) + Reward(d.amount, tier, Max(now - d.time, 0))
  }

  lemma RewardsAddUp(a: nat, b: nat, tier: StakingTier, elapsed: nat)
    ensures Reward(a, tier, elapsed) + Reward(b, tier, elapsed) <= Reward(a + b, tier, elapsed)
  {
    var r, m := tier.baseRateBps, tier.rewardMultiplierBps;
    ProductAdds(a, b, r, elapsed, m);
    QuotientSuperadditive(Product(a, r, elapsed, m), Product(b, r, elapsed, m), 3_153_600_000_000_000);
  }

  lemma {:induction false} TogetherBeatsApart(ds: seq<Deposit>, tier: StakingTier, now: u64, since: u64)
    requires forall i :: 0 <= i < |ds| ==> since <= ds[i].time
    ensures EarnedApart(ds, tier, now) <= Reward(Sum(ds), tier, Max(now - since, 0))
  {
    if ds != [] {
      var init, d := ds[..|ds| - 1], ds[|ds| - 1];
      TogetherBeatsApart(init, tier, now, since);
      RewardIsMonotone(d.amount, d.amount, tier, tier, Max(now - d.time, 0), Max(now - since, 0));
      RewardsAddUp(Sum(init), d.amount, tier, Max(now - since, 0));
    }
  }

  /** After any run and any top-ups, the reward paid is a single floor over the whole stake since its first deposit,
      and at least the sum of what each deposit would have earned alone since its own date. */
  lemma TopUpsNeverLose(self: Address, es: seq<Event>, staker: Address, now: u64)
    requires ClockRunsOn(es) && staker in Run(self, es).stakes
    requires RewardsOf(Run(self, es), now, staker).Some?
    ensures var v, ds := Run(self, es), Deposits(self, es, staker);
      && ds != [] && v.stakes[staker].tierId in v.tiers
      && var tier, elapsed := v.tiers[v.stakes[staker].tierId], Max(now - ds[0].time, 0);
         && RewardsOf(v, now, staker).value
            == Sum(ds) * tier.baseRateBps * elapsed * tier.rewardMultiplierBps / 3_153_600_000_000_000
         && RewardsOf(v, now, staker).value >= EarnedApart(ds, tier, now)
  {
    var v, ds := Run(self, es), Deposits(self, es, staker);
    StakeIsItsDeposits(self, es, staker);
    DepositsAreInOrder(self, es, staker);
    var tier := v.tiers[v.stakes[staker].tierId];
    RewardIsOneFloor(v.stakes[staker], tier, now);
    assert forall i :: 0 < i < |ds| ==> ds[0].time <= ds[i].time;
    TogetherBeatsApart(ds, tier, now, ds[0].time);
  }
}
