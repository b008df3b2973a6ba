/** A run, from the deployed contract on, in which one staker's rewards are paid out of another one's stake. */
module StakingScenario {
  import opened Prelude
  import opened StakingSpec
  import opened StakingProofs

  const CONTRACT: Address := 0
  const TOKEN: Address := 7
  const SHARED := StakingConfig(true, 0, TOKEN, TOKEN)
  const GOLD := StakingTier(1, 0, 10_000, 10_000)

  /** What two accounts can stake for a year without an overflow. */
  predicate Stakeable(n: nat) {
    0 < n <= 1_000_000_000_000_000_000
  }

  lemma RunSnoc(self: Address, es: seq<Event>, e: Event)
    ensures Run(self, es + [e]) == Step(Run(self, es), e)
  {
    assert (es + [e])[..|es|] == es;
  }

  /** The administrator pays rewards in the staking token and opens a tier; accounts 1 and 2 receive `n` tokens each. */
  function OpenRun(t: u64, n: nat): seq<Event> {
    [Event(t, DoAdmin(9))] + [Event(t, DoConfig(9, SHARED))] + [Event(t, DoTier(9, "gold", 1, 0, 10_000, 10_000))]
    + [Event(t, DoDeposit(TOKEN, 1, n))] + [Event(t, DoDeposit(TOKEN, 2, n))]
  }

  /** Both stake all they have, and a year later account 1 withdraws. */
  function DrainRun(t: u64, n: nat): seq<Event>
    requires Stakeable(n) && t + YEAR_SECS <= U64_MAX
  {
    OpenRun(t, n) + [Event(t, DoStake(1, "gold", n))] + [Event(t, DoStake(2, "gold", n))]
    + [Event(t + YEAR_SECS, DoUnstake(1))]
  }

  function Configured(): Vault {
    Vault(CONTRACT, Some(9), Some(SHARED), map["gold" := GOLD], ["gold"], map[], map[])
  }

  lemma ConfigurationSteps(t: u64)
    ensures var v := Vault(CONTRACT, None, None, map[], [], map[], map[]);
      Step(Step(Step(v, Event(t, DoAdmin(9))), Event(t, DoConfig(9, SHARED))),
           Event(t, DoTier(9, "gold", 1, 0, 10_000, 10_000))) == Configured()
  {
  }

  ghost predicate Opened(v: Vault, n: nat) {
    && v.self == CONTRACT && v.config == Some(SHARED)
    && v.tiers == map["gold" := GOLD] && v.stakes == map[]
    && Held(v, TOKEN, 1) == n && Held(v, TOKEN, 2) == n && Held(v, TOKEN, CONTRACT) == 0
  }

  lemma DepositSteps(t: u64, n: nat)
    ensures Opened(Step(Step(Configured(), Event(t, DoDeposit(TOKEN, 1, n))), Event(t, DoDeposit(TOKEN, 2, n))), n)
  {
  }

  lemma OpenReaches(t: u64, n: nat)
    ensures Opened(Run(CONTRACT, OpenRun(t, n)), n)
  {
    var e0, e1, e2 := Event(t, DoAdmin(9)), Event(t, DoConfig(9, SHARED)),
                      Event(t, DoTier(9, "gold", 1, 0, 10_000, 10_000));
    var e3, e4 := Event(t, DoDeposit(TOKEN, 1, n)), Event(t, DoDeposit(TOKEN, 2, n));
    RunSnoc(CONTRACT, [], e0);
    assert [] + [e0] == [e0];
    RunSnoc(CONTRACT, [e0], e1);
    RunSnoc(CONTRACT, [e0] + [e1], e2);
    RunSnoc(CONTRACT, [e0] + [e1] + [e2], e3);
    RunSnoc(CONTRACT, [e0] + [e1] + [e2] + [e3], e4);
    ConfigurationSteps(t);
    DepositSteps(t, n);
  }

  function StakeOf(t: u64, n: nat): StakeInfo
    requires Stakeable(n)
  {
    StakeInfo(n, "gold", t, t, 0, false)
  }

  /** Both have staked. */
  ghost predicate BothStaked(v: Vault, t: u64, n: nat)
    requires Stakeable(n)
  {
    && v.self == CONTRACT && v.config == Some(SHARED)
    && v.tiers == map["gold" := GOLD] && v.stakes == map[1 := StakeOf(t, n), 2 := StakeOf(t, n)]
    && Held(v, TOKEN, 1) == 0 && Held(v, TOKEN, 2) == 0 && Held(v, TOKEN, CONTRACT) == 2 * n
  }

  lemma BothStake(v: Vault, t: u64, n: nat)
    requires Stakeable(n) && Opened(v, n)
    ensures BothStaked(Step(Step(v, Event(t, DoStake(1, "gold", n))), Event(t, DoStake(2, "gold", n))), t, n)
  {
  }

  /** After a year at a hundred per cent the reward equals the stake. */
  lemma YearDoubles(t: u64, n: nat)
    requires Stakeable(n) && t + YEAR_SECS <= U64_MAX
    ensures PendingRewards(StakeOf(t, n), GOLD, t + YEAR_SECS) == Some(n)
  {
    RewardIsOneFloor(StakeOf(t, n), GOLD, t + YEAR_SECS);
    QuotientUnique(n * 10_000 * 31_536_000 * 10_000, 3_153_600_000_000_000, n, 0);
  }

  /** The contract's state when account 1 has gone. */
  ghost predicate Drained(v: Vault, t: u64, n: nat)
    requires Stakeable(n)
  {
    && v.self == CONTRACT && v.config == Some(SHARED) && v.tiers == map["gold" := GOLD]
    && v.stakes == map[2 := StakeOf(t, n)]
    && Held(v, TOKEN, 1) == 2 * n && Held(v, TOKEN, CONTRACT) == 0
  }

  lemma FirstWithdraws(v: Vault, t: u64, n: nat)
    requires Stakeable(n) && t + YEAR_SECS <= U64_MAX && BothStaked(v, t, n)
    ensures Drained(Step(v, Event(t + YEAR_SECS, DoUnstake(1))), t, n)
  {
    YearDoubles(t, n);
    PayMoves(v, TOKEN, CONTRACT, 1, n);
    PayMoves(Pay(v, TOKEN, CONTRACT, 1, n).value, TOKEN, CONTRACT, 1, n);
    assert v.stakes - {1} == map[2 := StakeOf(t, n)];
  }

  lemma SecondGetsNothing(v: Vault, t: u64, n: nat, later: u64)
    requires Stakeable(n) && Drained(v, t, n)
    ensures Unstake(v, later, 2).1 != Ok && EmergencyUnstake(v, 2).1 == Trap
  {
    QuotientUnique(0, BPS, 0, 0);
    assert Penalty(n, 0) == 0;
  }

  /** The first to withdraw takes everything: the contract is left without a token while account 2 still has `n`
      staked, and neither a normal nor an emergency withdrawal can pay any of it back. */
  lemma RewardsDrainAnotherStake(t: u64, n: nat, later: u64)
    requires Stakeable(n) && t + YEAR_SECS <= later
    ensures var v := Run(CONTRACT, DrainRun(t, n));
      && 1 !in v.stakes && Held(v, TOKEN, 1) == 2 * n
      && 2 in v.stakes && v.stakes[2].amount == n && Held(v, TOKEN, CONTRACT) == 0
      && Unstake(v, later, 2).1 != Ok && EmergencyUnstake(v, 2).1 == Trap
  {
    var e1, e2 := Event(t, DoStake(1, "gold", n)), Event(t, DoStake(2, "gold", n));
    var e3 := Event(t + YEAR_SECS, DoUnstake(1));
    var es := OpenRun(t, n);
    OpenReaches(t, n);
    RunSnoc(CONTRACT, es, e1);
    RunSnoc(CONTRACT, es + [e1], e2);
    RunSnoc(CONTRACT, es + [e1] + [e2], e3);
    BothStake(Run(CONTRACT, es), t, n);
    FirstWithdraws(Run(CONTRACT, es + [e1] + [e2]), t, n);
    SecondGetsNothing(Run(CONTRACT, DrainRun(t, n)), t, n, later);
  }
}
