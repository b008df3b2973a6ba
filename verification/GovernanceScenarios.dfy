/** Runs of the entry points, from the deployed contract on, that end in the states the other modules warn of. */
module GovernanceScenarios {
  import opened Prelude
  import opened GovernanceTypes
  import opened GovernanceSpec
  import opened GovernanceSafety
  import opened GovernanceEntryPoints
  import opened GovernanceConfig
  import opened GovernanceOpenness

  // ---------------------------------------------------------------- a sole admin

  /** A contract initialised with one admin, timers as usual, can never change its multisig configuration: every such
      proposal is time-locked, and its proposer's own vote is the only one there is. */
  lemma SoleAdminIsFrozen(t: u64, a: Address, config: Option<AccessControlConfig>, more: seq<Event>)
    requires Continues(more, t)
    ensures var es := [Event(t, InitMultisig([a], 1, config), None)];
      && AtomicRun(es).rules.multisig == Some(MultiSigConfig([a], 1, 1, 1, ONE_DAY, 50, SEVEN_DAYS))
      && AtomicRun(es + more).rules.multisig == AtomicRun(es).rules.multisig
  {
    var e := Event(t, InitMultisig([a], 1, config), None);
    AtomicRunSnoc([], e);
    assert [] + [e] == [e];
    var c := InitialMultisig([a], 1);
    assert AdminSet(c) == {a};
    assert !Open(AtomicRun([e]), t);
    ClosedForever([e], more, t);
  }

  // ---------------------------------------------------------------- two admins install a configuration

  /** Two admins initialise the contract, one proposes `c` and a day later the other one approves. */
  function InstallRun(t: u64, c: MultiSigConfig): seq<Event>
    requires t + SEVEN_DAYS <= U64_MAX
  {
    [Event(t, InitMultisig([1, 2], 1, None), None), Event(t, Create(1, UpdateMultisigConfig(c)), None),
     Event(t + ONE_DAY, Approve(2, 0), None)]
  }

  function InstallProposal(t: u64, c: MultiSigConfig): Proposal
    requires t + SEVEN_DAYS <= U64_MAX
  {
    Proposal(0, 1, UpdateMultisigConfig(c), Critical, [1], [], false, t, t + SEVEN_DAYS, Some(t + ONE_DAY), 2)
  }

  lemma InstallIsProposed(t: u64, c: MultiSigConfig)
    requires t + SEVEN_DAYS <= U64_MAX
    ensures AtomicStep(State(TWO_ADMIN_RULES, NO_BOOK), Event(t, Create(1, UpdateMultisigConfig(c)), None))
         == State(TWO_ADMIN_RULES, Enqueue(NO_BOOK, InstallProposal(t, c)))
  {
    assert NewProposal(TWO_ADMINS, t, 0, 1, UpdateMultisigConfig(c)) == InstallProposal(t, c);
  }

  /** The rules are those of the start but for `c`; one proposal was made, and it is executed. */
  ghost predicate Installed(s: State, c: MultiSigConfig) {
    && s.rules == TWO_ADMIN_RULES.(multisig := Some(c))
    && s.book.counter == 1 && s.book.pending == [] && s.book.stats.pendingCount == 0
    && s.book.stats.totalCreated == 1 && s.book.stats.totalExecuted == 1
    && s.book.proposals.Keys == {0} && s.book.proposals[0].executed
  }

  lemma InstallIsApproved(t: u64, c: MultiSigConfig)
    requires t + SEVEN_DAYS <= U64_MAX && c.Validate()
    ensures Installed(AtomicStep(State(TWO_ADMIN_RULES, Enqueue(NO_BOOK, InstallProposal(t, c))),
                                 Event(t + ONE_DAY, Approve(2, 0), None)), c)
  {
    var pending: seq<u64> := NO_BOOK.pending + [NO_BOOK.counter];
    assert pending == [0] && pending[1..] == [];
    assert Without(pending, 0) == [];
  }

  /** Whatever valid configuration they agree on is in force after a day. */
  lemma TwoAdminsInstall(t: u64, c: MultiSigConfig)
    requires t + SEVEN_DAYS <= U64_MAX && c.Validate()
    ensures Installed(AtomicRun(InstallRun(t, c)), c)
  {
    var e0, e1, e2 := InstallRun(t, c)[0], InstallRun(t, c)[1], InstallRun(t, c)[2];
    AtomicRunSnoc([], e0);
    AtomicRunSnoc([e0], e1);
    AtomicRunSnoc([e0, e1], e2);
    assert [] + [e0] == [e0] && [e0] + [e1] == [e0, e1] && [e0, e1] + [e2] == InstallRun(t, c);
    TwoAdminsStart(t);
    InstallIsProposed(t, c);
    InstallIsApproved(t, c);
  }

  /** From then on governance is open exactly if `c` itself is governable. */
  lemma InstalledIsOpenExactly(t: u64, c: MultiSigConfig, now: u64)
    requires t + SEVEN_DAYS <= U64_MAX && c.Validate()
    ensures Open(AtomicRun(InstallRun(t, c)), now) <==> Governable(c, now)
  {
    TwoAdminsInstall(t, c);
  }

  // ---------------------------------------------------------------- timers

  const INVERTED := MultiSigConfig([1, 2], 1, 2, 2, 2 * SEVEN_DAYS, 50, SEVEN_DAYS)
  const ENDLESS := MultiSigConfig([1, 2], 1, 2, 2, ONE_DAY, 50, U64_MAX)

  /** Two admins can install a time-lock that outlasts the expiry. The configuration is then frozen, for the module
      with its direct execution as well as behind the entry points. */
  lemma InvertedTimersAreReachable(t: u64, more: seq<Event>)
    requires t + SEVEN_DAYS <= U64_MAX && Continues(more, t)
    ensures var es := InstallRun(t, INVERTED);
      && AtomicRun(es).rules.multisig == Some(INVERTED) && INVERTED.timeLockDuration > INVERTED.proposalExpiryDuration
      && Frozen(AtomicRun(es), INVERTED)
      && AtomicRun(es + more).rules.multisig == Some(INVERTED)
  {
    TwoAdminsInstall(t, INVERTED);
    InstalledIsOpenExactly(t, INVERTED, t);
    ClosedForever(InstallRun(t, INVERTED), more, t);
  }

  /** And they can install an expiry with which, after time zero, every creation overflows the clock. */
  lemma EndlessExpiryIsReachable(t: u64, more: seq<Event>)
    requires 0 < t && t + SEVEN_DAYS <= U64_MAX && Continues(more, t)
    ensures AtomicRun(InstallRun(t, ENDLESS)).rules.multisig == Some(ENDLESS)
    ensures AtomicRun(InstallRun(t, ENDLESS) + more).rules.multisig == Some(ENDLESS)
  {
    TwoAdminsInstall(t, ENDLESS);
    InstalledIsOpenExactly(t, ENDLESS, t);
    ClosedForever(InstallRun(t, ENDLESS), more, t);
  }

  // ---------------------------------------------------------------- an admin named twice

  const REPEATED := MultiSigConfig([1, 1, 2], 1, 1, 2, ONE_DAY, 50, SEVEN_DAYS)
  const LEFT_OVER := MultiSigConfig([2], 1, 1, 2, ONE_DAY, 50, SEVEN_DAYS)

  /** The two admins install a list that names one of them twice, and then remove that one. */
  function RemovalRun(t: u64): seq<Event>
    requires t + ONE_DAY + SEVEN_DAYS <= U64_MAX
  {
    InstallRun(t, REPEATED)
    + [Event(t + ONE_DAY, Create(2, RemoveAdmin(1)), None)] + [Event(t + 2 * ONE_DAY, Approve(1, 1), None)]
  }

  function RemovalProposal(t: u64): Proposal
    requires t + ONE_DAY + SEVEN_DAYS <= U64_MAX
  {
    Proposal(1, 2, RemoveAdmin(1), Critical, [2], [], false, t + ONE_DAY, t + ONE_DAY + SEVEN_DAYS,
             Some(t + 2 * ONE_DAY), 1)
  }

  lemma RemovalIsProposed(s: State, t: u64)
    requires t + ONE_DAY + SEVEN_DAYS <= U64_MAX && Installed(s, REPEATED)
    ensures AtomicStep(s, Event(t + ONE_DAY, Create(2, RemoveAdmin(1)), None))
         == s.(book := Enqueue(s.book, RemovalProposal(t)))
  {
    assert NewProposal(REPEATED, t + ONE_DAY, 1, 2, RemoveAdmin(1)) == RemovalProposal(t);
  }

  lemma RemovalLeavesOne()
    ensures Without([1, 1, 2], 1) == [2]
  {
    assert [1, 1, 2][1..] == [1, 2] && [1, 2][1..] == [2] && [2][1..] == [];
  }

  lemma RemovalIsApproved(s: State, t: u64)
    requires t + ONE_DAY + SEVEN_DAYS <= U64_MAX && Installed(s, REPEATED)
    ensures var u := AtomicStep(s.(book := Enqueue(s.book, RemovalProposal(t))),
                                Event(t + 2 * ONE_DAY, Approve(1, 1), None));
      u.rules.multisig == Some(LEFT_OVER)
  {
    RemovalLeavesOne();
    assert RemoveFromAdmins(REPEATED, 1) == LEFT_OVER;
  }

  /** Entry-point calls alone lead from a valid configuration to an invalid one: one admin is left, and the emergency
      threshold still asks for two. */
  lemma RemovalInvalidatesInARun(t: u64)
    requires t + ONE_DAY + SEVEN_DAYS <= U64_MAX
    ensures AtomicRun(InstallRun(t, REPEATED)).rules.multisig == Some(REPEATED) && REPEATED.Validate()
    ensures AtomicRun(RemovalRun(t)).rules.multisig == Some(LEFT_OVER) && !LEFT_OVER.Validate()
  {
    var es := InstallRun(t, REPEATED);
    var e3, e4 := Event(t + ONE_DAY, Create(2, RemoveAdmin(1)), None), Event(t + 2 * ONE_DAY, Approve(1, 1), None);
    TwoAdminsInstall(t, REPEATED);
    AtomicRunSnoc(es, e3);
    AtomicRunSnoc(es + [e3], e4);
    RemovalIsProposed(AtomicRun(es), t);
    RemovalIsApproved(AtomicRun(es), t);
  }
}
