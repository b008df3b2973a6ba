/** Validity of the multisig configuration across the proposals that rewrite it. */
module GovernanceConfig {
  import opened Prelude
  import opened GovernanceTypes
  import opened GovernanceSpec
  import opened GovernanceLedger
  import opened GovernanceSafety

  /** A configuration that passes `validate` and names no admin twice. */
  ghost predicate Sane(c: MultiSigConfig) {
    c.Validate() && Distinct(c.admins)
  }

  /** The thresholds `initialize_multisig` computes always pass `validate`, so its InvalidMultisigConfig error is
      never returned, and a successful initialisation installs a sane configuration. */
  lemma InitialisationIsSane(s: State, admins: seq<Address>, required: u32, config: Option<AccessControlConfig>)
    ensures var (t, r) := InitializeMultisig(s, admins, required, config);
      && r != Err(InvalidMultisigConfig)
      && (r.Ok? ==> t.rules.multisig.Some? && Sane(t.rules.multisig.value)
                    && t.rules.multisig.value.admins == admins
                    && t.rules.multisig.value.requiredSignatures == required)
  {
  }

  // ---------------------------------------------------------------- one action

  /** `RemoveAdmin(a)` leaves a valid configuration valid exactly when enough admin entries other than `a` remain
      for the emergency threshold. `validate` admits repeated admins, and one removal drops every copy. */
  lemma RemovalKeepsValidityExactly(g: Rules, a: Address)
    requires g.multisig.Some? && g.multisig.value.Validate()
    requires |g.multisig.value.admins| > g.multisig.value.emergencyThreshold
    ensures var c := g.multisig.value;
      var d := RunAction(g, RemoveAdmin(a), None).0.multisig.value;
      d.Validate() <==> |c.admins| - multiset(c.admins)[a] >= c.emergencyThreshold
  {
    WithoutLength(g.multisig.value.admins, a);
  }

  /** One of two admins listed twice: valid, and no longer valid after one removal. GovernanceScenarios has a run that
      gets there. */
  lemma RemovalCanInvalidate()
    ensures var c := MultiSigConfig([7, 7, 8], 1, 1, 2, ONE_DAY, 50, SEVEN_DAYS);
      var g := NO_RULES.(initialized := true, multisig := Some(c));
      var (h, r) := RunAction(g, RemoveAdmin(7), None);
      c.Validate() && r.Ok? && h.multisig.Some? && !h.multisig.value.Validate()
  {
    assert Without([7, 7, 8], 7) == [8] by {
      assert [7, 7, 8][1..] == [7, 8] && [7, 8][1..] == [8] && [8][1..] == [];
    }
  }

  predicate InstallsSaneAdmins(action: ProposalAction) {
    action.UpdateMultisigConfig? ==> !HasDuplicate(action.newConfig.admins)
  }

  lemma ActionKeepsSanity(g: Rules, action: ProposalAction, balance: Option<i128>)
    requires g.multisig.Some? && Sane(g.multisig.value) && InstallsSaneAdmins(action)
    ensures var h := RunAction(g, action, balance).0;
            h.multisig.Some? && Sane(h.multisig.value)
  {
    var c := g.multisig.value;
    match action
    case AddAdmin(a) => if a !in c.admins { DistinctSnoc(c.admins, a); }
    case RemoveAdmin(a) => WithoutKeepsDistinct(c.admins, a);
    case _ =>
  }

  // ---------------------------------------------------------------- every run

  /** Every configuration a proposal of the run asks to install names its admins once. */
  ghost predicate ProposesSaneAdmins(es: seq<Event>) {
    forall k :: 0 <= k < |es| && es[k].call.Create? ==> InstallsSaneAdmins(es[k].call.action)
  }

  lemma {:induction false} StoredActionsAreSane(es: seq<Event>, id: u64)
    requires ProposesSaneAdmins(es) && id in Run(es).book.proposals
    ensures InstallsSaneAdmins(Run(es).book.proposals[id].action)
  {
    TermsAreFixedAtCreation(es, id);
    var p := Run(es).book.proposals[id];
    var k :| 0 <= k < |es| && CreatesOnTerms(Run(es[..k]), es[k], p);
    assert es[k].call.Create?;
  }

  /** In a run whose proposals never list an admin twice, the multisig configuration in force is always valid:
      0 < required <= critical <= emergency <= number of admins, all of them different. */
  lemma {:induction false} ConfigurationStaysSane(es: seq<Event>)
    requires ProposesSaneAdmins(es)
    ensures Run(es).rules.multisig.Some? ==> Sane(Run(es).rules.multisig.value)
  {
    if es != [] {
      var init, e := es[..|es| - 1], es[|es| - 1];
      ConfigurationStaysSane(init);
      RunKeeps(init);
      if Run(init).rules.multisig.Some? {
        StepRatchets(Run(init), e);
        ExecutedActionKeepsSanity(es);
      } else {
        MultisigStartsSane(Run(init), e);
      }
    }
  }

  lemma MultisigStartsSane(s: State, e: Event)
    requires StateOk(s) && s.rules.multisig.None?
    ensures var t := Step(s, e).0; t.rules.multisig.Some? ==> Sane(t.rules.multisig.value)
  {
    if IsDirect(e.call) {
      DirectKeeps(s.rules, e);
    } else {
      match e.call
      case InitMultisig(admins, n, c) => InitialisationIsSane(s, admins, n, c);
      case _ =>
    }
  }

  lemma ExecutedActionKeepsSanity(es: seq<Event>)
    requires es != [] && ProposesSaneAdmins(es)
    requires var s := Run(es[..|es| - 1]);
      && s.rules.multisig.Some? && Sane(s.rules.multisig.value)
      && ChangedByExecution(s, Run(es), es[|es| - 1].balance)
    ensures Run(es).rules.multisig.Some? && Sane(Run(es).rules.multisig.value)
  {
    var s, t, balance := Run(es[..|es| - 1]), Run(es), es[|es| - 1].balance;
    if GovernedOf(t.rules) != GovernedOf(s.rules) {
      var id :| Flips(s.book, t.book, id)
             && GovernedOf(t.rules) == GovernedOf(RunAction(s.rules, t.book.proposals[id].action, balance).0);
      StoredActionsAreSane(es, id);
      ActionKeepsSanity(s.rules, t.book.proposals[id].action, balance);
    }
  }

  // ---------------------------------------------------------------- the time-lock trap

  /** The configuration is `c` and no unexecuted proposal that could replace it can still be executed. */
  ghost predicate Frozen(s: State, c: MultiSigConfig) {
    && s.rules.multisig == Some(c)
    && forall id :: id in s.book.proposals && !s.book.proposals[id].executed
                    && s.book.proposals[id].proposalType.RequiresTimeLock()
                    ==> s.book.proposals[id].timeLockUntil.Some?
                        && s.book.proposals[id].timeLockUntil.value > s.book.proposals[id].expiry
  }

  lemma OnlyTimeLockedActionsTouchMultisig(g: Rules, action: ProposalAction, balance: Option<i128>)
    requires !action.ClassifyType().RequiresTimeLock()
    ensures RunAction(g, action, balance).0.multisig == g.multisig
  {
  }

  lemma FrozenStep(s: State, e: Event, c: MultiSigConfig)
    requires StateOk(s) && Frozen(s, c) && c.timeLockDuration > c.proposalExpiryDuration
    ensures Frozen(Step(s, e).0, c)
  {
    var t := Step(s, e).0;
    StepKeeps(s, e);
    StepRatchets(s, e);
    forall id | id in t.book.proposals && t.book.proposals[id].proposalType.RequiresTimeLock()
                && (id !in s.book.proposals || !s.book.proposals[id].executed)
      ensures !t.book.proposals[id].executed
      ensures t.book.proposals[id].timeLockUntil.Some?
      ensures t.book.proposals[id].timeLockUntil.value > t.book.proposals[id].expiry
    {
      StepIsLegal(s, e, id);
    }
    if GovernedOf(t.rules) != GovernedOf(s.rules) {
      var id :| Flips(s.book, t.book, id)
             && GovernedOf(t.rules) == GovernedOf(RunAction(s.rules, t.book.proposals[id].action, e.balance).0);
      assert ProposalOk(t.book.proposals[id], id);
      OnlyTimeLockedActionsTouchMultisig(s.rules, t.book.proposals[id].action, e.balance);
    }
    forall id | id in s.book.proposals && s.book.proposals[id].executed && id in t.book.proposals
      ensures t.book.proposals[id].executed
    {
      StepIsLegal(s, e, id);
    }
  }

  /** `validate` does not compare the two durations. Once a configuration whose time-lock outlasts the proposal
      expiry is in force, and no earlier critical proposal is still open, it is in force forever, even where
      `execute_proposal` can be called directly. What closes governance behind the entry points, exactly, is in
      GovernanceOpenness. */
  lemma {:induction false} InvertedTimersFreezeTheConfiguration(es: seq<Event>, k: nat, c: MultiSigConfig)
    requires k <= |es| && Frozen(Run(es[..k]), c) && c.timeLockDuration > c.proposalExpiryDuration
    ensures Frozen(Run(es), c)
  {
    if k == |es| {
      assert es[..k] == es;
    } else {
      Prefixes(es, k);
      InvertedTimersFreezeTheConfiguration(es[..|es| - 1], k, c);
      RunKeeps(es[..|es| - 1]);
      FrozenStep(Run(es[..|es| - 1]), es[|es| - 1], c);
    }
  }

  /** Exactly the configurations whose time-lock does not outlast the expiry leave a critical proposal with enough
      approvals a moment at which a direct `execute_proposal` would run it. Behind the entry points that is necessary
      and not sufficient. */
  lemma CriticalWindowIsOpenExactly(c: MultiSigConfig, now: u64, id: u64, a: Address, action: ProposalAction,
                                    approvals: seq<Address>)
    requires now + c.proposalExpiryDuration <= U64_MAX && now + c.timeLockDuration <= U64_MAX
    requires action.ClassifyType().RequiresTimeLock() && |approvals| >= c.criticalThreshold
    ensures var p := NewProposal(c, now, id, a, action).(approvals := approvals);
      (exists later: u64 :: InWindow(p, later)) <==> c.timeLockDuration <= c.proposalExpiryDuration
  {
    var p := NewProposal(c, now, id, a, action).(approvals := approvals);
    if c.timeLockDuration <= c.proposalExpiryDuration {
      assert InWindow(p, p.expiry);
    }
  }
}
