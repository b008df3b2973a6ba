/** What the membership check guards: who can come by a role. */
module GovernanceRoles {
  import opened Prelude
  import opened GovernanceTypes
  import opened GovernanceSpec
  import opened GovernanceLedger
  import opened GovernanceSafety

  /** The configuration asks for no membership, or the membership contract answers with a sufficient balance. */
  predicate MembershipMet(config: AccessControlConfig, balance: Option<i128>) {
    config.requireMembershipForRoles ==>
      config.membershipTokenContract.Some? && balance.Some? && balance.value >= config.minTokenBalance
  }

  /** A role above Guest is allowed exactly when the membership requirement is met, and Guest always. */
  lemma ValidationMeansMembership(config: AccessControlConfig, role: UserRole, balance: Option<i128>)
    ensures ValidateRoleAssignment(config, role, balance).Ok? <==> role == Guest || MembershipMet(config, balance)
  {
  }

  /** `user` gets a role above Guest that it did not have. */
  predicate Gains(g: Rules, h: Rules, user: Address) {
    RoleOf(h, user) != RoleOf(g, user) && RoleOf(h, user) != Guest
  }

  lemma DirectGrants(g: Rules, e: Event, user: Address)
    requires IsDirect(e.call) && Gains(g, DirectStep(g, e).0, user)
    ensures MembershipMet(g.config, e.balance) || e.call.AcceptTransfer?
  {
  }

  lemma ActionGrants(g: Rules, action: ProposalAction, balance: Option<i128>, user: Address)
    requires Gains(g, RunAction(g, action, balance).0, user)
    ensures MembershipMet(g.config, balance) || action == AddAdmin(user)
  {
  }

  /** Proposal `id` is executed between `b` and `c`, and its action makes `user` an admin. */
  ghost predicate ExecutesAddAdmin(b: Book, c: Book, id: u64, user: Address) {
    Flips(b, c, id) && c.proposals[id].action == AddAdmin(user)
  }

  lemma ExecutionGrants(s: State, s1: State, now: u64, id: u64, balance: Option<i128>, user: Address)
    requires s1.rules == s.rules && (Executed(s.book, id) ==> Executed(s1.book, id))
    requires Gains(s.rules, ExecuteProposal(s1, now, id, balance).0.rules, user)
    ensures MembershipMet(s.rules.config, balance)
         || ExecutesAddAdmin(s.book, ExecuteProposal(s1, now, id, balance).0.book, id, user)
  {
    ExecuteCases(s1, now, id, balance);
    ActionGrants(s.rules, s1.book.proposals[id].action, balance, user);
  }

  /** Between `s` and `t` the call `e` gave `user` a role rightly. */
  ghost predicate Granted(s: State, e: Event, t: State, user: Address) {
    || MembershipMet(s.rules.config, e.balance)
    || e.call.Init? || e.call.InitMultisig? || e.call.AcceptTransfer?
    || exists id :: ExecutesAddAdmin(s.book, t.book, id, user)
  }

  lemma CreationGrants(s: State, e: Event, user: Address)
    requires StateOk(s) && e.call.Create? && Gains(s.rules, Step(s, e).0.rules, user)
    ensures Granted(s, e, Step(s, e).0, user)
  {
    var a, action := e.call.caller, e.call.action;
    CreateCases(s, e.now, a, action, e.balance);
    ExecutionGrants(s, WithNew(s, e.now, a, action), e.now, s.book.counter, e.balance, user);
  }

  lemma ApprovalGrants(s: State, e: Event, user: Address)
    requires e.call.Approve? && Gains(s.rules, Step(s, e).0.rules, user)
    ensures Granted(s, e, Step(s, e).0, user)
  {
    var a, id := e.call.caller, e.call.id;
    ApproveCases(s, e.now, a, id, e.balance);
    ExecutionGrants(s, WithApproval(s, a, id), e.now, id, e.balance, user);
  }

  lemma StepGrants(s: State, e: Event, user: Address)
    requires StateOk(s) && Gains(s.rules, Step(s, e).0.rules, user)
    ensures Granted(s, e, Step(s, e).0, user)
  {
    if IsDirect(e.call) {
      DirectGrants(s.rules, e, user);
    } else {
      match e.call
      case Create(_, _) => CreationGrants(s, e, user);
      case Approve(_, _) => ApprovalGrants(s, e, user);
      case Execute(id) => ExecutionGrants(s, s, e.now, id, e.balance, user);
      case Reject(a, id) => RejectCases(s, e.now, a, id);
      case _ =>
    }
  }

  /** Whoever gets a role above Guest meets the membership requirement of that moment, unless the role comes with the
      initialisation, with an accepted administrator transfer, or with an executed proposal to add that very admin. */
  lemma RolesNeedMembership(es: seq<Event>, e: Event, user: Address)
    requires Gains(Run(es).rules, Step(Run(es), e).0.rules, user)
    ensures Granted(Run(es), e, Step(Run(es), e).0, user)
  {
    RunKeeps(es);
    StepGrants(Run(es), e, user);
  }
}
