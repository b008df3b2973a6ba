/** What an executed proposal does, how many signatures it needs, and what a vote or a direct call leaves, said of the
    stored fields themselves. */
module GovernanceEffects {
  import opened Prelude
  import opened GovernanceTypes
  import opened GovernanceSpec
  import opened GovernanceLedger
  import opened GovernanceSafety
  import opened GovernanceEntryPoints
  import opened GovernanceRoles

  /** A usable configuration: growing thresholds, at most as many as there are admin entries, and positive limits. */
  predicate Ordered(c: MultiSigConfig) {
    && 0 < c.requiredSignatures <= c.criticalThreshold <= c.emergencyThreshold <= |c.admins|
    && 0 < c.timeLockDuration && 0 < c.maxPendingProposals && 0 < c.proposalExpiryDuration
  }

  lemma ValidMeansOrdered(c: MultiSigConfig)
    ensures c.Validate() <==> Ordered(c)
  {
  }

  // ---------------------------------------------------------------- executed actions

  /** `user` has `role` in `h`, and everybody else the role of before. */
  ghost predicate OneRole(g: Rules, h: Rules, user: Address, role: UserRole) {
    && user in h.roles && h.roles[user] == role
    && (forall u :: u in h.roles && u != user <==> u in g.roles && u != user)
    && (forall u :: u in g.roles && u != user ==> h.roles[u] == g.roles[u])
  }

  /** What carrying out `action` makes of the rules `g`: the fields it sets, and that it sets no others. */
  ghost predicate Effect(g: Rules, h: Rules, action: ProposalAction) {
    match action
    case SetRole(user, role) => h == g.(roles := h.roles) && OneRole(g, h, user, role)
    case UpdateConfig(config) => h == g.(config := h.config) && h.config == config
    case Pause => h == g.(paused := h.paused) && h.paused
    case Unpause => h == g.(paused := h.paused) && !h.paused
    case EmergencyPause(_) =>
      h == g.(paused := h.paused, emergencyMode := h.emergencyMode) && h.paused && h.emergencyMode
    case BatchBlacklist(users) =>
      && h == g.(blacklisted := h.blacklisted)
      && (forall u :: u in h.blacklisted <==> u in g.blacklisted || u in users)
    case UpdateMultisigConfig(c) => h == g.(multisig := h.multisig) && h.multisig == Some(c) && Ordered(c)
    case AddAdmin(a) =>
      && h == g.(multisig := h.multisig, roles := h.roles) && OneRole(g, h, a, Admin)
      && g.multisig.Some? && h.multisig.Some?
      && var c, d := g.multisig.value, h.multisig.value;
         d == c.(admins := d.admins) && d.admins == c.admins + [a] && a !in c.admins
    case RemoveAdmin(a) =>
      && h == g.(multisig := h.multisig, roles := h.roles) && OneRole(g, h, a, Guest)
      && g.multisig.Some? && h.multisig.Some?
      && var c, d := g.multisig.value, h.multisig.value;
         && d == c.(admins := d.admins) && a !in d.admins
         && (forall b :: b in d.admins <==> b in c.admins && b != a)
         && |d.admins| == |c.admins| - multiset(c.admins)[a]
    case _ => false
  }

  /** When `action` can be carried out: the other actions always can, those not named here never. */
  predicate Feasible(g: Rules, action: ProposalAction, balance: Option<i128>) {
    match action
    case SetRole(_, role) => role == Guest || MembershipMet(g.config, balance)
    case UpdateMultisigConfig(c) => Ordered(c)
    case AddAdmin(a) => g.multisig.Some? && a !in g.multisig.value.admins
    case RemoveAdmin(_) => g.multisig.Some? && |g.multisig.value.admins| > g.multisig.value.emergencyThreshold
    case TransferAdmin(_) => false
    case ScheduleUpgrade(_, _) => false
    case EmergencyAdminTransfer(_) => false
    case _ => true
  }

  lemma ActionHasEffect(g: Rules, action: ProposalAction, balance: Option<i128>)
    requires g.multisig.Some?
    ensures var (h, r) := RunAction(g, action, balance);
      && (r.Ok? <==> Feasible(g, action, balance))
      && (if r.Ok? then Effect(g, h, action) else h == g)
  {
    match action
    case RemoveAdmin(a) =>
      WithoutMembers(g.multisig.value.admins, a);
      WithoutLength(g.multisig.value.admins, a);
    case _ =>
  }

  /** Between `s` and `t` proposal `id` is executed: if its action was feasible it has had its effect on the rules and
      nothing more, else the rules are as before. */
  ghost predicate CarriedOut(s: State, e: Event, t: State, r: Outcome<()>, id: u64) {
    && id in t.book.proposals
    && var action := t.book.proposals[id].action;
       && (r.Ok? <==> Feasible(s.rules, action, e.balance))
       && (if r.Ok? then Effect(s.rules, t.rules, action) else t.rules == s.rules)
  }

  lemma ExecutionCarriesOut(s: State, s1: State, now: u64, v: u64, balance: Option<i128>)
    requires StateOk(s1) && s1.rules == s.rules && s.rules.multisig.Some?
    ensures var (t, r) := ExecuteProposal(s1, now, v, balance);
      || (t.rules == s.rules && forall id :: Executed(t.book, id) ==> Executed(s1.book, id))
      || (&& (forall id :: Flips(s1.book, t.book, id) ==> id == v)
          && v in t.book.proposals
          && var action := t.book.proposals[v].action;
             && (r.Ok? <==> Feasible(s.rules, action, balance))
             && (if r.Ok? then Effect(s.rules, t.rules, action) else t.rules == s.rules))
  {
    ExecuteKeeps(s1, now, v, balance);
    ExecuteCases(s1, now, v, balance);
    if v in s1.book.proposals {
      ActionHasEffect(s.rules, s1.book.proposals[v].action, balance);
      ExecuteSucceedsExactly(s1, now, v, balance);
    }
  }

  lemma CreationCarriesOut(s: State, e: Event, id: u64)
    requires StateOk(s) && s.rules.multisig.Some? && e.call.Create? && Flips(s.book, Step(s, e).0.book, id)
    ensures CarriedOut(s, e, Step(s, e).0, Step(s, e).1, id)
  {
    var a, action := e.call.caller, e.call.action;
    var s1 := WithNew(s, e.now, a, action);
    CreateCases(s, e.now, a, action, e.balance);
    WithNewKeeps(s, e.now, a, action);
    ExecutionCarriesOut(s, s1, e.now, s.book.counter, e.balance);
    CreationResult(s, e.now, a, action, e.balance);
  }

  /** A creation that ends elsewhere than in the bare new proposal answers what its execution answers. */
  lemma CreationResult(s: State, now: u64, a: Address, action: ProposalAction, balance: Option<i128>)
    ensures var (t, r) := CreateProposal(s, now, a, action, balance);
      var s1 := WithNew(s, now, a, action);
      var (t2, r2) := ExecuteProposal(s1, now, s.book.counter, balance);
      t == s || (t == s1 && r.Ok?) || (t == t2 && (r.Ok? <==> r2.Ok?))
  {
  }

  lemma ApprovalCarriesOut(s: State, e: Event, id: u64)
    requires StateOk(s) && s.rules.multisig.Some? && e.call.Approve? && Flips(s.book, Step(s, e).0.book, id)
    ensures CarriedOut(s, e, Step(s, e).0, Step(s, e).1, id)
  {
    var a, v := e.call.caller, e.call.id;
    if v in s.book.proposals && !s.book.proposals[v].executed && !HasVoted(s.book.proposals[v], a) {
      WithApprovalOk(s, a, v);
      ExecutionCarriesOut(s, WithApproval(s, a, v), e.now, v, e.balance);
    }
  }

  lemma StepCarriesOut(s: State, e: Event, id: u64)
    requires StateOk(s) && s.rules.multisig.Some? && Flips(s.book, Step(s, e).0.book, id)
    ensures CarriedOut(s, e, Step(s, e).0, Step(s, e).1, id)
  {
    if !IsDirect(e.call) {
      match e.call
      case Create(_, _) => CreationCarriesOut(s, e, id);
      case Approve(_, _) => ApprovalCarriesOut(s, e, id);
      case Execute(v) => ExecutionCarriesOut(s, s, e.now, v, e.balance);
      case Reject(a, v) => RejectCases(s, e.now, a, v);
      case Cleanup => ExpireAllKeeps(s.book, e.now, s.book.pending);
      case _ =>
    }
  }

  /** In every run, the call that executes a proposal answers Ok exactly if the action is feasible under the rules of
      that moment, and then leaves exactly its effect: what it names is set, and nothing else changes. Else the rules
      stay as they are. */
  lemma ExecutionHasItsEffect(es: seq<Event>, e: Event, id: u64)
    requires Flips(Run(es).book, Step(Run(es), e).0.book, id)
    ensures CarriedOut(Run(es), e, Step(Run(es), e).0, Step(Run(es), e).1, id)
  {
    RunKeeps(es);
    if Run(es).rules.multisig.None? {
      NothingExecutesWithoutMultisig(Run(es), e, id);
    }
    StepCarriesOut(Run(es), e, id);
  }

  lemma NothingExecutesWithoutMultisig(s: State, e: Event, id: u64)
    requires StateOk(s) && s.rules.multisig.None?
    ensures !Flips(s.book, Step(s, e).0.book, id)
  {
    if e.call.Cleanup? {
      ExpireAllKeeps(s.book, e.now, s.book.pending);
    }
  }

  lemma ExecutionNeedsAFlip(s: State, s1: State, now: u64, v: u64, balance: Option<i128>)
    requires s1.rules == s.rules && (Executed(s.book, v) ==> Executed(s1.book, v))
    ensures var t := ExecuteProposal(s1, now, v, balance).0;
      t.rules == s.rules || Flips(s.book, t.book, v)
  {
    ExecuteCases(s1, now, v, balance);
  }

  lemma RulesNeedAFlip(s: State, e: Event)
    requires StateOk(s) && s.rules.multisig.Some? && !IsDirect(e.call)
    ensures var t := Step(s, e).0; t.rules == s.rules || exists id :: Flips(s.book, t.book, id)
  {
    match e.call
    case Create(a, action) =>
      CreateCases(s, e.now, a, action, e.balance);
      ExecutionNeedsAFlip(s, WithNew(s, e.now, a, action), e.now, s.book.counter, e.balance);
    case Approve(a, v) =>
      ApproveCases(s, e.now, a, v, e.balance);
      if v in s.book.proposals {
        ExecutionNeedsAFlip(s, WithApproval(s, a, v), e.now, v, e.balance);
      }
    case Execute(v) => ExecutionNeedsAFlip(s, s, e.now, v, e.balance);
    case Reject(a, v) => RejectCases(s, e.now, a, v);
    case _ =>
  }

  /** Some proposal is executed between `s` and `t`, and has its effect. */
  ghost predicate EffectOfExecution(s: State, t: State) {
    exists id :: Flips(s.book, t.book, id) && Effect(s.rules, t.rules, t.book.proposals[id].action)
  }

  /** And nothing but an execution, or a direct call under its own conditions, ever changes any rule under multisig:
      roles, administrator, configuration, pause, emergency, blacklist or the multisig configuration. */
  lemma OnlyEffectsChangeTheRules(es: seq<Event>, e: Event)
    requires Run(es).rules.multisig.Some? && Step(Run(es), e).0.rules != Run(es).rules
    ensures var s, t := Run(es), Step(Run(es), e).0;
      || EffectOfExecution(s, t)
      || (IsDirect(e.call) && DirectAllowed(s.rules, e) && DirectEffect(s.rules, e, t.rules))
  {
    RunKeeps(es);
    var s, t := Run(es), Step(Run(es), e).0;
    if IsDirect(e.call) {
      DirectCallsSucceedExactly(s.rules, e);
    } else {
      RulesNeedAFlip(s, e);
      var id :| Flips(s.book, t.book, id);
      StepCarriesOut(s, e, id);
    }
  }

  // ---------------------------------------------------------------- signatures

  /** The signatures `action` needs under `c`, by what it does. */
  function SignaturesFor(c: MultiSigConfig, action: ProposalAction): u32 {
    if action.EmergencyPause? || action.EmergencyAdminTransfer? then c.emergencyThreshold
    else if action.SetRole? || action.Unpause? then c.requiredSignatures
    else c.criticalThreshold
  }

  /** Role changes, unpausing and the two emergency actions wait for nothing. */
  predicate IsLocked(action: ProposalAction) {
    !action.EmergencyPause? && !action.EmergencyAdminTransfer? && !action.SetRole? && !action.Unpause?
  }

  /** The call of `e` proposes the action of `p` while `c` is in force, and `p` has the terms `c` sets for it. */
  ghost predicate Proposes(s: State, e: Event, c: MultiSigConfig, p: Proposal) {
    && e.call.Create? && s.rules.multisig == Some(c) && e.call.caller in c.admins
    && p.id == s.book.counter && p.proposer == e.call.caller && p.action == e.call.action
    && p.requiredSignatures == SignaturesFor(c, p.action)
    && p.createdAt == e.now && p.expiry == e.now + c.proposalExpiryDuration
    && (p.timeLockUntil.Some? <==> IsLocked(p.action))
    && (p.timeLockUntil.Some? ==> p.timeLockUntil.value == e.now + c.timeLockDuration)
  }

  lemma TermsByAction(s: State, e: Event, p: Proposal)
    requires CreatesOnTerms(s, e, p)
    ensures Proposes(s, e, s.rules.multisig.value, p)
  {
  }

  ghost predicate ProposedInRun(es: seq<Event>, p: Proposal) {
    exists k :: 0 <= k < |es| && Run(es[..k]).rules.multisig.Some?
             && Proposes(Run(es[..k]), es[k], Run(es[..k]).rules.multisig.value, p)
  }

  /** After every run, each stored proposal needs as many signatures as the configuration in force at its creation asks
      for: the emergency threshold for an emergency pause or an emergency transfer, the plain one for a role or for
      unpausing, and the critical one, behind a time-lock, for everything else. */
  lemma SignaturesAreByAction(es: seq<Event>, id: u64)
    requires id in Run(es).book.proposals
    ensures ProposedInRun(es, Run(es).book.proposals[id])
  {
    TermsAreFixedAtCreation(es, id);
    var p := Run(es).book.proposals[id];
    var k :| 0 <= k < |es| && CreatesOnTerms(Run(es[..k]), es[k], p);
    TermsByAction(Run(es[..k]), es[k], p);
  }

  /** And when its flag is raised it has at least that many approvals, and a locked one has waited. */
  lemma ExecutionHasTheSignatures(es: seq<Event>, id: u64)
    requires es != [] && Flips(Run(es[..|es| - 1]).book, Run(es).book, id)
    ensures var p, now := Run(es).book.proposals[id], es[|es| - 1].now;
      exists k :: && 0 <= k < |es| && Run(es[..k]).rules.multisig.Some?
                  && var c := Run(es[..k]).rules.multisig.value;
                     && Proposes(Run(es[..k]), es[k], c, p)
                     && |p.approvals| >= SignaturesFor(c, p.action) && Distinct(p.approvals)
                     && (IsLocked(p.action) ==> es[k].now + c.timeLockDuration <= now)
                     && now <= es[k].now + c.proposalExpiryDuration
  {
    ExecutionSafety(es, id);
    SignaturesAreByAction(es, id);
    var p := Run(es).book.proposals[id];
    var k :| 0 <= k < |es| && Run(es[..k]).rules.multisig.Some?
          && Proposes(Run(es[..k]), es[k], Run(es[..k]).rules.multisig.value, p);
  }

  // ---------------------------------------------------------------- initialisation

  /** A multisig initialisation succeeds exactly once, for between one and all signatures of different admins, short of
      the largest count; it asks for one signature more for critical and one more again for emergency proposals, as far
      as there are admins, locks for a day, lets fifty proposals wait, and for a week each. */
  lemma InitialisationLeaves(s: State, admins: seq<Address>, required: u32, config: Option<AccessControlConfig>)
    ensures var (t, r) := InitializeMultisig(s, admins, required, config);
      && (r.Ok? <==> !s.rules.initialized && 0 < required <= |admins| && Distinct(admins)
                     && required < 0xFFFF_FFFF && Min(required + 1, |admins|) < 0xFFFF_FFFF)
      && (r.Ok? ==>
            && t.rules.multisig == Some(MultiSigConfig(admins, required, Min(required + 1, |admins|),
                                                       Min(required + 2, |admins|), 86400, 50, 604800))
            && (forall a :: a in admins ==> RoleOf(t.rules, a) == Admin)
            && (forall a :: a !in admins ==> RoleOf(t.rules, a) == RoleOf(s.rules, a))
            && t.rules.initialized && !t.rules.paused
            && t.rules.config == (match config
                                  case Some(c) => c
                                  case None => AccessControlConfig(None, false, 0, None, false))
            && t.book.counter == 0 && t.book.pending == [] && t.book.stats == ProposalStats(0, 0, 0, 0, 0))
      && (!r.Ok? ==> t == s)
  {
  }

  /** Initialisation with a single administrator. */
  lemma SingleInitialisationLeaves(s: State, admin: Address, config: Option<AccessControlConfig>)
    ensures var (t, r) := Initialize(s, admin, config);
      && (r.Ok? <==> !s.rules.initialized)
      && (r.Ok? ==>
            && t.rules.admin == Some(admin) && OneRole(s.rules, t.rules, admin, Admin)
            && t.rules.initialized && !t.rules.paused && t.rules.multisig == s.rules.multisig && t.book.counter == 0
            && t.rules.config == (match config
                                  case Some(c) => c
                                  case None => AccessControlConfig(None, false, 0, None, false)))
      && (!r.Ok? ==> t == s)
  {
  }

  // ---------------------------------------------------------------- votes

  /** `a` may vote on `id` now. */
  ghost predicate MayVote(s: State, now: u64, a: Address, id: u64) {
    && s.rules.multisig.Some? && a in s.rules.multisig.value.admins
    && id in s.book.proposals && !s.book.proposals[id].executed && now <= s.book.proposals[id].expiry
    && !HasVoted(s.book.proposals[id], a)
  }

  /** An approval is recorded, at the end of the list, exactly for an admin who may vote; it leaves everything else of
      the proposal as it is, but for the flag its execution raises. */
  lemma ApprovalIsRecordedExactly(es: seq<Event>, now: u64, a: Address, id: u64, balance: Option<i128>)
    ensures var s, t := Run(es), ApproveProposal(Run(es), now, a, id, balance).0;
      && (MayVote(s, now, a, id) ==>
            && id in t.book.proposals
            && var p, q := s.book.proposals[id], t.book.proposals[id];
               && q.approvals == p.approvals + [a] && q == p.(approvals := q.approvals, executed := q.executed)
               && (q.executed <==> InWindow(q, now)))
      && (!MayVote(s, now, a, id) && id in s.book.proposals ==>
            id !in t.book.proposals || t.book.proposals[id] == s.book.proposals[id])
  {
    RunKeeps(es);
    ApprovalRecords(Run(es), now, a, id, balance);
  }

  lemma ApprovalRecords(s: State, now: u64, a: Address, id: u64, balance: Option<i128>)
    requires StateOk(s)
    ensures var t := ApproveProposal(s, now, a, id, balance).0;
      && (MayVote(s, now, a, id) ==>
            && id in t.book.proposals
            && var p, q := s.book.proposals[id], t.book.proposals[id];
               && q.approvals == p.approvals + [a] && q == p.(approvals := q.approvals, executed := q.executed)
               && (q.executed <==> InWindow(q, now)))
      && (!MayVote(s, now, a, id) && id in s.book.proposals ==>
            id !in t.book.proposals || t.book.proposals[id] == s.book.proposals[id])
  {
    if MayVote(s, now, a, id) {
      WithApprovalOk(s, a, id);
      ExecuteKeeps(WithApproval(s, a, id), now, id, balance);
      ExecuteCases(WithApproval(s, a, id), now, id, balance);
      MarksExactlyInTheWindow(WithApproval(s, a, id), now, id, balance);
    }
  }

  /** A rejection is recorded exactly for an admin who may vote and whose rejection does not yet outvote a third of the
      admins, and one; if it does, the proposal is removed. */
  lemma RejectionIsRecordedExactly(es: seq<Event>, now: u64, a: Address, id: u64)
    ensures var s, t := Run(es), RejectProposal(Run(es), now, a, id).0;
      && (MayVote(s, now, a, id) ==>
            var p, n := s.book.proposals[id], |s.book.proposals[id].rejections| + 1;
            if n > |s.rules.multisig.value.admins| / 3 && n > 1 then id !in t.book.proposals
            else id in t.book.proposals && t.book.proposals[id] == p.(rejections := p.rejections + [a]))
      && (!MayVote(s, now, a, id) && id in s.book.proposals ==>
            id !in t.book.proposals || t.book.proposals[id] == s.book.proposals[id])
      && t.rules == s.rules
  {
    RunKeeps(es);
    RejectionRecords(Run(es), now, a, id);
  }

  lemma RejectionRecords(s: State, now: u64, a: Address, id: u64)
    requires StateOk(s)
    ensures var t := RejectProposal(s, now, a, id).0;
      && (MayVote(s, now, a, id) ==>
            var p, n := s.book.proposals[id], |s.book.proposals[id].rejections| + 1;
            if n > |s.rules.multisig.value.admins| / 3 && n > 1 then id !in t.book.proposals
            else id in t.book.proposals && t.book.proposals[id] == p.(rejections := p.rejections + [a]))
      && (!MayVote(s, now, a, id) && id in s.book.proposals ==>
            id !in t.book.proposals || t.book.proposals[id] == s.book.proposals[id])
      && t.rules == s.rules
  {
    RejectKeeps(s, now, a, id);
  }

  /** `a` may propose `action` now: a configured admin, fewer proposals pending than allowed, and room on the clock and
      on the counter. */
  ghost predicate MayCreate(s: State, now: u64, a: Address, action: ProposalAction) {
    && s.rules.multisig.Some? && s.book.counter < U64_MAX
    && var c := s.rules.multisig.value;
       && a in c.admins && |s.book.pending| < c.maxPendingProposals
       && now + c.proposalExpiryDuration <= U64_MAX
       && (IsLocked(action) ==> now + c.timeLockDuration <= U64_MAX)
  }

  lemma CreationIsGuarded(s: State, now: u64, a: Address, action: ProposalAction, balance: Option<i128>)
    requires BookOk(s.book) && (s.rules.multisig.Some? || s.book.proposals == map[])
    requires !ExecuteProposal(WithNew(s, now, a, action), now, s.book.counter, balance).1.Trap?
    ensures var t, s1 := CreateProposal(s, now, a, action, balance).0, WithNew(s, now, a, action);
      if MayCreate(s, now, a, action)
      then s1.book.counter == s.book.counter + 1
           && (t == s1 || t == ExecuteProposal(s1, now, s.book.counter, balance).0)
      else t == s
  {
  }

  /** A creation takes the next id exactly for who may create; otherwise it leaves the state as it is. */
  lemma CreatesExactly(es: seq<Event>, now: u64, a: Address, action: ProposalAction, balance: Option<i128>)
    ensures var s, t := Run(es), CreateProposal(Run(es), now, a, action, balance).0;
      if MayCreate(s, now, a, action) then t.book.counter == s.book.counter + 1 else t == s
  {
    RunKeeps(es);
    CreatesExactlyIn(Run(es), now, a, action, balance);
  }

  lemma CreatesExactlyIn(s: State, now: u64, a: Address, action: ProposalAction, balance: Option<i128>)
    requires StateOk(s)
    ensures var t := CreateProposal(s, now, a, action, balance).0;
      if MayCreate(s, now, a, action) then t.book.counter == s.book.counter + 1 else t == s
  {
    var s1 := WithNew(s, now, a, action);
    WithNewKeeps(s, now, a, action);
    ExecuteKeeps(s1, now, s.book.counter, balance);
    CreationIsGuarded(s, now, a, action, balance);
    ExecuteCases(s1, now, s.book.counter, balance);
  }

  // ---------------------------------------------------------------- direct administration

  /** Under multisig a configured admin acts as an administrator, otherwise whoever has the Admin role. */
  predicate Acts(g: Rules, caller: Address) {
    if g.multisig.Some? then caller in g.multisig.value.admins
    else caller in g.roles && g.roles[caller] == Admin
  }

  /** What each direct call needs. */
  predicate DirectAllowed(g: Rules, e: Event)
    requires IsDirect(e.call)
  {
    match e.call
    case AssignRole(a, u, role) =>
      && g.initialized && !g.paused && u !in g.blacklisted && Acts(g, a)
      && (role == Guest || MembershipMet(g.config, e.balance))
    case DropRole(a, u) =>
      Acts(g, a) && g.admin != Some(u) && !(a == u && u in g.roles && g.roles[u] == Admin)
    case Blacklist(a, _, _) => Acts(g, a)
    case ChangeConfig(a, _) => g.multisig.None? && Acts(g, a)
    case ChangePaused(a, _) => g.multisig.None? && Acts(g, a)
    case EndEmergency(a) => g.multisig.None? && Acts(g, a)
    case ChangeMultisig(_, _) => false
    case ProposeTransfer(a, n) => g.multisig.None? && Acts(g, a) && a != n && e.now + 86400 <= U64_MAX
    case AcceptTransfer(n) =>
      g.transfer.Some? && g.transfer.value.proposedAdmin == n && e.now <= g.transfer.value.expiry && g.admin.Some?
    case CancelTransfer(a) => Acts(g, a) && g.transfer.Some? && g.transfer.value.proposer == a
  }

  /** What each direct call leaves. */
  ghost predicate DirectEffect(g: Rules, e: Event, h: Rules)
    requires IsDirect(e.call)
  {
    match e.call
    case AssignRole(_, u, role) => h == g.(roles := h.roles) && OneRole(g, h, u, role)
    case DropRole(_, u) => h == g.(roles := h.roles) && OneRole(g, h, u, Guest)
    case Blacklist(_, u, listed) =>
      && h == g.(blacklisted := h.blacklisted) && (u in h.blacklisted <==> listed)
      && (forall v :: v != u ==> (v in h.blacklisted <==> v in g.blacklisted))
    case ChangeConfig(_, c) => h == g.(config := h.config) && h.config == c
    case ChangePaused(_, p) => h == g.(paused := h.paused) && h.paused == p
    case EndEmergency(_) => h == g.(emergencyMode := h.emergencyMode) && !h.emergencyMode
    case ChangeMultisig(_, _) => false
    case ProposeTransfer(a, n) =>
      && h == g.(transfer := h.transfer) && h.transfer.Some?
      && h.transfer.value.proposedAdmin == n && h.transfer.value.proposer == a
      && h.transfer.value.expiry == e.now + 86400
    case AcceptTransfer(n) =>
      && h == g.(admin := h.admin, roles := h.roles, transfer := h.transfer)
      && h.admin == Some(n) && h.transfer.None? && g.admin.Some?
      && RoleOf(h, g.admin.value) == Guest && (n != g.admin.value ==> RoleOf(h, n) == Admin)
      && (forall u :: u != n && u != g.admin.value ==> RoleOf(h, u) == RoleOf(g, u))
    case CancelTransfer(_) => h == g.(transfer := h.transfer) && h.transfer.None?
  }

  /** A direct call succeeds exactly when it is allowed, and then has its effect and no other. The stored
      administrator, if it accepts a transfer to itself, ends up as a guest. */
  lemma DirectCallsSucceedExactly(g: Rules, e: Event)
    requires IsDirect(e.call)
    ensures var (h, r) := DirectStep(g, e);
      && (r.Ok? <==> DirectAllowed(g, e))
      && (if r.Ok? then DirectEffect(g, e, h) else h == g)
  {
  }
}
