/**
 The access-control contract as a function on states
 (contracts/access_control/src/access_control.rs).

 Each function maps a state, the ledger time and the call's arguments to the next state and the
 call's outcome. As in the source an error does not undo writes made before it; `Trap` does.
 `balance` is what the membership contract answers if the call asks it (`None`: the call failed).
 */
module GovernanceSpec {
  import opened Prelude
  import opened GovernanceTypes

  /** What governance governs: roles, configuration, pause flags and the multisig configuration. */
  datatype Rules = Rules(
    initialized: bool,
    admin: Option<Address>,
    roles: map<Address, UserRole>,
    config: AccessControlConfig,
    paused: bool,
    emergencyMode: bool,
    blacklisted: set<Address>,
    multisig: Option<MultiSigConfig>,
    transfer: Option<PendingAdminTransfer>)

  /** The proposal bookkeeping: four storage entries that must agree. */
  datatype Book = Book(
    proposals: map<u64, Proposal>,
    counter: u64,
    pending: seq<u64>,
    stats: ProposalStats)

  datatype State = State(rules: Rules, book: Book)

  const NO_RULES := Rules(false, None, map[], DEFAULT_CONFIG, false, false, {}, None, None)
  const NO_BOOK := Book(map[], 0, [], NO_STATS)

  /** Storage of a contract that was just deployed. */
  const EMPTY := State(NO_RULES, NO_BOOK)

  const ONE_DAY: u64 := 86400
  const SEVEN_DAYS: u64 := 604800

  function RoleOf(g: Rules, user: Address): UserRole {
    if user in g.roles then g.roles[user] else Guest
  }

  /** The check made by `require_admin`. */
  predicate IsGovernor(g: Rules, caller: Address) {
    match g.multisig
    case Some(c) => caller in c.admins
    case None => RoleOf(g, caller) == Admin
  }

  // ---------------------------------------------------------------- initialisation

  function OrDefault(config: Option<AccessControlConfig>): AccessControlConfig {
    if config.Some? then config.value else DEFAULT_CONFIG
  }

  function Initialize(s: State, admin: Address, config: Option<AccessControlConfig>): (State, Outcome<()>) {
    if s.rules.initialized then (s, Err(ConfigurationError))
    else
      (State(s.rules.(admin := Some(admin), roles := s.rules.roles[admin := Admin], config := OrDefault(config),
                      initialized := true, paused := false),
             s.book.(counter := 0)),
       Ok(()))
  }

  /** The configuration `initialize_multisig` computes for itself. */
  function InitialMultisig(admins: seq<Address>, required: u32): MultiSigConfig
    requires required < U32_MAX && Min(required + 1, |admins|) < U32_MAX
  {
    var critical := Min(required + 1, |admins|);
    MultiSigConfig(admins, required, critical, Min(critical + 1, |admins|), ONE_DAY, 50, SEVEN_DAYS)
  }

  predicate HasDuplicate(admins: seq<Address>) {
    exists i, j :: 0 <= i < j < |admins| && admins[i] == admins[j]
  }

  function GrantAdmin(roles: map<Address, UserRole>, admins: seq<Address>): map<Address, UserRole> {
    roles + map a | a in admins :: Admin
  }

  function InitializeMultisig(s: State, admins: seq<Address>, required: u32,
                              config: Option<AccessControlConfig>): (State, Outcome<()>) {
    if s.rules.initialized then (s, Err(ConfigurationError))
    else if |admins| == 0 || required == 0 || required > |admins| then (s, Err(InvalidAddress))
    else if HasDuplicate(admins) then (s, Err(DuplicateAdmin))
    else if required == U32_MAX || Min(required + 1, |admins|) == U32_MAX then (s, Trap)
    else if !InitialMultisig(admins, required).Validate() then (s, Err(InvalidMultisigConfig))
    else
      (State(s.rules.(multisig := Some(InitialMultisig(admins, required)),
                      roles := GrantAdmin(s.rules.roles, admins), config := OrDefault(config),
                      initialized := true, paused := false),
             s.book.(counter := 0, stats := NO_STATS, pending := [])),
       Ok(()))
  }

  // ---------------------------------------------------------------- pending list

  /** `id` leaves the pending list and the storage; `stats` are the new statistics but for the pending count. */
  function Drop(b: Book, id: u64, stats: ProposalStats): Book {
    b.(pending := Without(b.pending, id),
       proposals := b.proposals - {id},
       stats := stats.(pendingCount := Max(stats.pendingCount - 1, 0)))
  }

  /** `cleanup_expired_proposal`. */
  function ExpireOne(b: Book, id: u64): (Book, Outcome<()>) {
    if b.stats.totalExpired == U64_MAX then (b, Trap)
    else (Drop(b, id, b.stats.(totalExpired := b.stats.totalExpired + 1)), Ok(()))
  }

  predicate IsExpired(b: Book, now: u64, id: u64) {
    id in b.proposals && now > b.proposals[id].expiry && !b.proposals[id].executed
  }

  /** The loop of `cleanup_expired_proposals` over the list it read at the start. */
  function ExpireAll(b: Book, now: u64, ids: seq<u64>): (Book, Outcome<nat>) {
    if ids == [] then (b, Ok(0))
    else
      var last := |ids| - 1;
      var (b1, r1) := ExpireAll(b, now, ids[..last]);
      if !r1.Ok? then (b1, r1)
      else if !IsExpired(b1, now, ids[last]) then (b1, r1)
      else
        var (b2, r2) := ExpireOne(b1, ids[last]);
        (b2, match r2 case Ok(_) => Ok(r1.value + 1) case Err(e) => Err(e) case Trap => Trap)
  }

  function CleanupExpired(s: State, now: u64): (State, Outcome<nat>) {
    var (b, r) := ExpireAll(s.book, now, s.book.pending);
    if r.Trap? then (s, Trap) else (s.(book := b), r)
  }

  /** The answer of an operation that finds its proposal expired and cleans it up. */
  function ReportExpired(s: State, id: u64): (State, Outcome<()>) {
    var (b, r) := ExpireOne(s.book, id);
    (s.(book := b), if r.Ok? then Err(ProposalExpired) else r)
  }

  // ---------------------------------------------------------------- execution

  function ValidateRoleAssignment(config: AccessControlConfig, role: UserRole, balance: Option<i128>): Outcome<()> {
    if config.requireMembershipForRoles && role != Guest then
      if config.membershipTokenContract.None? then Err(MembershipTokenNotSet)
      else if balance.None? then Err(MembershipTokenCallFailed)
      else if balance.value < config.minTokenBalance then Err(InsufficientMembership)
      else Ok(())
    else Ok(())
  }

  function RemoveFromAdmins(c: MultiSigConfig, a: Address): MultiSigConfig {
    c.(admins := Without(c.admins, a))
  }

  /** The `match proposal.action` of `execute_proposal`. Every failing arm fails before it writes. */
  function RunAction(g: Rules, action: ProposalAction, balance: Option<i128>): (Rules, Outcome<()>) {
    match action
    case SetRole(user, role) =>
      var r := ValidateRoleAssignment(g.config, role, balance);
      if r.Ok? then (g.(roles := g.roles[user := role]), r) else (g, r)
    case UpdateConfig(config) => (g.(config := config), Ok(()))
    case Pause => (g.(paused := true), Ok(()))
    case Unpause => (g.(paused := false), Ok(()))
    case UpdateMultisigConfig(c) =>
      if c.Validate() then (g.(multisig := Some(c)), Ok(())) else (g, Err(InvalidMultisigConfig))
    case EmergencyPause(_) => (g.(paused := true, emergencyMode := true), Ok(()))
    case BatchBlacklist(users) => (g.(blacklisted := g.blacklisted + set u | u in users), Ok(()))
    case AddAdmin(a) =>
      if g.multisig.None? then (g, Ok(()))
      else
        var c := g.multisig.value;
        if a in c.admins then (g, Err(DuplicateAdmin))
        else (g.(multisig := Some(c.(admins := c.admins + [a])), roles := g.roles[a := Admin]), Ok(()))
    case RemoveAdmin(a) =>
      if g.multisig.None? then (g, Ok(()))
      else
        var c := g.multisig.value;
        if |c.admins| <= c.emergencyThreshold then (g, Err(CannotRemoveLastAdmin))
        else (g.(multisig := Some(RemoveFromAdmins(c, a)), roles := g.roles[a := Guest]), Ok(()))
    case TransferAdmin(_) => (g, Err(InvalidProposalType))
    case ScheduleUpgrade(_, _) => (g, Err(InvalidProposalType))
    case EmergencyAdminTransfer(_) => (g, Err(InvalidProposalType))
  }

  function MarkExecuted(b: Book, id: u64): Book
    requires id in b.proposals
  {
    b.(proposals := b.proposals[id := b.proposals[id].(executed := true)])
  }

  function RecordExecution(b: Book, id: u64): Book
    requires b.stats.totalExecuted < U64_MAX
  {
    b.(pending := Without(b.pending, id),
       stats := b.stats.(totalExecuted := b.stats.totalExecuted + 1, pendingCount := Max(b.stats.pendingCount - 1, 0)))
  }

  function ExecuteProposal(s: State, now: u64, id: u64, balance: Option<i128>): (State, Outcome<()>) {
    if id !in s.book.proposals then (s, Err(ProposalNotFound))
    else
      var p := s.book.proposals[id];
      if p.executed then (s, Err(ProposalAlreadyExecuted))
      else if now > p.expiry then ReportExpired(s, id)
      else if p.timeLockUntil.Some? && now < p.timeLockUntil.value then (s, Err(TimeLockActive))
      else if |p.approvals| < p.requiredSignatures then (s, Err(InsufficientApprovals))
      else
        var b := MarkExecuted(s.book, id);
        var (g, r) := RunAction(s.rules, p.action, balance);
        if !r.Ok? then (State(g, b), r)
        else if b.stats.totalExecuted == U64_MAX then (s, Trap)
        else (State(g, RecordExecution(b, id)), Ok(()))
  }

  // ---------------------------------------------------------------- votes

  function NewProposal(c: MultiSigConfig, now: u64, id: u64, proposer: Address, action: ProposalAction): Proposal
    requires now + c.proposalExpiryDuration <= U64_MAX
    requires action.ClassifyType().RequiresTimeLock() ==> now + c.timeLockDuration <= U64_MAX
  {
    var t := action.ClassifyType();
    Proposal(id, proposer, action, t, [proposer], [], false, now, now + c.proposalExpiryDuration,
             if t.RequiresTimeLock() then Some(now + c.timeLockDuration) else None,
             c.GetRequiredSignatures(t))
  }

  /** The additions of `create_proposal` that the overflow checks stop. */
  predicate CreationOverflows(b: Book, c: MultiSigConfig, now: u64, action: ProposalAction) {
    || now + c.proposalExpiryDuration > U64_MAX
    || (action.ClassifyType().RequiresTimeLock() && now + c.timeLockDuration > U64_MAX)
    || b.counter == U64_MAX
    || b.stats.totalCreated == U64_MAX
    || b.stats.pendingCount == U32_MAX
  }

  function Enqueue(b: Book, p: Proposal): Book
    requires b.counter < U64_MAX && b.stats.totalCreated < U64_MAX && b.stats.pendingCount < U32_MAX
  {
    b.(proposals := b.proposals[b.counter := p],
       counter := b.counter + 1,
       pending := b.pending + [b.counter],
       stats := b.stats.(totalCreated := b.stats.totalCreated + 1, pendingCount := b.stats.pendingCount + 1))
  }

  function Vote(b: Book, id: u64, p: Proposal): Book {
    b.(proposals := b.proposals[id := p])
  }

  /** A proposal whose votes suffice and whose time-lock, if any, has passed. */
  predicate ReadyAt(p: Proposal, now: u64) {
    |p.approvals| >= p.requiredSignatures && (p.timeLockUntil.Some? ==> now >= p.timeLockUntil.value)
  }

  function CreateProposal(s: State, now: u64, proposer: Address, action: ProposalAction,
                          balance: Option<i128>): (State, Outcome<u64>) {
    if !IsGovernor(s.rules, proposer) then (s, Err(AdminRequired))
    else if s.rules.multisig.None? then (s, Err(MultisigNotEnabled))
    else
      var c := s.rules.multisig.value;
      var id := s.book.counter;
      if s.book.stats.pendingCount >= c.maxPendingProposals then (s, Err(MaxProposalsReached))
      else if CreationOverflows(s.book, c, now, action) then (s, Trap)
      else
        var p := NewProposal(c, now, id, proposer, action);
        var s1 := s.(book := Enqueue(s.book, p));
        if p.timeLockUntil.None? && |p.approvals| >= p.requiredSignatures then
          var (s2, r) := ExecuteProposal(s1, now, id, balance);
          match r
          case Ok(_) => (s2, Ok(id))
          case Err(e) => (s2, Err(e))
          case Trap => (s, Trap)
        else (s1, Ok(id))
  }

  function ApproveProposal(s: State, now: u64, approver: Address, id: u64,
                           balance: Option<i128>): (State, Outcome<()>) {
    if !IsGovernor(s.rules, approver) then (s, Err(AdminRequired))
    else if id !in s.book.proposals then (s, Err(ProposalNotFound))
    else
      var p := s.book.proposals[id];
      if p.executed then (s, Err(ProposalAlreadyExecuted))
      else if now > p.expiry then ReportExpired(s, id)
      else if approver in p.approvals then (s, Err(AlreadyApproved))
      else if approver in p.rejections then (s, Err(AlreadyRejected))
      else
        var p1 := p.(approvals := p.approvals + [approver]);
        var s1 := s.(book := Vote(s.book, id, p1));
        if ReadyAt(p1, now) then
          var (s2, r) := ExecuteProposal(s1, now, id, balance);
          if r.Trap? then (s, Trap) else (s2, r)
        else (s1, Ok(()))
  }

  function RejectionThreshold(c: MultiSigConfig): nat {
    Max(|c.admins| / 3, 1)
  }

  function RejectProposal(s: State, now: u64, rejecter: Address, id: u64): (State, Outcome<()>) {
    if !IsGovernor(s.rules, rejecter) then (s, Err(AdminRequired))
    else if id !in s.book.proposals then (s, Err(ProposalNotFound))
    else
      var p := s.book.proposals[id];
      if p.executed then (s, Err(ProposalAlreadyExecuted))
      else if now > p.expiry then ReportExpired(s, id)
      else if rejecter in p.rejections then (s, Err(AlreadyRejected))
      else if rejecter in p.approvals then (s, Err(AlreadyApproved))
      else if s.rules.multisig.None? then (s, Err(MultisigNotEnabled))
      else
        var p1 := p.(rejections := p.rejections + [rejecter]);
        if |p1.rejections| > RejectionThreshold(s.rules.multisig.value) then
          var stats := s.book.stats;
          if stats.totalRejected == U64_MAX then (s, Trap)
          else
            (s.(book := Drop(s.book, id, stats.(totalRejected := stats.totalRejected + 1))), Err(ProposalRejected))
        else (s.(book := Vote(s.book, id, p1)), Ok(()))
  }

  function CancelProposal(s: State, proposer: Address, id: u64): (State, Outcome<()>) {
    if id !in s.book.proposals then (s, Err(ProposalNotFound))
    else
      var p := s.book.proposals[id];
      if p.proposer != proposer then (s, Err(Unauthorized))
      else if p.executed then (s, Err(ProposalAlreadyExecuted))
      else (s.(book := Drop(s.book, id, s.book.stats)), Ok(()))
  }

  // ---------------------------------------------------------------- direct administration

  function SetRoleDirectly(g: Rules, caller: Address, user: Address, role: UserRole,
                           balance: Option<i128>): (Rules, Outcome<()>) {
    if !g.initialized then (g, Err(NotInitialized))
    else if g.paused then (g, Err(ContractPaused))
    else if user in g.blacklisted then (g, Err(Unauthorized))
    else if !IsGovernor(g, caller) then (g, Err(AdminRequired))
    else
      var r := ValidateRoleAssignment(g.config, role, balance);
      if r.Ok? then (g.(roles := g.roles[user := role]), r) else (g, r)
  }

  function RemoveRoleDirectly(g: Rules, caller: Address, user: Address): (Rules, Outcome<()>) {
    if !IsGovernor(g, caller) then (g, Err(AdminRequired))
    else if g.admin == Some(user) then (g, Err(RoleHierarchyViolation))
    else if caller == user && RoleOf(g, user) == Admin then (g, Err(RoleHierarchyViolation))
    else (g.(roles := g.roles[user := Guest]), Ok(()))
  }

  function SetBlacklisted(g: Rules, caller: Address, user: Address, listed: bool): (Rules, Outcome<()>) {
    if !IsGovernor(g, caller) then (g, Err(AdminRequired))
    else (g.(blacklisted := if listed then g.blacklisted + {user} else g.blacklisted - {user}), Ok(()))
  }

  function UpdateConfigDirectly(g: Rules, caller: Address, config: AccessControlConfig): (Rules, Outcome<()>) {
    if g.multisig.Some? || !IsGovernor(g, caller) then (g, Err(AdminRequired))
    else (g.(config := config), Ok(()))
  }

  function SetPausedDirectly(g: Rules, caller: Address, paused: bool): (Rules, Outcome<()>) {
    if g.multisig.Some? || !IsGovernor(g, caller) then (g, Err(AdminRequired))
    else (g.(paused := paused), Ok(()))
  }

  function DeactivateEmergency(g: Rules, caller: Address): (Rules, Outcome<()>) {
    if !IsGovernor(g, caller) || g.multisig.Some? then (g, Err(AdminRequired))
    else (g.(emergencyMode := false), Ok(()))
  }

  function UpdateMultisigDirectly(g: Rules, caller: Address, c: MultiSigConfig): (Rules, Outcome<()>) {
    if !IsGovernor(g, caller) then (g, Err(AdminRequired))
    else if g.multisig.None? then (g, Err(MultisigNotEnabled))
    else if !c.Validate() then (g, Err(InvalidMultisigConfig))
    else (g, Err(AdminRequired))
  }

  function ProposeAdminTransfer(g: Rules, now: u64, current: Address, next: Address): (Rules, Outcome<()>) {
    if !IsGovernor(g, current) then (g, Err(AdminRequired))
    else if current == next || g.multisig.Some? then (g, Err(InvalidAddress))
    else if now + ONE_DAY > U64_MAX then (g, Trap)
    else (g.(transfer := Some(PendingAdminTransfer(next, current, now + ONE_DAY))), Ok(()))
  }

  function AcceptAdminTransfer(g: Rules, now: u64, next: Address): (Rules, Outcome<()>) {
    if g.transfer.None? then (g, Err(InvalidAddress))
    else if g.transfer.value.proposedAdmin != next then (g, Err(Unauthorized))
    else if now > g.transfer.value.expiry then (g, Err(InvalidAddress))
    else if g.admin.None? then (g, Err(AdminRequired))
    else
      (g.(admin := Some(next), roles := g.roles[next := Admin][g.admin.value := Guest], transfer := None), Ok(()))
  }

  function CancelAdminTransfer(g: Rules, current: Address): (Rules, Outcome<()>) {
    if !IsGovernor(g, current) then (g, Err(AdminRequired))
    else if g.transfer.None? then (g, Err(InvalidAddress))
    else if g.transfer.value.proposer != current then (g, Err(Unauthorized))
    else (g.(transfer := None), Ok(()))
  }

  // ---------------------------------------------------------------- calls and runs

  datatype Call =
    | Init(newAdmin: Address, initialConfig: Option<AccessControlConfig>)
    | InitMultisig(admins: seq<Address>, required: u32, initialConfig: Option<AccessControlConfig>)
    | Create(caller: Address, action: ProposalAction)
    | Approve(caller: Address, id: u64)
    | Execute(id: u64)
    | Reject(caller: Address, id: u64)
    | Cancel(caller: Address, id: u64)
    | Cleanup
    | AssignRole(caller: Address, user: Address, role: UserRole)
    | DropRole(caller: Address, user: Address)
    | Blacklist(caller: Address, user: Address, listed: bool)
    | ChangeConfig(caller: Address, config: AccessControlConfig)
    | ChangePaused(caller: Address, paused: bool)
    | EndEmergency(caller: Address)
    | ChangeMultisig(caller: Address, multisig: MultiSigConfig)
    | ProposeTransfer(caller: Address, next: Address)
    | AcceptTransfer(next: Address)
    | CancelTransfer(caller: Address)

  /** One invocation: its ledger time, the call, and the membership contract's answer. */
  datatype Event = Event(now: u64, call: Call, balance: Option<i128>)

  function Forget<T>(r: (State, Outcome<T>)): (State, Outcome<()>) {
    (r.0, match r.1 case Ok(_) => Ok(()) case Err(e) => Err(e) case Trap => Trap)
  }

  predicate IsDirect(c: Call) {
    || c.AssignRole? || c.DropRole? || c.Blacklist? || c.ChangeConfig? || c.ChangePaused? || c.EndEmergency?
    || c.ChangeMultisig? || c.ProposeTransfer? || c.AcceptTransfer? || c.CancelTransfer?
  }

  function DirectStep(g: Rules, e: Event): (Rules, Outcome<()>)
    requires IsDirect(e.call)
  {
    match e.call
    case AssignRole(a, u, role) => SetRoleDirectly(g, a, u, role, e.balance)
    case DropRole(a, u) => RemoveRoleDirectly(g, a, u)
    case Blacklist(a, u, listed) => SetBlacklisted(g, a, u, listed)
    case ChangeConfig(a, c) => UpdateConfigDirectly(g, a, c)
    case ChangePaused(a, p) => SetPausedDirectly(g, a, p)
    case EndEmergency(a) => DeactivateEmergency(g, a)
    case ChangeMultisig(a, c) => UpdateMultisigDirectly(g, a, c)
    case ProposeTransfer(a, n) => ProposeAdminTransfer(g, e.now, a, n)
    case AcceptTransfer(n) => AcceptAdminTransfer(g, e.now, n)
    case CancelTransfer(a) => CancelAdminTransfer(g, a)
  }

  function Step(s: State, e: Event): (State, Outcome<()>) {
    if IsDirect(e.call) then
      var (g, r) := DirectStep(s.rules, e);
      (s.(rules := g), r)
    else
      match e.call
      case Init(a, c) => Initialize(s, a, c)
      case InitMultisig(admins, n, c) => InitializeMultisig(s, admins, n, c)
      case Create(a, action) => Forget(CreateProposal(s, e.now, a, action, e.balance))
      case Approve(a, id) => ApproveProposal(s, e.now, a, id, e.balance)
      case Execute(id) => ExecuteProposal(s, e.now, id, e.balance)
      case Reject(a, id) => RejectProposal(s, e.now, a, id)
      case Cancel(a, id) => CancelProposal(s, a, id)
      case Cleanup => Forget(CleanupExpired(s, e.now))
  }

  /** The state after a run of the deployed contract. */
  function Run(es: seq<Event>): State {
    if es == [] then EMPTY
    else Step(Run(es[..|es| - 1]), es[|es| - 1]).0
  }

  /** The contract's entry points unwrap every module result (contracts/access_control/src/lib.rs:104-178),
      so there a failed call leaves nothing behind. */
  function AtomicStep(s: State, e: Event): State {
    var (s1, r) := Step(s, e);
    if r.Ok? then s1 else s
  }

  function AtomicRun(es: seq<Event>): State {
    if es == [] then EMPTY
    else AtomicStep(AtomicRun(es[..|es| - 1]), es[|es| - 1])
  }
}
