/**
 The access-control module as it works on contract storage
 (contracts/access_control/src/access_control.rs). Every method is proved against the function of
 GovernanceSpec with the matching name. Where the source can trap after a first write, the method
 puts the storage back, which is what the host does with a trapped invocation.
 */
module GovernanceStore {
  import opened Prelude
  import opened GovernanceTypes
  import Spec = GovernanceSpec

  class AccessControl {
    var initialized: bool
    var admin: Option<Address>
    var roles: map<Address, UserRole>
    var config: AccessControlConfig
    var paused: bool
    var emergencyMode: bool
    var blacklisted: set<Address>
    var multisig: Option<MultiSigConfig>
    var proposals: map<u64, Proposal>
    var counter: u64
    var pending: seq<u64>
    var stats: ProposalStats
    var transfer: Option<PendingAdminTransfer>

    function Rules(): Spec.Rules
      reads this
    {
      Spec.Rules(initialized, admin, roles, config, paused, emergencyMode, blacklisted, multisig, transfer)
    }

    function Book(): Spec.Book
      reads this
    {
      Spec.Book(proposals, counter, pending, stats)
    }

    function Contents(): Spec.State
      reads this
    {
      Spec.State(Rules(), Book())
    }

    constructor ()
      ensures Contents() == Spec.EMPTY
    {
      initialized, admin, roles, config := false, None, map[], DEFAULT_CONFIG;
      paused, emergencyMode, blacklisted, multisig := false, false, {}, None;
      proposals, counter, pending, stats, transfer := map[], 0, [], NO_STATS, None;
    }

    /** The host discarding the writes of a trapped call. */
    method Restore(s: Spec.State)
      modifies this
      ensures Contents() == s
    {
      var g, b := s.rules, s.book;
      initialized, admin, roles, config := g.initialized, g.admin, g.roles, g.config;
      paused, emergencyMode, blacklisted, multisig := g.paused, g.emergencyMode, g.blacklisted, g.multisig;
      proposals, counter, pending, stats, transfer := b.proposals, b.counter, b.pending, b.stats, g.transfer;
    }

    method Initialize(newAdmin: Address, initialConfig: Option<AccessControlConfig>) returns (r: Outcome<()>)
      modifies this
      ensures (Contents(), r) == Spec.Initialize(old(Contents()), newAdmin, initialConfig)
    {
      if initialized { return Err(ConfigurationError); }
      admin := Some(newAdmin);
      roles := roles[newAdmin := UserRole.Admin];
      config := Spec.OrDefault(initialConfig);
      initialized := true;
      paused := false;
      counter := 0;
      return Ok(());
    }

    method HasDuplicate(admins: seq<Address>) returns (found: bool)
      ensures found == Spec.HasDuplicate(admins)
    {
      for i := 0 to |admins|
        invariant forall a, b :: 0 <= a < i && a < b < |admins| ==> admins[a] != admins[b]
      {
        for j := i + 1 to |admins|
          invariant forall b :: i < b < j ==> admins[i] != admins[b]
        {
          if admins[i] == admins[j] { return true; }
        }
      }
      return false;
    }

    method GrantAdmin(admins: seq<Address>)
      modifies this`roles
      ensures roles == Spec.GrantAdmin(old(roles), admins)
    {
      for i := 0 to |admins|
        invariant roles == Spec.GrantAdmin(old(roles), admins[..i])
      {
        assert admins[..i + 1] == admins[..i] + [admins[i]];
        roles := roles[admins[i] := UserRole.Admin];
      }
      assert admins[..|admins|] == admins;
    }

    method InitializeMultisig(admins: seq<Address>, required: u32, initialConfig: Option<AccessControlConfig>)
      returns (r: Outcome<()>)
      modifies this
      ensures (Contents(), r) == Spec.InitializeMultisig(old(Contents()), admins, required, initialConfig)
    {
      if initialized { return Err(ConfigurationError); }
      if |admins| == 0 || required == 0 || required > |admins| { return Err(InvalidAddress); }
      var duplicate := HasDuplicate(admins);
      if duplicate { return Err(DuplicateAdmin); }
      if required == U32_MAX { return Trap; }
      var criticalThreshold := Min(required + 1, |admins|);
      if criticalThreshold == U32_MAX { return Trap; }
      var emergencyThreshold := Min(criticalThreshold + 1, |admins|);
      var c := MultiSigConfig(admins, required, criticalThreshold, emergencyThreshold, 86400, 50, 604800);
      if !c.Validate() { return Err(InvalidMultisigConfig); }
      Install(c, initialConfig);
      return Ok(());
    }

    /** The writes of `initialize_multisig`. */
    method Install(c: MultiSigConfig, initialConfig: Option<AccessControlConfig>)
      modifies this
      ensures Rules() == old(Rules()).(multisig := Some(c), roles := Spec.GrantAdmin(old(roles), c.admins),
                                       config := Spec.OrDefault(initialConfig), initialized := true, paused := false)
      ensures Book() == old(Book()).(counter := 0, stats := NO_STATS, pending := [])
    {
      multisig := Some(c);
      GrantAdmin(c.admins);
      config := Spec.OrDefault(initialConfig);
      initialized := true;
      paused := false;
      counter := 0;
      stats := NO_STATS;
      pending := [];
    }

    method RequireAdmin(caller: Address) returns (ok: bool)
      ensures ok == Spec.IsGovernor(Rules(), caller)
    {
      if multisig.Some? {
        ok := caller in multisig.value.admins;
      } else {
        ok := caller in roles && roles[caller] == UserRole.Admin;
      }
    }

    method RemoveFromPendingList(id: u64)
      modifies this`pending
      ensures pending == Without(old(pending), id)
    {
      pending := CopyWithout(pending, id);
    }

    method CleanupExpiredProposal(id: u64) returns (r: Outcome<()>)
      modifies this
      ensures (Book(), r) == Spec.ExpireOne(old(Book()), id) && Rules() == old(Rules())
    {
      if stats.totalExpired == U64_MAX { return Trap; }
      RemoveFromPendingList(id);
      proposals := proposals - {id};
      stats := stats.(totalExpired := stats.totalExpired + 1, pendingCount := Max(stats.pendingCount - 1, 0));
      return Ok(());
    }

    method CleanupExpiredProposals(now: u64) returns (r: Outcome<nat>)
      modifies this
      ensures (Contents(), r) == Spec.CleanupExpired(old(Contents()), now)
    {
      var saved := Contents();
      var pendingList := pending;
      var cleaned := 0;
      for i := 0 to |pendingList|
        invariant (Book(), Ok(cleaned)) == Spec.ExpireAll(saved.book, now, pendingList[..i])
        invariant Rules() == saved.rules
      {
        assert pendingList[..i + 1][..i] == pendingList[..i];
        var id := pendingList[i];
        if id in proposals {
          var p := proposals[id];
          if now > p.expiry && !p.executed {
            var one := CleanupExpiredProposal(id);
            if one.Trap? {
              ExpireAllTraps(saved.book, now, pendingList, i + 1);
              Restore(saved);
              return Trap;
            }
            cleaned := cleaned + 1;
          }
        }
      }
      assert pendingList[..|pendingList|] == pendingList;
      return Ok(cleaned);
    }

    method ValidateRoleAssignment(role: UserRole, balance: Option<i128>) returns (r: Outcome<()>)
      ensures r == Spec.ValidateRoleAssignment(config, role, balance)
      ensures r.Ok? <==> role == Guest || !config.requireMembershipForRoles
                         || (config.membershipTokenContract.Some? && balance.Some?
                             && balance.value >= config.minTokenBalance)
      ensures !r.Ok? ==>
                && (r == Err(MembershipTokenNotSet) <==> config.membershipTokenContract.None?)
                && (r == Err(MembershipTokenCallFailed) <==> config.membershipTokenContract.Some? && balance.None?)
                && (r == Err(InsufficientMembership) <==> config.membershipTokenContract.Some? && balance.Some?)
    {
      if config.requireMembershipForRoles && role != Guest {
        if config.membershipTokenContract.None? { return Err(MembershipTokenNotSet); }
        if balance.None? { return Err(MembershipTokenCallFailed); }
        if balance.value < config.minTokenBalance { return Err(InsufficientMembership); }
      }
      return Ok(());
    }

    method RemoveAdmin(a: Address) returns (r: Outcome<()>)
      modifies this`multisig, this`roles
      ensures (Rules(), r) == Spec.RunAction(old(Rules()), ProposalAction.RemoveAdmin(a), None)
    {
      if multisig.None? { return Ok(()); }
      var c := multisig.value;
      if |c.admins| <= c.emergencyThreshold { return Err(CannotRemoveLastAdmin); }
      var newAdmins := CopyWithout(c.admins, a);
      multisig := Some(c.(admins := newAdmins));
      roles := roles[a := Guest];
      return Ok(());
    }

    method BlacklistAll(users: seq<Address>)
      modifies this`blacklisted
      ensures blacklisted == old(blacklisted) + set u | u in users
    {
      for i := 0 to |users|
        invariant blacklisted == old(blacklisted) + set u | u in users[..i]
      {
        assert users[..i + 1] == users[..i] + [users[i]];
        blacklisted := blacklisted + {users[i]};
      }
      assert users[..|users|] == users;
    }

    method RunAction(action: ProposalAction, balance: Option<i128>) returns (r: Outcome<()>)
      modifies this
      ensures (Rules(), r) == Spec.RunAction(old(Rules()), action, balance) && Book() == old(Book())
    {
      r := Ok(());
      match action {
        case SetRole(user, role) =>
          r := ValidateRoleAssignment(role, balance);
          if r.Ok? { roles := roles[user := role]; }
        case UpdateConfig(c) => config := c;
        case Pause => paused := true;
        case Unpause => paused := false;
        case UpdateMultisigConfig(c) =>
          if !c.Validate() { return Err(InvalidMultisigConfig); }
          multisig := Some(c);
        case EmergencyPause(_) =>
          paused := true;
          emergencyMode := true;
        case BatchBlacklist(users) => BlacklistAll(users);
        case AddAdmin(a) =>
          if multisig.Some? {
            var c := multisig.value;
            if a in c.admins { return Err(DuplicateAdmin); }
            multisig := Some(c.(admins := c.admins + [a]));
            roles := roles[a := UserRole.Admin];
          }
        case RemoveAdmin(a) => r := RemoveAdmin(a);
        case TransferAdmin(_) => r := Err(InvalidProposalType);
        case ScheduleUpgrade(_, _) => r := Err(InvalidProposalType);
        case EmergencyAdminTransfer(_) => r := Err(InvalidProposalType);
      }
    }

    method RecordExecution(id: u64)
      requires stats.totalExecuted < U64_MAX
      modifies this`pending, this`stats
      ensures Book() == Spec.RecordExecution(old(Book()), id)
    {
      RemoveFromPendingList(id);
      stats := stats.(totalExecuted := stats.totalExecuted + 1, pendingCount := Max(stats.pendingCount - 1, 0));
    }

    method ExecuteProposal(now: u64, id: u64, balance: Option<i128>) returns (r: Outcome<()>)
      modifies this
      ensures (Contents(), r) == Spec.ExecuteProposal(old(Contents()), now, id, balance)
    {
      if id !in proposals { return Err(ProposalNotFound); }
      var saved := Contents();
      var p := proposals[id];
      if p.executed { return Err(ProposalAlreadyExecuted); }
      if now > p.expiry {
        r := CleanupExpiredProposal(id);
        return if r.Ok? then Err(ProposalExpired) else r;
      }
      if p.timeLockUntil.Some? && now < p.timeLockUntil.value { return Err(TimeLockActive); }
      if |p.approvals| < p.requiredSignatures { return Err(InsufficientApprovals); }
      proposals := proposals[id := p.(executed := true)];
      r := RunAction(p.action, balance);
      if !r.Ok? { return; }
      if stats.totalExecuted == U64_MAX {
        Restore(saved);
        return Trap;
      }
      RecordExecution(id);
      return Ok(());
    }

    method Enqueue(p: Proposal)
      requires counter < U64_MAX && stats.totalCreated < U64_MAX && stats.pendingCount < U32_MAX
      modifies this`proposals, this`counter, this`pending, this`stats
      ensures Book() == Spec.Enqueue(old(Book()), p)
    {
      proposals := proposals[counter := p];
      pending := pending + [counter];
      counter := counter + 1;
      stats := stats.(totalCreated := stats.totalCreated + 1, pendingCount := stats.pendingCount + 1);
    }

    method CreateProposal(now: u64, proposer: Address, action: ProposalAction, balance: Option<i128>)
      returns (r: Outcome<u64>)
      modifies this
      ensures (Contents(), r) == Spec.CreateProposal(old(Contents()), now, proposer, action, balance)
    {
      var authorised := RequireAdmin(proposer);
      if !authorised { return Err(AdminRequired); }
      if multisig.None? { return Err(MultisigNotEnabled); }
      var saved := Contents();
      var c := multisig.value;
      if stats.pendingCount >= c.maxPendingProposals { return Err(MaxProposalsReached); }
      if Spec.CreationOverflows(saved.book, c, now, action) { return Trap; }
      var id := counter;
      var proposalType := action.ClassifyType();
      var required := c.GetRequiredSignatures(proposalType);
      var expiry := now + c.proposalExpiryDuration;
      var timeLockUntil := if proposalType.RequiresTimeLock() then Some(now + c.timeLockDuration) else None;
      var p := Proposal(id, proposer, action, proposalType, [proposer], [], false, now, expiry, timeLockUntil,
                        required);
      assert p == Spec.NewProposal(c, now, id, proposer, action);
      Enqueue(p);
      if timeLockUntil.None? && |p.approvals| >= required {
        var executed := ExecuteProposal(now, id, balance);
        if executed.Trap? {
          Restore(saved);
          return Trap;
        }
        if executed.Err? { return Err(executed.error); }
      }
      return Ok(id);
    }

    method ApproveProposal(now: u64, approver: Address, id: u64, balance: Option<i128>) returns (r: Outcome<()>)
      modifies this
      ensures (Contents(), r) == Spec.ApproveProposal(old(Contents()), now, approver, id, balance)
    {
      var authorised := RequireAdmin(approver);
      if !authorised { return Err(AdminRequired); }
      if id !in proposals { return Err(ProposalNotFound); }
      var saved := Contents();
      var p := proposals[id];
      if p.executed { return Err(ProposalAlreadyExecuted); }
      if now > p.expiry {
        r := CleanupExpiredProposal(id);
        return if r.Ok? then Err(ProposalExpired) else r;
      }
      if approver in p.approvals { return Err(AlreadyApproved); }
      if approver in p.rejections { return Err(AlreadyRejected); }
      p := p.(approvals := p.approvals + [approver]);
      proposals := proposals[id := p];
      var canExecute := |p.approvals| >= p.requiredSignatures;
      var timeLockPassed := p.timeLockUntil.Some? ==> now >= p.timeLockUntil.value;
      if canExecute && timeLockPassed {
        r := ExecuteProposal(now, id, balance);
        if r.Trap? { Restore(saved); }
        return;
      }
      return Ok(());
    }

    method RejectProposal(now: u64, rejecter: Address, id: u64) returns (r: Outcome<()>)
      modifies this
      ensures (Contents(), r) == Spec.RejectProposal(old(Contents()), now, rejecter, id)
    {
      var authorised := RequireAdmin(rejecter);
      if !authorised { return Err(AdminRequired); }
      if id !in proposals { return Err(ProposalNotFound); }
      var p := proposals[id];
      if p.executed { return Err(ProposalAlreadyExecuted); }
      if now > p.expiry {
        r := CleanupExpiredProposal(id);
        return if r.Ok? then Err(ProposalExpired) else r;
      }
      if rejecter in p.rejections { return Err(AlreadyRejected); }
      if rejecter in p.approvals { return Err(AlreadyApproved); }
      p := p.(rejections := p.rejections + [rejecter]);
      if multisig.None? { return Err(MultisigNotEnabled); }
      var rejectionThreshold := Max(|multisig.value.admins| / 3, 1);
      if |p.rejections| > rejectionThreshold {
        if stats.totalRejected == U64_MAX { return Trap; }
        RemoveFromPendingList(id);
        proposals := proposals - {id};
        stats := stats.(totalRejected := stats.totalRejected + 1, pendingCount := Max(stats.pendingCount - 1, 0));
        return Err(ProposalRejected);
      }
      proposals := proposals[id := p];
      return Ok(());
    }

    method CancelProposal(proposer: Address, id: u64) returns (r: Outcome<()>)
      modifies this
      ensures (Contents(), r) == Spec.CancelProposal(old(Contents()), proposer, id)
    {
      if id !in proposals { return Err(ProposalNotFound); }
      var p := proposals[id];
      if p.proposer != proposer { return Err(Unauthorized); }
      if p.executed { return Err(ProposalAlreadyExecuted); }
      RemoveFromPendingList(id);
      proposals := proposals - {id};
      stats := stats.(pendingCount := Max(stats.pendingCount - 1, 0));
      return Ok(());
    }

    // -------------------------------------------------------------- direct administration

    method SetRole(caller: Address, user: Address, role: UserRole, balance: Option<i128>) returns (r: Outcome<()>)
      modifies this
      ensures (Rules(), r) == Spec.SetRoleDirectly(old(Rules()), caller, user, role, balance) && Book() == old(Book())
    {
      if !initialized { return Err(NotInitialized); }
      if paused { return Err(ContractPaused); }
      if user in blacklisted { return Err(Unauthorized); }
      var authorised := RequireAdmin(caller);
      if !authorised { return Err(AdminRequired); }
      r := ValidateRoleAssignment(role, balance);
      if r.Ok? { roles := roles[user := role]; }
    }

    method RemoveRole(caller: Address, user: Address) returns (r: Outcome<()>)
      modifies this
      ensures (Rules(), r) == Spec.RemoveRoleDirectly(old(Rules()), caller, user) && Book() == old(Book())
    {
      var authorised := RequireAdmin(caller);
      if !authorised { return Err(AdminRequired); }
      if admin.Some? && user == admin.value { return Err(RoleHierarchyViolation); }
      if caller == user && user in roles && roles[user] == UserRole.Admin { return Err(RoleHierarchyViolation); }
      roles := roles[user := Guest];
      return Ok(());
    }

    method SetBlacklisted(caller: Address, user: Address, listed: bool) returns (r: Outcome<()>)
      modifies this
      ensures (Rules(), r) == Spec.SetBlacklisted(old(Rules()), caller, user, listed) && Book() == old(Book())
    {
      var authorised := RequireAdmin(caller);
      if !authorised { return Err(AdminRequired); }
      blacklisted := if listed then blacklisted + {user} else blacklisted - {user};
      return Ok(());
    }

    method UpdateConfig(caller: Address, c: AccessControlConfig) returns (r: Outcome<()>)
      modifies this
      ensures (Rules(), r) == Spec.UpdateConfigDirectly(old(Rules()), caller, c) && Book() == old(Book())
    {
      if multisig.Some? { return Err(AdminRequired); }
      var authorised := RequireAdmin(caller);
      if !authorised { return Err(AdminRequired); }
      config := c;
      return Ok(());
    }

    method SetPaused(caller: Address, value: bool) returns (r: Outcome<()>)
      modifies this
      ensures (Rules(), r) == Spec.SetPausedDirectly(old(Rules()), caller, value) && Book() == old(Book())
    {
      if multisig.Some? { return Err(AdminRequired); }
      var authorised := RequireAdmin(caller);
      if !authorised { return Err(AdminRequired); }
      paused := value;
      return Ok(());
    }

    method DeactivateEmergencyMode(caller: Address) returns (r: Outcome<()>)
      modifies this
      ensures (Rules(), r) == Spec.DeactivateEmergency(old(Rules()), caller) && Book() == old(Book())
    {
      var authorised := RequireAdmin(caller);
      if !authorised { return Err(AdminRequired); }
      if multisig.Some? { return Err(AdminRequired); }
      emergencyMode := false;
      return Ok(());
    }

    method UpdateMultisigConfig(caller: Address, c: MultiSigConfig) returns (r: Outcome<()>)
      modifies this
      ensures (Rules(), r) == Spec.UpdateMultisigDirectly(old(Rules()), caller, c) && Book() == old(Book())
    {
      var authorised := RequireAdmin(caller);
      if !authorised { return Err(AdminRequired); }
      if multisig.None? { return Err(MultisigNotEnabled); }
      if !c.Validate() { return Err(InvalidMultisigConfig); }
      return Err(AdminRequired);
    }

    method ProposeAdminTransfer(now: u64, current: Address, next: Address) returns (r: Outcome<()>)
      modifies this
      ensures (Rules(), r) == Spec.ProposeAdminTransfer(old(Rules()), now, current, next) && Book() == old(Book())
    {
      var authorised := RequireAdmin(current);
      if !authorised { return Err(AdminRequired); }
      if current == next { return Err(InvalidAddress); }
      if multisig.Some? { return Err(InvalidAddress); }
      if now + 86400 > U64_MAX { return Trap; }
      transfer := Some(PendingAdminTransfer(next, current, now + 86400));
      return Ok(());
    }

    method AcceptAdminTransfer(now: u64, next: Address) returns (r: Outcome<()>)
      modifies this
      ensures (Rules(), r) == Spec.AcceptAdminTransfer(old(Rules()), now, next) && Book() == old(Book())
    {
      if transfer.None? { return Err(InvalidAddress); }
      if transfer.value.proposedAdmin != next { return Err(Unauthorized); }
      if now > transfer.value.expiry { return Err(InvalidAddress); }
      if admin.None? { return Err(AdminRequired); }
      var oldAdmin := admin.value;
      admin := Some(next);
      roles := roles[next := UserRole.Admin];
      roles := roles[oldAdmin := Guest];
      transfer := None;
      return Ok(());
    }

    method CancelAdminTransfer(current: Address) returns (r: Outcome<()>)
      modifies this
      ensures (Rules(), r) == Spec.CancelAdminTransfer(old(Rules()), current) && Book() == old(Book())
    {
      var authorised := RequireAdmin(current);
      if !authorised { return Err(AdminRequired); }
      if transfer.None? { return Err(InvalidAddress); }
      if transfer.value.proposer != current { return Err(Unauthorized); }
      transfer := None;
      return Ok(());
    }
  }

  /** Once the cleanup loop has trapped, the whole loop traps. */
  lemma {:induction false} ExpireAllTraps(b: Spec.Book, now: u64, ids: seq<u64>, k: nat)
    requires k <= |ids|
    requires Spec.ExpireAll(b, now, ids[..k]).1.Trap?
    ensures Spec.ExpireAll(b, now, ids).1.Trap?
    decreases |ids| - k
  {
    if k < |ids| {
      assert ids[..k + 1][..k] == ids[..k];
      ExpireAllTraps(b, now, ids, k + 1);
    } else {
      assert ids[..k] == ids;
    }
  }
}
