/** Value types of the access-control contract (contracts/access_control/src/types.rs). */
module GovernanceTypes {
  import opened Prelude

  datatype UserRole = Guest | Member | Admin

  datatype AccessControlConfig = AccessControlConfig(
    membershipTokenContract: Option<Address>,
    requireMembershipForRoles: bool,
    minTokenBalance: i128,
    subscriptionContract: Option<Address>,
    enforceTierRestrictions: bool)

  const DEFAULT_CONFIG := AccessControlConfig(None, false, 0, None, false)

  datatype ProposalType = Standard | Critical | Emergency | TimeLocked {
    predicate RequiresTimeLock() {
      TimeLocked? || Critical?
    }
  }

  datatype MultiSigConfig = MultiSigConfig(
    admins: seq<Address>,
    requiredSignatures: u32,
    criticalThreshold: u32,
    emergencyThreshold: u32,
    timeLockDuration: u64,
    maxPendingProposals: u32,
    proposalExpiryDuration: u64)
  {
    predicate Validate() {
      && |admins| > 0
      && requiredSignatures > 0
      && requiredSignatures <= |admins|
      && criticalThreshold >= requiredSignatures
      && emergencyThreshold >= criticalThreshold
      && emergencyThreshold <= |admins|
      && timeLockDuration > 0
      && maxPendingProposals > 0
      && proposalExpiryDuration > 0
    }

    function GetRequiredSignatures(t: ProposalType): u32 {
      match t
      case Standard => requiredSignatures
      case Critical => criticalThreshold
      case TimeLocked => criticalThreshold
      case Emergency => emergencyThreshold
    }
  }

  datatype ProposalAction =
    | SetRole(user: Address, role: UserRole)
    | UpdateConfig(config: AccessControlConfig)
    | AddAdmin(newAdmin: Address)
    | RemoveAdmin(oldAdmin: Address)
    | Pause
    | Unpause
    | TransferAdmin(target: Address)
    | UpdateMultisigConfig(newConfig: MultiSigConfig)
    | EmergencyPause(reason: string)
    | BatchBlacklist(users: seq<Address>)
    | ScheduleUpgrade(contract: Address, at: u64)
    | EmergencyAdminTransfer(target: Address)
  {
    function ClassifyType(): ProposalType {
      match this
      case SetRole(_, _) => Standard
      case UpdateConfig(_) => Critical
      case AddAdmin(_) => Critical
      case RemoveAdmin(_) => Critical
      case Pause => Critical
      case Unpause => Standard
      case TransferAdmin(_) => Critical
      case UpdateMultisigConfig(_) => Critical
      case EmergencyPause(_) => Emergency
      case BatchBlacklist(_) => Critical
      case ScheduleUpgrade(_, _) => TimeLocked
      case EmergencyAdminTransfer(_) => Emergency
    }
  }

  datatype Proposal = Proposal(
    id: u64,
    proposer: Address,
    action: ProposalAction,
    proposalType: ProposalType,
    approvals: seq<Address>,
    rejections: seq<Address>,
    executed: bool,
    createdAt: u64,
    expiry: u64,
    timeLockUntil: Option<u64>,
    requiredSignatures: u32)

  datatype PendingAdminTransfer = PendingAdminTransfer(proposedAdmin: Address, proposer: Address, expiry: u64)

  datatype ProposalStats = ProposalStats(
    totalCreated: u64,
    totalExecuted: u64,
    totalRejected: u64,
    totalExpired: u64,
    pendingCount: u32)

  const NO_STATS := ProposalStats(0, 0, 0, 0, 0)

  datatype Error =
    | Unauthorized | AdminRequired | MembershipTokenNotSet | MembershipTokenCallFailed
    | InsufficientMembership | NotInitialized | ConfigurationError | InvalidAddress
    | RoleHierarchyViolation | ContractPaused | MultisigNotEnabled | InsufficientApprovals
    | ProposalNotFound | ProposalAlreadyExecuted | ProposalExpired | TimeLockActive
    | AlreadyApproved | AlreadyRejected | MaxProposalsReached | InvalidProposalType
    | InvalidMultisigConfig | CannotRemoveLastAdmin | DuplicateAdmin | ProposalRejected

  /** An entry point returns a value, returns an error, or traps on an arithmetic overflow
      (contracts/Cargo.toml sets overflow-checks); the host discards every write of a trapped call. */
  datatype Outcome<+T> = Ok(value: T) | Err(error: Error) | Trap
}
