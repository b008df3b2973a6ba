/** Value types and storage of the hub contract (contracts/manage_hub/src/types.rs, membership_token.rs). */
module HubTypes {
  import opened Prelude

  type TokenId = nat

  datatype MembershipStatus = Active | Paused | GracePeriod | Expired | Revoked | Inactive

  datatype MembershipToken = MembershipToken(
    id: TokenId,
    user: Address,
    status: MembershipStatus,
    issueDate: u64,
    expiryDate: u64,
    tierId: Option<string>,
    graceEnteredAt: Option<u64>,
    graceExpiresAt: Option<u64>,
    renewalAttempts: u32,
    lastRenewalAttemptAt: Option<u64>,
    currentVersion: u32)

  datatype UpgradeConfig = UpgradeConfig(upgradesEnabled: bool, adminOnly: bool, maxRollbacks: u32)

  datatype Snapshot = Snapshot(
    version: u32,
    expiryDate: u64,
    status: MembershipStatus,
    tierId: Option<string>,
    capturedAt: u64,
    versionLabel: Option<string>)

  datatype UpgradeRecord = UpgradeRecord(
    tokenId: TokenId,
    fromVersion: u32,
    toVersion: u32,
    upgradedBy: Address,
    upgradedAt: u64,
    versionLabel: Option<string>,
    isRollback: bool)

  datatype BatchUpgradeResult = BatchUpgradeResult(tokenId: TokenId, success: bool, newVersion: Option<u32>)

  datatype RenewalConfig = RenewalConfig(gracePeriodDuration: u64, autoRenewalNotice: u64, renewalsEnabled: bool)

  const DEFAULT_RENEWALS := RenewalConfig(7 * 24 * 60 * 60, 24 * 60 * 60, true)

  datatype BillingCycle = Monthly | Annual

  datatype RenewalTrigger = Manual | AutoRenewal

  datatype RenewalEntry = RenewalEntry(
    timestamp: u64,
    tierId: string,
    amount: i128,
    paymentToken: Address,
    trigger: RenewalTrigger,
    oldExpiry: u64,
    newExpiry: u64)

  datatype AutoRenewalSettings = AutoRenewalSettings(
    enabled: bool, tokenId: TokenId, paymentToken: Address, updatedAt: u64)

  datatype FractionInfo = FractionInfo(
    totalShares: positive128,
    minFractionSize: positive128,
    createdAt: u64,
    createdBy: Address)

  datatype DividendDistribution = DividendDistribution(totalAmount: i128, recipients: nat, distributedAt: u64)

  datatype FractionHolder = FractionHolder(holder: Address, shares: amount128, votingPowerBps: u32)

  datatype Error =
    | AdminNotSet | TokenAlreadyIssued | TokenNotFound | Unauthorized | TokenExpired | InvalidExpiryDate
    | InvalidPaymentAmount | InvalidPaymentToken | InsufficientBalance | TimestampOverflow | MetadataNotFound
    | SubscriptionNotActive | PauseCountExceeded | TierNotFound | RenewalNotAllowed | UsdcContractNotSet
    | TransferNotAllowedInGracePeriod | GracePeriodExpired | AutoRenewalFailed | TokenFractionalized
    | OperationsPaused

  datatype Result<+T> = Ok(value: T) | Err(error: Error)

  // ---------------------------------------------------------------- storage

  datatype Upgrades = Upgrades(
    config: Option<UpgradeConfig>,
    snapshots: map<(TokenId, u32), Snapshot>,
    history: map<TokenId, seq<UpgradeRecord>>)

  datatype Renewals = Renewals(
    config: Option<RenewalConfig>,
    history: map<TokenId, seq<RenewalEntry>>,
    auto: map<Address, AutoRenewalSettings>)

  datatype Fractions = Fractions(
    info: map<TokenId, FractionInfo>,
    shares: map<TokenId, Ledger>,
    rewards: map<TokenId, Ledger>)

  datatype Hub = Hub(
    admin: Option<Address>,
    tokens: map<TokenId, MembershipToken>,
    up: Upgrades,
    ren: Renewals,
    fr: Fractions)

  const EMPTY_HUB := Hub(None, map[], Upgrades(None, map[], map[]), Renewals(None, map[], map[]),
                         Fractions(map[], map[], map[]))

  function UpgradeHistoryOf(h: Hub, id: TokenId): seq<UpgradeRecord> {
    if id in h.up.history then h.up.history[id] else []
  }

  function RenewalHistoryOf(h: Hub, id: TokenId): seq<RenewalEntry> {
    if id in h.ren.history then h.ren.history[id] else []
  }

  function LedgerOf(m: map<TokenId, Ledger>, id: TokenId): Ledger {
    if id in m then m[id] else map[]
  }
}
