/** Issue and transfer of membership tokens, and the hub as one state machine
    (contracts/manage_hub/src/membership_token.rs). A failed invocation leaves no writes. */
module HubSpec {
  import opened Prelude
  import opened HubTypes
  import opened RenewalSpec
  import Up = UpgradeSpec
  import Fr = FractionSpec

  function SetAdmin(h: Hub, admin: Address): (Hub, Result<()>) {
    (h.(admin := Some(admin)), Ok(()))
  }

  function IssueToken(h: Hub, now: u64, w: World, id: TokenId, user: Address, expiry: u64): (Hub, Result<()>) {
    if w.blocked then (h, Err(OperationsPaused))
    else if h.admin.None? then (h, Err(AdminNotSet))
    else if id in h.tokens then (h, Err(TokenAlreadyIssued))
    else if expiry <= now then (h, Err(InvalidExpiryDate))
    else
      (h.(tokens := h.tokens[id := MembershipToken(id, user, Active, now, expiry, None, None, None, 0, None, 0)]),
       Ok(()))
  }

  /** `internal_transfer_token` behind the pause guard. */
  function TransferToken(h: Hub, w: World, id: TokenId, newUser: Address): (Hub, Result<()>) {
    if w.blocked then (h, Err(OperationsPaused))
    else if id in h.fr.info then (h, Err(TokenFractionalized))
    else if id !in h.tokens then (h, Err(TokenNotFound))
    else if h.tokens[id].status == GracePeriod then (h, Err(TransferNotAllowedInGracePeriod))
    else if h.tokens[id].status != Active then (h, Err(TokenExpired))
    else (h.(tokens := h.tokens[id := h.tokens[id].(user := newUser)]), Ok(()))
  }

  /** `transfer_from`; `refusal` is the error, if any, with which the allowance module refuses the spender. */
  function TransferFrom(h: Hub, w: World, id: TokenId, owner: Address, to: Address, amount: i128,
                        refusal: Option<Error>): (Hub, Result<()>) {
    if w.blocked then (h, Err(OperationsPaused))
    else if id in h.fr.info then (h, Err(TokenFractionalized))
    else if amount <= 0 then (h, Err(InvalidPaymentAmount))
    else if id !in h.tokens then (h, Err(TokenNotFound))
    else if h.tokens[id].user != owner then (h, Err(Unauthorized))
    else if h.tokens[id].status == GracePeriod then (h, Err(TransferNotAllowedInGracePeriod))
    else if h.tokens[id].status != Active then (h, Err(TokenExpired))
    else if refusal.Some? then (h, Err(refusal.value))
    else (h.(tokens := h.tokens[id := h.tokens[id].(user := to)]), Ok(()))
  }

  // ---------------------------------------------------------------- calls and runs

  datatype Call =
    | DoSetAdmin(newAdmin: Address)
    | DoIssue(id: TokenId, user: Address, expiry: u64)
    | DoTransfer(id: TokenId, user: Address)
    | DoTransferFrom(id: TokenId, owner: Address, user: Address, amount: i128, refusal: Option<Error>)
    | DoUpgradeConfig(caller: Address, upgradeConfig: UpgradeConfig)
    | DoUpgrade(caller: Address, id: TokenId, versionLabel: Option<string>, newExpiry: Option<u64>,
                newTier: Option<string>, newStatus: Option<MembershipStatus>)
    | DoBatch(caller: Address, ids: seq<TokenId>, versionLabel: Option<string>, newExpiry: Option<u64>)
    | DoRollback(caller: Address, id: TokenId, target: u32)
    | DoRenewalConfig(renewalConfig: RenewalConfig)
    | DoAutoSettings(id: TokenId, enabled: bool, paymentToken: Address)
    | DoRenew(id: TokenId, paymentToken: Address, tierId: string, cycle: BillingCycle)
    | DoAutoRenew(id: TokenId)
    | DoGrace(id: TokenId)
    | DoFractionalize(id: TokenId, totalShares: i128, minSize: i128)
    | DoMoveFraction(id: TokenId, from: Address, to: Address, amount: i128)
    | DoRecombine(id: TokenId, holder: Address)
    | DoDistribute(id: TokenId, amount: i128)

  datatype Event = Event(now: u64, w: World, call: Call)

  predicate IsVersionCall(c: Call) {
    c.DoUpgrade? || c.DoBatch? || c.DoRollback?
  }

  predicate IsRenewalCall(c: Call) {
    c.DoRenewalConfig? || c.DoAutoSettings? || c.DoRenew? || c.DoAutoRenew? || c.DoGrace?
  }

  predicate IsFractionCall(c: Call) {
    c.DoFractionalize? || c.DoMoveFraction? || c.DoRecombine? || c.DoDistribute?
  }

  function Step(h: Hub, e: Event): Hub {
    match e.call
    case DoSetAdmin(a) => SetAdmin(h, a).0
    case DoIssue(id, user, expiry) => IssueToken(h, e.now, e.w, id, user, expiry).0
    case DoTransfer(id, user) => TransferToken(h, e.w, id, user).0
    case DoTransferFrom(id, owner, user, amount, refusal) => TransferFrom(h, e.w, id, owner, user, amount, refusal).0
    case DoUpgradeConfig(a, c) => Up.SetUpgradeConfig(h, a, c).0
    case DoUpgrade(a, id, l, x, t, s) => Up.UpgradeToken(h, e.now, a, id, l, x, t, s).0
    case DoBatch(a, ids, l, x) => Up.BatchUpgrade(h, e.now, a, ids, l, x).0
    case DoRollback(a, id, v) => Up.Rollback(h, e.now, a, id, v).0
    case DoRenewalConfig(c) => SetRenewalConfig(h, c).0
    case DoAutoSettings(id, on, p) => SetAutoRenewal(h, e.now, id, on, p).0
    case DoRenew(id, p, tier, cycle) => RenewToken(h, e.now, e.w, id, p, tier, cycle).0
    case DoAutoRenew(id) => AutoRenew(h, e.now, e.w, id).0
    case DoGrace(id) => ApplyGrace(h, e.now, id).0
    case DoFractionalize(id, n, m) => Fr.Fractionalize(h, e.now, id, n, m).0
    case DoMoveFraction(id, from, to, amount) => Fr.TransferFraction(h, id, from, to, amount).0
    case DoRecombine(id, holder) => Fr.Recombine(h, id, holder).0
    case DoDistribute(id, amount) => Fr.Distribute(h, e.now, id, amount).0
  }

  function Run(es: seq<Event>): Hub {
    if es == [] then EMPTY_HUB
    else Step(Run(es[..|es| - 1]), es[|es| - 1])
  }
}
