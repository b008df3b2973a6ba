/** Token upgrade, rollback and batch upgrade as functions on the hub's storage
    (contracts/manage_hub/src/upgrade.rs, migration.rs). A failed invocation leaves no writes. */
module UpgradeSpec {
  import opened Prelude
  import opened HubTypes

  function CaptureSnapshot(t: MembershipToken, now: u64, versionLabel: Option<string>): Snapshot {
    Snapshot(t.currentVersion, t.expiryDate, t.status, t.tierId, now, versionLabel)
  }

  function ApplySnapshot(t: MembershipToken, s: Snapshot, newVersion: u32): MembershipToken {
    MembershipToken(t.id, t.user, s.status, t.issueDate, s.expiryDate, s.tierId, t.graceEnteredAt, t.graceExpiresAt,
                    t.renewalAttempts, t.lastRenewalAttemptAt, newVersion)
  }

  function MigrateFields(t: MembershipToken, newVersion: u32, newExpiry: Option<u64>,
                         newTier: Option<Option<string>>, newStatus: Option<MembershipStatus>): MembershipToken {
    MembershipToken(t.id, t.user, if newStatus.Some? then newStatus.value else t.status, t.issueDate,
                    if newExpiry.Some? then newExpiry.value else t.expiryDate,
                    if newTier.Some? then newTier.value else t.tierId,
                    t.graceEnteredAt, t.graceExpiresAt, t.renewalAttempts, t.lastRenewalAttemptAt, newVersion)
  }

  function CountRollbacks(history: seq<UpgradeRecord>): nat {
    if history == [] then 0
    else
      var last := |history| - 1;
      CountRollbacks(history[..last]) + if history[last].isRollback then 1 else 0
  }

  /** The three writes every version change makes: the snapshot of the token it leaves behind, the new token,
      and one history record. */
  function Advance(h: Hub, now: u64, id: TokenId, t: MembershipToken, actor: Address,
                   versionLabel: Option<string>, isRollback: bool): Hub
    requires id in h.tokens
  {
    var left := h.tokens[id];
    h.(tokens := h.tokens[id := t],
       up := h.up.(
         snapshots := h.up.snapshots[(id, left.currentVersion) := CaptureSnapshot(left, now, versionLabel)],
         history := h.up.history[id := UpgradeHistoryOf(h, id)
           + [UpgradeRecord(id, left.currentVersion, t.currentVersion, actor, now, versionLabel, isRollback)]]))
  }

  function SetUpgradeConfig(h: Hub, admin: Address, config: UpgradeConfig): (Hub, Result<()>) {
    if h.admin.None? then (h, Err(AdminNotSet))
    else if h.admin.value != admin then (h, Err(Unauthorized))
    else (h.(up := h.up.(config := Some(config))), Ok(()))
  }

  function UpgradeToken(h: Hub, now: u64, caller: Address, id: TokenId, versionLabel: Option<string>,
                        newExpiry: Option<u64>, newTier: Option<string>,
                        newStatus: Option<MembershipStatus>): (Hub, Result<u32>) {
    if h.up.config.None? then (h, Err(AdminNotSet))
    else if !h.up.config.value.upgradesEnabled then (h, Err(SubscriptionNotActive))
    else if h.admin.None? then (h, Err(AdminNotSet))
    else
      var isAdmin := h.admin.value == caller;
      if h.up.config.value.adminOnly && !isAdmin then (h, Err(Unauthorized))
      else if id !in h.tokens then (h, Err(TokenNotFound))
      else
        var t := h.tokens[id];
        if !isAdmin && t.user != caller then (h, Err(Unauthorized))
        else if t.currentVersion == U32_MAX then (h, Err(TimestampOverflow))
        else
          var tier := if newTier.Some? then Some(Some(newTier.value)) else None;
          var to := t.currentVersion + 1;
          (Advance(h, now, id, MigrateFields(t, to, newExpiry, tier, newStatus), caller, versionLabel, false), Ok(to))
  }

  /** `upgrade_single_for_batch`. */
  function UpgradeSingle(h: Hub, now: u64, admin: Address, id: TokenId, versionLabel: Option<string>,
                         newExpiry: Option<u64>): (Hub, Result<u32>) {
    if id !in h.tokens then (h, Err(TokenNotFound))
    else if h.tokens[id].currentVersion == U32_MAX then (h, Err(TimestampOverflow))
    else
      var t := h.tokens[id];
      var to := t.currentVersion + 1;
      (Advance(h, now, id, MigrateFields(t, to, newExpiry, None, None), admin, versionLabel, false), Ok(to))
  }

  function BatchLoop(h: Hub, now: u64, admin: Address, ids: seq<TokenId>, versionLabel: Option<string>,
                     newExpiry: Option<u64>): (Hub, seq<BatchUpgradeResult>) {
    if ids == [] then (h, [])
    else
      var last := |ids| - 1;
      var (h1, rs) := BatchLoop(h, now, admin, ids[..last], versionLabel, newExpiry);
      var (h2, r) := UpgradeSingle(h1, now, admin, ids[last], versionLabel, newExpiry);
      (h2, rs + [BatchUpgradeResult(ids[last], r.Ok?, if r.Ok? then Some(r.value) else None)])
  }

  function BatchUpgrade(h: Hub, now: u64, admin: Address, ids: seq<TokenId>, versionLabel: Option<string>,
                        newExpiry: Option<u64>): (Hub, Result<seq<BatchUpgradeResult>>) {
    if h.admin.None? then (h, Err(AdminNotSet))
    else if h.admin.value != admin then (h, Err(Unauthorized))
    else if h.up.config.None? then (h, Err(AdminNotSet))
    else if !h.up.config.value.upgradesEnabled then (h, Err(SubscriptionNotActive))
    else
      var (h1, rs) := BatchLoop(h, now, admin, ids, versionLabel, newExpiry);
      (h1, Ok(rs))
  }

  const ROLLBACK: Option<string> := Some("rollback")

  function Rollback(h: Hub, now: u64, admin: Address, id: TokenId, target: u32): (Hub, Result<u32>) {
    if h.admin.None? then (h, Err(AdminNotSet))
    else if h.admin.value != admin then (h, Err(Unauthorized))
    else if h.up.config.None? then (h, Err(AdminNotSet))
    else
      var limit := h.up.config.value.maxRollbacks;
      if limit > 0 && CountRollbacks(UpgradeHistoryOf(h, id)) >= limit then (h, Err(PauseCountExceeded))
      else if id !in h.tokens then (h, Err(TokenNotFound))
      else if (id, target) !in h.up.snapshots then (h, Err(MetadataNotFound))
      else
        var t := h.tokens[id];
        if t.currentVersion == U32_MAX then (h, Err(TimestampOverflow))
        else
          var to := t.currentVersion + 1;
          (Advance(h, now, id, ApplySnapshot(t, h.up.snapshots[(id, target)], to), admin, ROLLBACK, true), Ok(to))
  }
}
