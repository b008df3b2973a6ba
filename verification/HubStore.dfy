/** The hub's contract storage, and the upgrade, renewal, fraction and transfer operations working on it in place. */
module HubStore {
  import opened Prelude
  import opened HubTypes
  import opened RenewalSpec
  import Spec = HubSpec
  import Up = UpgradeSpec
  import Fr = FractionSpec
  import Entry = HubEntryPoints

  class Env {
    var admin: Option<Address>
    var tokens: map<TokenId, MembershipToken>
    var upgradeConfig: Option<UpgradeConfig>
    var snapshots: map<(TokenId, u32), Snapshot>
    var upgradeHistory: map<TokenId, seq<UpgradeRecord>>
    var renewalConfig: Option<RenewalConfig>
    var renewalHistory: map<TokenId, seq<RenewalEntry>>
    var autoRenewal: map<Address, AutoRenewalSettings>
    var fractionInfo: map<TokenId, FractionInfo>
    var fractionShares: map<TokenId, Ledger>
    var pendingRewards: map<TokenId, Ledger>

    function Contents(): Hub
      reads this
    {
      Hub(admin, tokens, Upgrades(upgradeConfig, snapshots, upgradeHistory),
          Renewals(renewalConfig, renewalHistory, autoRenewal),
          Fractions(fractionInfo, fractionShares, pendingRewards))
    }

    constructor ()
      ensures Contents() == EMPTY_HUB
    {
      admin, tokens := None, map[];
      upgradeConfig, snapshots, upgradeHistory := None, map[], map[];
      renewalConfig, renewalHistory, autoRenewal := None, map[], map[];
      fractionInfo, fractionShares, pendingRewards := map[], map[], map[];
    }

    // -------------------------------------------------------------- membership tokens

    method SetAdmin(newAdmin: Address) returns (r: Result<()>)
      modifies this`admin
      ensures (Contents(), r) == Spec.SetAdmin(old(Contents()), newAdmin)
    {
      admin := Some(newAdmin);
      return Ok(());
    }

    method IssueToken(now: u64, w: World, id: TokenId, user: Address, expiry: u64) returns (r: Result<()>)
      modifies this`tokens
      ensures (Contents(), r) == Spec.IssueToken(old(Contents()), now, w, id, user, expiry)
    {
      if w.blocked { return Err(OperationsPaused); }
      if admin.None? { return Err(AdminNotSet); }
      if id in tokens { return Err(TokenAlreadyIssued); }
      if expiry <= now { return Err(InvalidExpiryDate); }
      tokens := tokens[id := MembershipToken(id, user, Active, now, expiry, None, None, None, 0, None, 0)];
      return Ok(());
    }

    method TransferToken(w: World, id: TokenId, newUser: Address) returns (r: Result<()>)
      modifies this`tokens
      ensures (Contents(), r) == Spec.TransferToken(old(Contents()), w, id, newUser)
    {
      if w.blocked { return Err(OperationsPaused); }
      if id in fractionInfo { return Err(TokenFractionalized); }
      if id !in tokens { return Err(TokenNotFound); }
      var token := tokens[id];
      if token.status == GracePeriod { return Err(TransferNotAllowedInGracePeriod); }
      if token.status != Active { return Err(TokenExpired); }
      token := token.(user := newUser);
      tokens := tokens[id := token];
      return Ok(());
    }

    method TransferFrom(w: World, id: TokenId, owner: Address, to: Address, amount: i128, refusal: Option<Error>)
      returns (r: Result<()>)
      modifies this`tokens
      ensures (Contents(), r) == Spec.TransferFrom(old(Contents()), w, id, owner, to, amount, refusal)
    {
      if w.blocked { return Err(OperationsPaused); }
      if id in fractionInfo { return Err(TokenFractionalized); }
      if amount <= 0 { return Err(InvalidPaymentAmount); }
      if id !in tokens { return Err(TokenNotFound); }
      var token := tokens[id];
      if token.user != owner { return Err(Unauthorized); }
      if token.status == GracePeriod { return Err(TransferNotAllowedInGracePeriod); }
      if token.status != Active { return Err(TokenExpired); }
      if refusal.Some? { return Err(refusal.value); }
      token := token.(user := to);
      tokens := tokens[id := token];
      return Ok(());
    }

    method BatchTransferTokens(w: World, items: seq<Entry.TransferItem>) returns (r: Result<()>)
      modifies this`tokens
      ensures (Contents(), r) == Entry.BatchTransfer(old(Contents()), w, items)
    {
      if w.blocked { return Err(OperationsPaused); }
      var saved := tokens;
      for i := 0 to |items|
        invariant (Contents(), Ok(())) == Entry.TransferEach(old(Contents()), w, items[..i])
      {
        assert items[..i + 1][..i] == items[..i];
        r := TransferToken(w.(blocked := items[i].paused), items[i].id, items[i].user);
        if r.Err? {
          TransferFailureEndsBatch(old(Contents()), w, items, i + 1);
          tokens := saved;  // the host discards the writes of a failed call
          return;
        }
      }
      assert items[..|items|] == items;
      return Ok(());
    }

    method BatchIssueTokens(now: u64, w: World, items: seq<Entry.IssueItem>) returns (r: Result<()>)
      modifies this`tokens
      ensures (Contents(), r) == Entry.BatchIssue(old(Contents()), now, w, items)
    {
      if w.blocked { return Err(OperationsPaused); }
      if admin.None? { return Err(AdminNotSet); }
      var saved := tokens;
      for i := 0 to |items|
        invariant (Contents(), Ok(())) == Entry.IssueEach(old(Contents()), now, w, items[..i])
      {
        assert items[..i + 1][..i] == items[..i];
        r := IssueToken(now, w, items[i].id, items[i].user, items[i].expiry);
        if r.Err? {
          IssueFailureEndsBatch(old(Contents()), now, w, items, i + 1);
          tokens := saved;  // the host discards the writes of a failed call
          return;
        }
      }
      assert items[..|items|] == items;
      return Ok(());
    }

    /** `total` is what `calculate_and_pay_royalties` returns, None when one of its operations overflows. */
    method CalculateRoyalties(price: i128, percentages: seq<u32>) returns (total: Option<amount128>)
      ensures total == Entry.Royalties(price, percentages)
    {
      if price <= 0 { return Some(0); }
      var sum: amount128 := 0;
      for i := 0 to |percentages|
        invariant Entry.Royalties(price, percentages[..i]) == Some(sum)
      {
        assert percentages[..i + 1][..i] == percentages[..i];
        if price * percentages[i] > I128_MAX || sum + price * percentages[i] / 10_000 > I128_MAX {
          OverflowEndsRoyalties(price, percentages, i + 1);
          return None;
        }
        QuotientBound(price * percentages[i], 10_000);
        sum := sum + price * percentages[i] / 10_000;
      }
      assert percentages[..|percentages|] == percentages;
      return Some(sum);
    }

    method TransferTokenWithRoyalty(w: World, id: TokenId, newUser: Address, price: i128, percentages: seq<u32>)
      returns (r: Entry.SaleResult)
      modifies this`tokens
      ensures (Contents(), r) == Entry.SellToken(old(Contents()), w, id, newUser, price, percentages)
    {
      var saved := tokens;
      var moved := TransferToken(w, id, newUser);
      if moved.Err? { return Entry.Done(moved); }
      var total := CalculateRoyalties(price, percentages);
      if total.None? {
        tokens := saved;
        return Entry.Trap;
      }
      return Entry.Done(moved);
    }

    // -------------------------------------------------------------- upgrades

    method SetUpgradeConfig(caller: Address, config: UpgradeConfig) returns (r: Result<()>)
      modifies this`upgradeConfig
      ensures (Contents(), r) == Up.SetUpgradeConfig(old(Contents()), caller, config)
    {
      if admin.None? { return Err(AdminNotSet); }
      if admin.value != caller { return Err(Unauthorized); }
      upgradeConfig := Some(config);
      return Ok(());
    }

    method StoreSnapshot(id: TokenId, s: Snapshot)
      modifies this`snapshots
      ensures snapshots == old(snapshots)[(id, s.version) := s]
    {
      snapshots := snapshots[(id, s.version) := s];
    }

    method RecordUpgrade(record: UpgradeRecord)
      modifies this`upgradeHistory
      ensures upgradeHistory == old(upgradeHistory)[record.tokenId :=
                (if record.tokenId in old(upgradeHistory) then old(upgradeHistory)[record.tokenId] else []) + [record]]
    {
      var history := if record.tokenId in upgradeHistory then upgradeHistory[record.tokenId] else [];
      history := history + [record];
      upgradeHistory := upgradeHistory[record.tokenId := history];
    }

    /** The writes of every version change: snapshot of the token left behind, new token, history record. */
    method WriteVersion(now: u64, id: TokenId, next: MembershipToken, actor: Address, versionLabel: Option<string>,
                        isRollback: bool)
      requires id in tokens
      modifies this`tokens, this`snapshots, this`upgradeHistory
      ensures Contents() == Up.Advance(old(Contents()), now, id, next, actor, versionLabel, isRollback)
    {
      var token := tokens[id];
      StoreSnapshot(id, Up.CaptureSnapshot(token, now, versionLabel));
      tokens := tokens[id := next];
      RecordUpgrade(UpgradeRecord(id, token.currentVersion, next.currentVersion, actor, now, versionLabel, isRollback));
    }

    method CountRollbacks(id: TokenId) returns (count: nat)
      ensures count == Up.CountRollbacks(UpgradeHistoryOf(Contents(), id))
    {
      var history := if id in upgradeHistory then upgradeHistory[id] else [];
      count := 0;
      for i := 0 to |history|
        invariant count == Up.CountRollbacks(history[..i])
      {
        assert history[..i + 1][..i] == history[..i];
        if history[i].isRollback {
          count := count + 1;
        }
      }
      assert history[..|history|] == history;
    }

    method UpgradeToken(now: u64, caller: Address, id: TokenId, versionLabel: Option<string>, newExpiry: Option<u64>,
                        newTier: Option<string>, newStatus: Option<MembershipStatus>) returns (r: Result<u32>)
      modifies this`tokens, this`snapshots, this`upgradeHistory
      ensures (Contents(), r)
           == Up.UpgradeToken(old(Contents()), now, caller, id, versionLabel, newExpiry, newTier, newStatus)
    {
      if upgradeConfig.None? { return Err(AdminNotSet); }
      if !upgradeConfig.value.upgradesEnabled { return Err(SubscriptionNotActive); }
      if admin.None? { return Err(AdminNotSet); }
      var isAdmin := admin.value == caller;
      if upgradeConfig.value.adminOnly && !isAdmin { return Err(Unauthorized); }
      if id !in tokens { return Err(TokenNotFound); }
      var token := tokens[id];
      if !isAdmin && token.user != caller { return Err(Unauthorized); }
      var fromVersion := token.currentVersion;
      if fromVersion == U32_MAX { return Err(TimestampOverflow); }
      var toVersion := fromVersion + 1;
      var tier := if newTier.Some? then Some(Some(newTier.value)) else None;
      var next := Up.MigrateFields(token, toVersion, newExpiry, tier, newStatus);
      WriteVersion(now, id, next, caller, versionLabel, false);
      return Ok(toVersion);
    }

    method UpgradeSingleForBatch(now: u64, caller: Address, id: TokenId, versionLabel: Option<string>,
                                 newExpiry: Option<u64>) returns (r: Result<u32>)
      modifies this`tokens, this`snapshots, this`upgradeHistory
      ensures (Contents(), r) == Up.UpgradeSingle(old(Contents()), now, caller, id, versionLabel, newExpiry)
    {
      if id !in tokens { return Err(TokenNotFound); }
      var token := tokens[id];
      var fromVersion := token.currentVersion;
      if fromVersion == U32_MAX { return Err(TimestampOverflow); }
      var toVersion := fromVersion + 1;
      WriteVersion(now, id, Up.MigrateFields(token, toVersion, newExpiry, None, None), caller, versionLabel, false);
      return Ok(toVersion);
    }

    method BatchUpgradeTokens(now: u64, caller: Address, ids: seq<TokenId>, versionLabel: Option<string>,
                              newExpiry: Option<u64>) returns (r: Result<seq<BatchUpgradeResult>>)
      modifies this`tokens, this`snapshots, this`upgradeHistory
      ensures (Contents(), r) == Up.BatchUpgrade(old(Contents()), now, caller, ids, versionLabel, newExpiry)
    {
      if admin.None? { return Err(AdminNotSet); }
      if admin.value != caller { return Err(Unauthorized); }
      if upgradeConfig.None? { return Err(AdminNotSet); }
      if !upgradeConfig.value.upgradesEnabled { return Err(SubscriptionNotActive); }
      var results := [];
      for i := 0 to |ids|
        invariant (Contents(), results) == Up.BatchLoop(old(Contents()), now, caller, ids[..i], versionLabel, newExpiry)
      {
        assert ids[..i + 1][..i] == ids[..i];
        var one := UpgradeSingleForBatch(now, caller, ids[i], versionLabel, newExpiry);
        match one {
          case Ok(version) => results := results + [BatchUpgradeResult(ids[i], true, Some(version))];
          case Err(_) => results := results + [BatchUpgradeResult(ids[i], false, None)];
        }
      }
      assert ids[..|ids|] == ids;
      return Ok(results);
    }

    method RollbackTokenUpgrade(now: u64, caller: Address, id: TokenId, target: u32) returns (r: Result<u32>)
      modifies this`tokens, this`snapshots, this`upgradeHistory
      ensures (Contents(), r) == Up.Rollback(old(Contents()), now, caller, id, target)
    {
      if admin.None? { return Err(AdminNotSet); }
      if admin.value != caller { return Err(Unauthorized); }
      if upgradeConfig.None? { return Err(AdminNotSet); }
      if upgradeConfig.value.maxRollbacks > 0 {
        var count := CountRollbacks(id);
        if count >= upgradeConfig.value.maxRollbacks { return Err(PauseCountExceeded); }
      }
      if id !in tokens { return Err(TokenNotFound); }
      var token := tokens[id];
      if (id, target) !in snapshots { return Err(MetadataNotFound); }
      var snapshot := snapshots[(id, target)];
      var fromVersion := token.currentVersion;
      if fromVersion == U32_MAX { return Err(TimestampOverflow); }
      var toVersion := fromVersion + 1;
      WriteVersion(now, id, Up.ApplySnapshot(token, snapshot, toVersion), caller, Up.ROLLBACK, true);
      return Ok(toVersion);
    }

    // -------------------------------------------------------------- renewals

    method SetRenewalConfig(config: RenewalConfig) returns (r: Result<()>)
      modifies this`renewalConfig
      ensures (Contents(), r) == RenewalSpec.SetRenewalConfig(old(Contents()), config)
    {
      if admin.None? { return Err(AdminNotSet); }
      renewalConfig := Some(config);
      return Ok(());
    }

    method SetAutoRenewal(now: u64, id: TokenId, enabled: bool, paymentToken: Address) returns (r: Result<()>)
      modifies this`autoRenewal
      ensures (Contents(), r) == RenewalSpec.SetAutoRenewal(old(Contents()), now, id, enabled, paymentToken)
    {
      if id !in tokens { return Err(TokenNotFound); }
      autoRenewal := autoRenewal[tokens[id].user := AutoRenewalSettings(enabled, id, paymentToken, now)];
      return Ok(());
    }

    method RecordRenewal(id: TokenId, entry: RenewalEntry)
      modifies this`renewalHistory
      ensures renewalHistory == old(renewalHistory)[id :=
                (if id in old(renewalHistory) then old(renewalHistory)[id] else []) + [entry]]
    {
      var history := if id in renewalHistory then renewalHistory[id] else [];
      history := history + [entry];
      renewalHistory := renewalHistory[id := history];
    }

    method RenewToken(now: u64, w: World, id: TokenId, paymentToken: Address, tierId: string, cycle: BillingCycle)
      returns (r: Result<()>)
      modifies this`tokens, this`renewalHistory
      ensures (Contents(), r) == RenewalSpec.RenewToken(old(Contents()), now, w, id, paymentToken, tierId, cycle)
    {
      if w.blocked { return Err(OperationsPaused); }
      if !RenewalConfigOf(Contents()).renewalsEnabled { return Err(RenewalNotAllowed); }
      if id !in tokens { return Err(TokenNotFound); }
      var token := tokens[id];
      if tierId !in w.tiers { return Err(TierNotFound); }
      var tier := w.tiers[tierId];
      var amount, duration := tier.price, 30 * 24 * 60 * 60;
      if cycle == Annual {
        amount, duration := tier.annualPrice, 365 * 24 * 60 * 60;
      }
      if w.usdc.None? { return Err(UsdcContractNotSet); }
      if paymentToken != w.usdc.value { return Err(InvalidPaymentToken); }
      if amount <= 0 { return Err(InvalidPaymentAmount); }
      var oldExpiry := token.expiryDate;
      var renewalBase := if token.expiryDate > now then token.expiryDate else now;
      if renewalBase + duration > U64_MAX { return Err(TimestampOverflow); }
      var newExpiry := renewalBase + duration;
      token := token.(expiryDate := newExpiry, status := Active, tierId := Some(tierId),
                      graceEnteredAt := None, graceExpiresAt := None,
                      renewalAttempts := SaturatingSucc(token.renewalAttempts), lastRenewalAttemptAt := Some(now));
      tokens := tokens[id := token];
      RecordRenewal(id, RenewalEntry(now, tierId, amount, paymentToken, Manual, oldExpiry, newExpiry));
      return Ok(());
    }

    method CheckAndApplyGracePeriod(now: u64, id: TokenId) returns (r: Result<MembershipToken>)
      modifies this`tokens
      ensures (Contents(), r) == ApplyGrace(old(Contents()), now, id)
    {
      if id !in tokens { return Err(TokenNotFound); }
      var token := tokens[id];
      var grace := RenewalConfigOf(Contents()).gracePeriodDuration;
      if token.status == Active && now > token.expiryDate {
        if now + grace > U64_MAX { return Err(TimestampOverflow); }
        token := token.(status := GracePeriod, graceEnteredAt := Some(now), graceExpiresAt := Some(now + grace));
        tokens := tokens[id := token];
      }
      if token.status == GracePeriod && token.graceExpiresAt.Some? && now > token.graceExpiresAt.value {
        return Err(GracePeriodExpired);
      }
      return Ok(token);
    }

    method EnterGracePeriodOnFailure(now: u64, id: TokenId, token: MembershipToken) returns (r: Result<()>)
      modifies this`tokens
      ensures var grace := RenewalConfigOf(old(Contents())).gracePeriodDuration;
        && (r.Ok? <==> now + grace <= U64_MAX) && (r.Err? ==> r.error == TimestampOverflow && tokens == old(tokens))
        && (r.Ok? ==> tokens == old(tokens)[id := EnterGrace(token, now, grace)])
    {
      var grace := RenewalConfigOf(Contents()).gracePeriodDuration;
      if now + grace > U64_MAX { return Err(TimestampOverflow); }
      tokens := tokens[id := EnterGrace(token, now, grace)];
      return Ok(());
    }

    method ProcessAutoRenewal(now: u64, w: World, id: TokenId) returns (r: Result<()>)
      modifies this`tokens, this`renewalHistory
      ensures (Contents(), r) == AutoRenew(old(Contents()), now, w, id)
    {
      if id !in tokens { return Err(TokenNotFound); }
      var saved := tokens;
      var token := tokens[id];
      if token.user !in autoRenewal { return Err(AutoRenewalFailed); }
      var settings := autoRenewal[token.user];
      if !settings.enabled || settings.tokenId != id { return Err(AutoRenewalFailed); }
      var eligible := AutoRenewalEligible(Contents(), now, token);
      if eligible.Err? { return Err(eligible.error); }
      if !eligible.value { return Err(RenewalNotAllowed); }
      if token.tierId.None? { return Err(TierNotFound); }
      var tierId := token.tierId.value;
      if tierId !in w.tiers { return Err(TierNotFound); }
      if w.usdc.None? { return Err(UsdcContractNotSet); }
      if settings.paymentToken != w.usdc.value {
        var entered := EnterGracePeriodOnFailure(now, id, token);
        tokens := saved;  // the host discards the writes of a failed call
        return Err(if entered.Err? then entered.error else AutoRenewalFailed);
      }
      var oldExpiry := token.expiryDate;
      if oldExpiry + 30 * 24 * 60 * 60 > U64_MAX { return Err(TimestampOverflow); }
      var newExpiry := oldExpiry + 30 * 24 * 60 * 60;
      token := token.(expiryDate := newExpiry, renewalAttempts := SaturatingSucc(token.renewalAttempts),
                      lastRenewalAttemptAt := Some(now));
      tokens := tokens[id := token];
      RecordRenewal(id, RenewalEntry(now, tierId, w.tiers[tierId].price, settings.paymentToken, AutoRenewal,
                                     oldExpiry, newExpiry));
      return Ok(());
    }

    // -------------------------------------------------------------- fractions

    method FractionalizeToken(now: u64, id: TokenId, totalShares: i128, minSize: i128) returns (r: Result<()>)
      modifies this`fractionInfo, this`fractionShares
      ensures (Contents(), r) == Fr.Fractionalize(old(Contents()), now, id, totalShares, minSize)
    {
      if totalShares <= 1 { return Err(InvalidPaymentAmount); }
      if minSize <= 0 || minSize > totalShares { return Err(InvalidPaymentAmount); }
      if totalShares % minSize != 0 { return Err(InvalidPaymentAmount); }
      if id in fractionInfo { return Err(TokenFractionalized); }
      if id !in tokens { return Err(TokenNotFound); }
      var token := tokens[id];
      if token.status != Active { return Err(TokenExpired); }
      fractionInfo := fractionInfo[id := FractionInfo(totalShares, minSize, now, token.user)];
      var shares: Ledger := map[token.user := totalShares];
      fractionShares := fractionShares[id := shares];
      return Ok(());
    }

    method TransferFraction(id: TokenId, from: Address, to: Address, amount: i128) returns (r: Result<()>)
      modifies this`fractionShares
      ensures (Contents(), r) == Fr.TransferFraction(old(Contents()), id, from, to, amount)
    {
      if id !in fractionInfo { return Err(TokenNotFound); }
      var info := fractionInfo[id];
      if amount <= 0 { return Err(InvalidPaymentAmount); }
      if amount < info.minFractionSize { return Err(InvalidPaymentAmount); }
      if amount % info.minFractionSize != 0 { return Err(InvalidPaymentAmount); }
      if id !in fractionShares { return Err(TokenNotFound); }
      var shares: Ledger := fractionShares[id];
      if from !in shares { return Err(Unauthorized); }
      if shares[from] < amount { return Err(InsufficientBalance); }
      var remaining := shares[from] - amount;
      if 0 < remaining < info.minFractionSize { return Err(InvalidPaymentAmount); }
      if remaining == 0 {
        shares := shares - {from};
      } else {
        shares := shares[from := remaining];
      }
      var receiverShares := if to in shares then shares[to] else 0;
      if receiverShares + amount > I128_MAX { return Err(TimestampOverflow); }
      shares := shares[to := receiverShares + amount];
      fractionShares := fractionShares[id := shares];
      return Ok(());
    }

    method RecombineFractions(id: TokenId, holder: Address) returns (r: Result<()>)
      modifies this`tokens, this`fractionInfo, this`fractionShares, this`pendingRewards
      ensures (Contents(), r) == Fr.Recombine(old(Contents()), id, holder)
    {
      if id !in fractionInfo { return Err(TokenNotFound); }
      if id !in fractionShares { return Err(TokenNotFound); }
      if holder !in fractionShares[id] { return Err(Unauthorized); }
      if fractionShares[id][holder] != fractionInfo[id].totalShares { return Err(Unauthorized); }
      if id !in tokens { return Err(TokenNotFound); }
      tokens := tokens[id := tokens[id].(user := holder)];
      fractionInfo := fractionInfo - {id};
      fractionShares := fractionShares - {id};
      pendingRewards := pendingRewards - {id};
      return Ok(());
    }

    method DistributeFractionRewards(now: u64, id: TokenId, amount: i128) returns (r: Result<DividendDistribution>)
      modifies this`pendingRewards
      ensures (Contents(), r) == Fr.Distribute(old(Contents()), now, id, amount)
    {
      if amount <= 0 { return Err(InvalidPaymentAmount); }
      if admin.None? { return Err(AdminNotSet); }
      if id !in fractionInfo || id !in fractionShares { return Err(TokenNotFound); }
      var shares: Ledger := fractionShares[id];
      Fr.KeysAreHolders(shares);
      var holderKeys := Ascending(shares.Keys);
      if |holderKeys| == 0 { return Err(Unauthorized); }
      var paid := PayHolders(LedgerOf(pendingRewards, id), shares, holderKeys, amount, fractionInfo[id].totalShares);
      if paid.Err? { return Err(paid.error); }
      var rewards: Ledger := paid.value.rewards;
      var remainder := amount - paid.value.distributed;
      if remainder > 0 {
        var first := holderKeys[0];
        var current := if first in rewards then rewards[first] else 0;
        if current + remainder > I128_MAX { return Err(TimestampOverflow); }
        rewards := rewards[first := current + remainder];
      }
      pendingRewards := pendingRewards[id := rewards];
      return Ok(DividendDistribution(amount, |holderKeys|, now));
    }
  }

  lemma {:induction false} TransferFailureEndsBatch(h: Hub, w: World, items: seq<Entry.TransferItem>, k: nat)
    requires k <= |items| && Entry.TransferEach(h, w, items[..k]).1.Err?
    ensures Entry.TransferEach(h, w, items).1 == Entry.TransferEach(h, w, items[..k]).1
    decreases |items| - k
  {
    if k < |items| {
      assert items[..k + 1][..k] == items[..k];
      TransferFailureEndsBatch(h, w, items, k + 1);
    } else {
      assert items[..k] == items;
    }
  }

  lemma {:induction false} IssueFailureEndsBatch(h: Hub, now: u64, w: World, items: seq<Entry.IssueItem>, k: nat)
    requires k <= |items| && Entry.IssueEach(h, now, w, items[..k]).1.Err?
    ensures Entry.IssueEach(h, now, w, items).1 == Entry.IssueEach(h, now, w, items[..k]).1
    decreases |items| - k
  {
    if k < |items| {
      assert items[..k + 1][..k] == items[..k];
      IssueFailureEndsBatch(h, now, w, items, k + 1);
    } else {
      assert items[..k] == items;
    }
  }

  lemma {:induction false} OverflowEndsRoyalties(price: i128, percentages: seq<u32>, k: nat)
    requires k <= |percentages| && Entry.Royalties(price, percentages[..k]).None?
    ensures Entry.Royalties(price, percentages).None?
    decreases |percentages| - k
  {
    if k < |percentages| {
      assert percentages[..k + 1][..k] == percentages[..k];
      OverflowEndsRoyalties(price, percentages, k + 1);
    } else {
      assert percentages[..k] == percentages;
    }
  }

  /** The payment loop of `distribute_fraction_rewards`. */
  method PayHolders(before: Ledger, shares: Ledger, holderKeys: seq<Address>, amount: i128, totalShares: positive128)
    returns (r: Result<Fr.Payout>)
    requires amount > 0
    requires forall k :: k in holderKeys ==> k in shares
    ensures r == Fr.PayHolders(before, shares, holderKeys, amount, totalShares)
  {
    var rewards: Ledger, distributed := before, 0;
    for i := 0 to |holderKeys|
      invariant 0 <= distributed <= I128_MAX
      invariant Fr.PayHolders(before, shares, holderKeys[..i], amount, totalShares)
             == Ok(Fr.Payout(rewards, distributed))
    {
      assert holderKeys[..i + 1][..i] == holderKeys[..i];
      var holder := holderKeys[i];
      var portion := Fr.Portion(amount, shares[holder], totalShares);
      var current := if holder in rewards then rewards[holder] else 0;
      if portion.Err? || distributed + portion.value > I128_MAX || current + portion.value > I128_MAX {
        PaymentFails(before, shares, holderKeys, amount, totalShares, i + 1);
        return Err(TimestampOverflow);
      }
      distributed := distributed + portion.value;
      rewards := rewards[holder := current + portion.value];
    }
    assert holderKeys[..|holderKeys|] == holderKeys;
    return Ok(Fr.Payout(rewards, distributed));
  }

  /** Once one payment has overflowed, the whole loop reports the overflow. */
  lemma {:induction false} PaymentFails(before: Ledger, shares: Ledger, keys: seq<Address>, amount: i128,
                                        totalShares: positive128, k: nat)
    requires amount > 0 && k <= |keys|
    requires forall a :: a in keys ==> a in shares
    requires Fr.PayHolders(before, shares, keys[..k], amount, totalShares) == Err(TimestampOverflow)
    ensures Fr.PayHolders(before, shares, keys, amount, totalShares) == Err(TimestampOverflow)
    decreases |keys| - k
  {
    if k < |keys| {
      assert keys[..k + 1][..k] == keys[..k];
      PaymentFails(before, shares, keys, amount, totalShares, k + 1);
    } else {
      assert keys[..k] == keys;
    }
  }

  /** The loop of `get_fraction_holders`. */
  method GetFractionHolders(shares: Ledger, totalShares: positive128) returns (r: Result<seq<FractionHolder>>)
    ensures forall k :: k in Ascending(shares.Keys) ==> k in shares
    ensures r == Fr.HoldersOf(shares, Ascending(shares.Keys), totalShares)
  {
    Fr.KeysAreHolders(shares);
    var holderKeys := Ascending(shares.Keys);
    var holders := [];
    for i := 0 to |holderKeys|
      invariant Fr.HoldersOf(shares, holderKeys[..i], totalShares) == Ok(holders)
    {
      assert holderKeys[..i + 1][..i] == holderKeys[..i];
      var share := shares[holderKeys[i]];
      if share * 10_000 > I128_MAX {
        ListingFails(shares, holderKeys, totalShares, i + 1);
        return Err(TimestampOverflow);
      }
      holders := holders + [FractionHolder(holderKeys[i], share, share * 10_000 / totalShares % 0x1_0000_0000)];
    }
    assert holderKeys[..|holderKeys|] == holderKeys;
    return Ok(holders);
  }

  lemma {:induction false} ListingFails(shares: Ledger, keys: seq<Address>, totalShares: positive128, k: nat)
    requires k <= |keys|
    requires forall a :: a in keys ==> a in shares
    requires Fr.HoldersOf(shares, keys[..k], totalShares) == Err(TimestampOverflow)
    ensures Fr.HoldersOf(shares, keys, totalShares) == Err(TimestampOverflow)
    decreases |keys| - k
  {
    if k < |keys| {
      assert keys[..k + 1][..k] == keys[..k];
      ListingFails(shares, keys, totalShares, k + 1);
    } else {
      assert keys[..k] == keys;
    }
  }
}
