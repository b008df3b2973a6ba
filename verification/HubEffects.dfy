/** When each operation of the hub succeeds and what it then leaves, said of the stored fields themselves. */
module HubEffects {
  import opened Prelude
  import opened HubTypes
  import opened RenewalSpec
  import opened HubSpec
  import Up = UpgradeSpec
  import UpP = UpgradeProofs
  import Re = RenewalProofs
  import Fr = FractionSpec
  import FrP = FractionProofs
  import Entry = HubEntryPoints

  /** `k` is `h` but for token `id`, which is `t`. */
  ghost predicate OneToken(h: Hub, k: Hub, id: TokenId, t: MembershipToken) {
    && id in k.tokens && k.tokens[id] == t
    && (forall j :: j in k.tokens && j != id <==> j in h.tokens && j != id)
    && (forall j :: j in h.tokens && j != id ==> k.tokens[j] == h.tokens[j])
  }

  // ---------------------------------------------------------------- issue and transfer

  /** A token is issued exactly by a configured administrator, under a new id, with an expiry yet to come; it starts
      active, at version 0, without tier, grace stamps or renewals. */
  lemma IssueLeaves(h: Hub, now: u64, w: World, id: TokenId, user: Address, expiry: u64)
    ensures var (k, r) := IssueToken(h, now, w, id, user, expiry);
      && (r.Ok? <==> !w.blocked && h.admin.Some? && id !in h.tokens && now < expiry)
      && (r.Ok? ==> k == h.(tokens := k.tokens)
                    && OneToken(h, k, id, MembershipToken(id, user, MembershipStatus.Active, now, expiry,
                                                          None, None, None, 0, None, 0)))
      && (r.Err? ==> k == h)
  {
  }

  predicate Movable(h: Hub, w: World, id: TokenId) {
    !w.blocked && id in h.tokens && id !in h.fr.info && h.tokens[id].status == MembershipStatus.Active
  }

  /** A token changes hands exactly while it is active and not split, and nothing of it changes but the owner. */
  lemma TransferLeaves(h: Hub, w: World, id: TokenId, newUser: Address)
    ensures var (k, r) := TransferToken(h, w, id, newUser);
      && (r.Ok? <==> Movable(h, w, id))
      && (r.Ok? ==> k == h.(tokens := k.tokens) && OneToken(h, k, id, h.tokens[id].(user := newUser)))
      && (r.Err? ==> k == h)
  {
  }

  /** Through an allowance it also needs the named owner to be the owner and a positive amount. */
  lemma TransferFromLeaves(h: Hub, w: World, id: TokenId, owner: Address, to: Address, amount: i128,
                           refusal: Option<Error>)
    ensures var (k, r) := TransferFrom(h, w, id, owner, to, amount, refusal);
      && (r.Ok? <==> Movable(h, w, id) && amount > 0 && h.tokens[id].user == owner && refusal.None?)
      && (r.Ok? ==> k == h.(tokens := k.tokens) && OneToken(h, k, id, h.tokens[id].(user := to)))
      && (r.Err? ==> k == h)
  {
  }

  /** The sum of the royalties, each rounded down. */
  function RoyaltySum(price: nat, percentages: seq<u32>): nat {
    if percentages == [] then 0
    else
      QuotientBound(price * percentages[|percentages| - 1], 10_000);
      RoyaltySum(price, percentages[..|percentages| - 1]) + price * percentages[|percentages| - 1] / 10_000
  }

  function PercentageSum(percentages: seq<u32>): nat {
    if percentages == [] then 0 else PercentageSum(percentages[..|percentages| - 1]) + percentages[|percentages| - 1]
  }

  lemma {:induction false} RoyaltiesArePart(price: nat, percentages: seq<u32>)
    ensures RoyaltySum(price, percentages) * 10_000 <= price * PercentageSum(percentages)
  {
    if percentages != [] {
      var init, p := percentages[..|percentages| - 1], percentages[|percentages| - 1];
      RoyaltiesArePart(price, init);
      QuotientRemainder(price * p, 10_000);
      Distributes(PercentageSum(init), p, price);
    }
  }

  lemma {:induction false} RoyaltiesAreFloors(price: i128, percentages: seq<u32>)
    requires Entry.Royalties(price, percentages).Some?
    ensures Entry.Royalties(price, percentages).value == if price > 0 then RoyaltySum(price, percentages) else 0
  {
    if price > 0 && percentages != [] {
      RoyaltiesAreFloors(price, percentages[..|percentages| - 1]);
    }
  }

  /** Where they can be computed, royalties of a positive price are the sum of the rounded portions; of no more than ten
      thousand basis points in all, they never exceed the price. A price of zero or less earns none. */
  lemma RoyaltiesStayWithinThePrice(price: i128, percentages: seq<u32>)
    requires Entry.Royalties(price, percentages).Some?
    ensures Entry.Royalties(price, percentages).value == if price > 0 then RoyaltySum(price, percentages) else 0
    ensures price > 0 && PercentageSum(percentages) <= 10_000 ==> Entry.Royalties(price, percentages).value <= price
  {
    RoyaltiesAreFloors(price, percentages);
    if price > 0 && PercentageSum(percentages) <= 10_000 {
      RoyaltiesArePart(price, percentages);
      PartIsWithin(RoyaltySum(price, percentages), price, PercentageSum(percentages));
    }
  }

  lemma PartIsWithin(sum: nat, price: nat, points: nat)
    requires sum * 10_000 <= price * points && points <= 10_000
    ensures sum <= price
  {
    ProductOrder(points, 10_000, price);
  }

  // ---------------------------------------------------------------- settings

  lemma UpgradeConfigLeaves(h: Hub, caller: Address, config: UpgradeConfig)
    ensures var (k, r) := Up.SetUpgradeConfig(h, caller, config);
      && (r.Ok? <==> h.admin == Some(caller))
      && (r.Ok? ==> k == h.(up := h.up.(config := k.up.config)) && k.up.config == Some(config))
      && (r.Err? ==> k == h)
  {
  }

  lemma RenewalConfigLeaves(h: Hub, config: RenewalConfig)
    ensures var (k, r) := SetRenewalConfig(h, config);
      && (r.Ok? <==> h.admin.Some?)
      && (r.Ok? ==> k == h.(ren := h.ren.(config := k.ren.config)) && k.ren.config == Some(config))
      && (r.Err? ==> k == h)
  {
  }

  /** Automatic renewal is set for the owner of the moment, so it does not follow the token to a new one. */
  lemma AutoRenewalLeaves(h: Hub, now: u64, id: TokenId, enabled: bool, paymentToken: Address)
    ensures var (k, r) := SetAutoRenewal(h, now, id, enabled, paymentToken);
      && (r.Ok? <==> id in h.tokens)
      && (r.Ok? ==>
            && k == h.(ren := h.ren.(auto := k.ren.auto))
            && h.tokens[id].user in k.ren.auto
            && k.ren.auto[h.tokens[id].user] == AutoRenewalSettings(enabled, id, paymentToken, now)
            && (forall u :: u in k.ren.auto && u != h.tokens[id].user <==> u in h.ren.auto && u != h.tokens[id].user)
            && (forall u :: u in h.ren.auto && u != h.tokens[id].user ==> k.ren.auto[u] == h.ren.auto[u]))
      && (r.Err? ==> k == h)
  {
  }

  /** The settings in force: a grace period of a week, a notice of a day, renewals allowed, unless others are set. */
  predicate InForce(h: Hub, grace: u64, notice: u64, enabled: bool) {
    match h.ren.config
    case Some(c) => grace == c.gracePeriodDuration && notice == c.autoRenewalNotice && enabled == c.renewalsEnabled
    case None => grace == 604800 && notice == 86400 && enabled
  }

  // ---------------------------------------------------------------- upgrades

  /** The history and the snapshots after token `id`, then `t`, left its version for the next, by `actor`. */
  ghost predicate Recorded(h: Hub, k: Hub, now: u64, id: TokenId, t: MembershipToken, actor: Address,
                           versionLabel: Option<string>, isRollback: bool) {
    var v, before, after := t.currentVersion, UpgradeHistoryOf(h, id), UpgradeHistoryOf(k, id);
    && k == h.(tokens := k.tokens, up := k.up) && k.up.config == h.up.config
    && (id, v) in k.up.snapshots
    && k.up.snapshots[(id, v)] == Snapshot(v, t.expiryDate, t.status, t.tierId, now, versionLabel)
    && (forall key :: key in h.up.snapshots && key != (id, v) ==>
          key in k.up.snapshots && k.up.snapshots[key] == h.up.snapshots[key])
    && (forall j :: j != id ==> UpgradeHistoryOf(k, j) == UpgradeHistoryOf(h, j))
    && |after| == |before| + 1 && after[..|before|] == before
    && IsRecord(after[|before|], now, id, v, actor, versionLabel, isRollback)
  }

  predicate IsRecord(r: UpgradeRecord, now: u64, id: TokenId, v: u32, actor: Address, versionLabel: Option<string>,
                     isRollback: bool) {
    && r.tokenId == id && r.fromVersion == v && r.toVersion == v + 1 && r.upgradedBy == actor
    && r.upgradedAt == now && r.versionLabel == versionLabel && r.isRollback == isRollback
  }

  /** Who may upgrade token `id`: the administrator, and its owner unless upgrades are for administrators only. */
  predicate MayUpgrade(h: Hub, caller: Address, id: TokenId) {
    && h.up.config.Some? && h.up.config.value.upgradesEnabled && h.admin.Some? && id in h.tokens
    && (h.admin.value == caller || (!h.up.config.value.adminOnly && h.tokens[id].user == caller))
    && h.tokens[id].currentVersion < 0xFFFF_FFFF
  }

  /** An upgrade succeeds exactly for who may make it. The token gets what the upgrade names, expiry, tier and status,
      keeps what it does not name, and moves to the next version, which is also the answer; the version left is
      recorded. */
  lemma UpgradeLeaves(h: Hub, now: u64, caller: Address, id: TokenId, versionLabel: Option<string>,
                      newExpiry: Option<u64>, newTier: Option<string>, newStatus: Option<MembershipStatus>)
    ensures var (k, r) := Up.UpgradeToken(h, now, caller, id, versionLabel, newExpiry, newTier, newStatus);
      && (r.Ok? <==> MayUpgrade(h, caller, id))
      && (r.Ok? ==>
            && id in k.tokens
            && var t, u := h.tokens[id], k.tokens[id];
               && OneToken(h, k, id, u)
               && u == t.(expiryDate := u.expiryDate, tierId := u.tierId, status := u.status,
                          currentVersion := u.currentVersion)
               && (if newExpiry.Some? then u.expiryDate == newExpiry.value else u.expiryDate == t.expiryDate)
               && (if newTier.Some? then u.tierId == Some(newTier.value) else u.tierId == t.tierId)
               && (if newStatus.Some? then u.status == newStatus.value else u.status == t.status)
               && u.currentVersion == t.currentVersion + 1 == r.value
               && Recorded(h, k, now, id, t, caller, versionLabel, false))
      && (r.Err? ==> k == h)
  {
    if MayUpgrade(h, caller, id) {
      var u := UpP.Upgraded(h.tokens[id], newExpiry, newTier, newStatus);
      AdvanceIsRecorded(h, now, id, u, caller, versionLabel, false);
    }
  }

  lemma AdvanceIsRecorded(h: Hub, now: u64, id: TokenId, t: MembershipToken, actor: Address,
                          versionLabel: Option<string>, isRollback: bool)
    requires id in h.tokens && t.currentVersion == h.tokens[id].currentVersion + 1
    ensures var k := Up.Advance(h, now, id, t, actor, versionLabel, isRollback);
      OneToken(h, k, id, t) && Recorded(h, k, now, id, h.tokens[id], actor, versionLabel, isRollback)
  {
  }

  /** A rollback is recorded as one, under the label `rollback`, by the administrator who made it. */
  lemma RollbackIsRecorded(h: Hub, now: u64, admin: Address, id: TokenId, v: u32)
    requires Up.Rollback(h, now, admin, id, v).1.Ok?
    ensures id in h.tokens && h.admin == Some(admin)
    ensures var k := Up.Rollback(h, now, admin, id, v).0;
      id in k.tokens && OneToken(h, k, id, k.tokens[id])
      && Recorded(h, k, now, id, h.tokens[id], admin, Some("rollback"), true)
  {
    var t := h.tokens[id];
    AdvanceIsRecorded(h, now, id, Up.ApplySnapshot(t, h.up.snapshots[(id, v)], t.currentVersion + 1), admin,
                      Some("rollback"), true);
  }

  /** The rollbacks counted against the limit are the records marked as rollbacks. */
  lemma {:induction false} RollbacksAreCounted(history: seq<UpgradeRecord>)
    ensures Up.CountRollbacks(history) == |set i | 0 <= i < |history| && history[i].isRollback|
  {
    if history != [] {
      var n := |history| - 1;
      RollbacksAreCounted(history[..n]);
      var before := set i | 0 <= i < n && history[..n][i].isRollback;
      var all := set i | 0 <= i < |history| && history[i].isRollback;
      assert all == before + if history[n].isRollback then {n} else {};
    }
  }

  // ---------------------------------------------------------------- renewals

  /** What a billing cycle costs, and for how many seconds. */
  function PriceOf(tier: TierPrice, cycle: BillingCycle): i128 {
    match cycle case Monthly => tier.price case Annual => tier.annualPrice
  }

  function SecondsOf(cycle: BillingCycle): u64 {
    match cycle case Monthly => 2_592_000 case Annual => 31_536_000
  }

  predicate MayRenew(h: Hub, now: u64, w: World, id: TokenId, paymentToken: Address, tierId: string,
                     cycle: BillingCycle) {
    && !w.blocked && id in h.tokens && tierId in w.tiers
    && (h.ren.config.Some? ==> h.ren.config.value.renewalsEnabled)
    && w.usdc == Some(paymentToken) && PriceOf(w.tiers[tierId], cycle) > 0
    && Max(h.tokens[id].expiryDate, now) + SecondsOf(cycle) <= U64_MAX
  }

  /** `k` is `h` with one more renewal entry for `id`, and otherwise differs in that token only. */
  ghost predicate OneEntry(h: Hub, k: Hub, id: TokenId, entry: RenewalEntry) {
    && k == h.(tokens := k.tokens, ren := h.ren.(history := k.ren.history))
    && RenewalHistoryOf(k, id) == RenewalHistoryOf(h, id) + [entry]
    && (forall j :: j != id ==> RenewalHistoryOf(k, j) == RenewalHistoryOf(h, j))
  }

  /** A renewal succeeds exactly with renewals allowed, a known tier, the right payment token, a positive price and room
      on the clock. A month costs the monthly price and adds 2,592,000 seconds, a year the annual price and 31,536,000,
      to the later of the old expiry and now; the token is then active in that tier, without grace stamps. */
  lemma RenewalLeaves(h: Hub, now: u64, w: World, id: TokenId, paymentToken: Address, tierId: string,
                      cycle: BillingCycle)
    ensures var (k, r) := RenewToken(h, now, w, id, paymentToken, tierId, cycle);
      && (r.Ok? <==> MayRenew(h, now, w, id, paymentToken, tierId, cycle))
      && (r.Ok? ==>
            && id in k.tokens
            && var t, u := h.tokens[id], k.tokens[id];
               && OneToken(h, k, id, u)
               && u == t.(expiryDate := u.expiryDate, status := MembershipStatus.Active, tierId := Some(tierId),
                          graceEnteredAt := None, graceExpiresAt := None, renewalAttempts := u.renewalAttempts,
                          lastRenewalAttemptAt := Some(now))
               && u.expiryDate == Max(t.expiryDate, now) + SecondsOf(cycle)
               && u.renewalAttempts == Min(t.renewalAttempts + 1, 0xFFFF_FFFF)
               && OneEntry(h, k, id, RenewalEntry(now, tierId, PriceOf(w.tiers[tierId], cycle), paymentToken, Manual,
                                                  t.expiryDate, u.expiryDate)))
      && (r.Err? ==> k == h)
  {
  }

  predicate MayAutoRenew(h: Hub, now: u64, w: World, id: TokenId) {
    && id in h.tokens && h.tokens[id].user in h.ren.auto
    && var t, s := h.tokens[id], h.ren.auto[h.tokens[id].user];
       var notice := if h.ren.config.Some? then h.ren.config.value.autoRenewalNotice else 86400;
       && s.enabled && s.tokenId == id && t.status == MembershipStatus.Active
       && notice <= t.expiryDate && t.expiryDate - notice <= now < t.expiryDate
       && t.tierId.Some? && t.tierId.value in w.tiers && w.usdc == Some(s.paymentToken)
       && t.expiryDate + 2_592_000 <= U64_MAX
  }

  /** An automatic renewal succeeds exactly within the notice before the expiry of an active token, when its owner has
      it switched on for this token, in its tier, with the right payment token; it adds 2,592,000 seconds to the expiry
      for the monthly price, whatever the price is. */
  lemma AutoRenewalAdds(h: Hub, now: u64, w: World, id: TokenId)
    ensures var (k, r) := AutoRenew(h, now, w, id);
      && (r.Ok? <==> MayAutoRenew(h, now, w, id))
      && (r.Ok? ==>
            && id in k.tokens
            && var t, u := h.tokens[id], k.tokens[id];
               && OneToken(h, k, id, u)
               && u == t.(expiryDate := u.expiryDate, renewalAttempts := u.renewalAttempts,
                          lastRenewalAttemptAt := Some(now))
               && u.expiryDate == t.expiryDate + 2_592_000
               && u.renewalAttempts == Min(t.renewalAttempts + 1, 0xFFFF_FFFF)
               && OneEntry(h, k, id, RenewalEntry(now, t.tierId.value, w.tiers[t.tierId.value].price,
                                                  h.ren.auto[t.user].paymentToken, RenewalTrigger.AutoRenewal,
                                                  t.expiryDate, u.expiryDate)))
      && (r.Err? ==> k == h)
  {
  }

  /** The call of `e`, in state `h`, bought `entry` for token `id`. */
  ghost predicate Bought(h: Hub, e: Event, id: TokenId, entry: RenewalEntry) {
    && id in h.tokens && entry.oldExpiry == h.tokens[id].expiryDate && entry.timestamp == e.now
    && entry.tierId in e.w.tiers && e.w.usdc == Some(entry.paymentToken)
    && match entry.trigger
       case Manual =>
         && e.call.DoRenew? && e.call.id == id
         && e.call.tierId == entry.tierId && e.call.paymentToken == entry.paymentToken
         && entry.amount == PriceOf(e.w.tiers[entry.tierId], e.call.cycle) && entry.amount > 0
         && entry.newExpiry == Max(entry.oldExpiry, e.now) + SecondsOf(e.call.cycle)
       case AutoRenewal =>
         && e.call.DoAutoRenew? && e.call.id == id
         && entry.amount == e.w.tiers[entry.tierId].price
         && entry.newExpiry == entry.oldExpiry + 2_592_000
  }

  lemma StepBuys(h: Hub, e: Event, id: TokenId)
    ensures var before, after := RenewalHistoryOf(h, id), RenewalHistoryOf(Step(h, e), id);
      || after == before
      || (|after| == |before| + 1 && after[..|before|] == before && Bought(h, e, id, after[|before|]))
  {
    match e.call
    case DoRenew(u, p, tier, cycle) => RenewalLeaves(h, e.now, e.w, u, p, tier, cycle);
    case DoAutoRenew(u) => AutoRenewalAdds(h, e.now, e.w, u);
    case _ => Re.OthersChangeNoRenewal(h, e);
  }

  /** Every renewal entry of a run comes from a call that bought it: by hand a month for the monthly or a year for the
      annual price of its tier, automatically a month for the monthly price. */
  lemma {:induction false} EntriesWereBought(es: seq<Event>, id: TokenId, i: nat)
    requires i < |RenewalHistoryOf(Run(es), id)|
    ensures exists k :: 0 <= k < |es| && Bought(Run(es[..k]), es[k], id, RenewalHistoryOf(Run(es), id)[i])
  {
    var n := |es| - 1;
    var init := es[..n];
    var before, after := RenewalHistoryOf(Run(init), id), RenewalHistoryOf(Run(es), id);
    StepBuys(Run(init), es[n], id);
    if i < |before| {
      EntriesWereBought(init, id, i);
      var k :| 0 <= k < |init| && Bought(Run(init[..k]), init[k], id, before[i]);
      assert init[..k] == es[..k] && after[i] == before[i];
      assert Bought(Run(es[..k]), es[k], id, after[i]);
    } else {
      assert Bought(Run(es[..n]), es[n], id, after[i]);
    }
  }

  // ---------------------------------------------------------------- grace

  /** The check puts an active token past its expiry into the grace period that is in force, from now on, and otherwise
      changes nothing; it answers with the token, unless the grace period cannot be dated or is over. */
  lemma GraceLeaves(h: Hub, now: u64, id: TokenId, grace: u64, notice: u64, enabled: bool)
    requires InForce(h, grace, notice, enabled)
    ensures var (k, r) := ApplyGrace(h, now, id);
      && (r.Ok? <==>
            && id in h.tokens
            && var t := h.tokens[id];
               && (t.status == MembershipStatus.Active && now > t.expiryDate ==> now + grace <= U64_MAX)
               && !(t.status == MembershipStatus.GracePeriod && t.graceExpiresAt.Some? && now > t.graceExpiresAt.value))
      && (r.Ok? ==>
            && id in k.tokens && r.value == k.tokens[id] && k == h.(tokens := k.tokens)
            && var t := h.tokens[id];
               if t.status == MembershipStatus.Active && now > t.expiryDate
               then OneToken(h, k, id, k.tokens[id])
                    && k.tokens[id] == t.(status := MembershipStatus.GracePeriod, graceEnteredAt := Some(now),
                                          graceExpiresAt := k.tokens[id].graceExpiresAt)
                    && k.tokens[id].graceExpiresAt.Some? && k.tokens[id].graceExpiresAt.value == now + grace
               else k == h)
      && (r.Err? ==> k == h)
  {
  }

  // ---------------------------------------------------------------- fractions

  /** A token is split exactly once, while active, into more than one share and into whole fractions; its owner then
      holds all the shares. */
  lemma FractionalizeLeaves(h: Hub, now: u64, id: TokenId, totalShares: i128, minSize: i128)
    ensures var (k, r) := Fr.Fractionalize(h, now, id, totalShares, minSize);
      && (r.Ok? <==>
            && totalShares > 1 && 0 < minSize <= totalShares && totalShares % minSize == 0
            && id !in h.fr.info && id in h.tokens && h.tokens[id].status == MembershipStatus.Active)
      && (r.Ok? ==>
            && k == h.(fr := h.fr.(info := k.fr.info, shares := k.fr.shares))
            && id in k.fr.info && k.fr.info[id] == FractionInfo(totalShares, minSize, now, h.tokens[id].user)
            && id in k.fr.shares && k.fr.shares[id] == map[h.tokens[id].user := totalShares]
            && (forall j :: j in h.fr.info && j != id ==> j in k.fr.info && k.fr.info[j] == h.fr.info[j])
            && (forall j :: j in h.fr.shares && j != id ==> j in k.fr.shares && k.fr.shares[j] == h.fr.shares[j]))
      && (r.Err? ==> k == h)
  {
  }

  /** The listing succeeds exactly if no product overflows, and gives each holder, in key order, its shares and their
      part of the whole in basis points, rounded down. */
  lemma {:induction false} HoldersAreListed(shares: Ledger, keys: seq<Address>, whole: positive128)
    requires forall k :: k in keys ==> k in shares && shares[k] <= whole
    ensures var r := Fr.HoldersOf(shares, keys, whole);
      && (r.Ok? <==> forall k :: k in keys ==> shares[k] * 10_000 <= I128_MAX)
      && (r.Ok? ==>
            && |r.value| == |keys|
            && forall i :: 0 <= i < |keys| ==>
                 && r.value[i].holder == keys[i] && r.value[i].shares == shares[keys[i]]
                 && r.value[i].votingPowerBps == shares[keys[i]] * 10_000 / whole)
  {
    if keys != [] {
      var init, x := keys[..|keys| - 1], keys[|keys| - 1];
      assert keys == init + [x];
      HoldersAreListed(shares, init, whole);
      FrP.PowerWithinScale(shares[x], whole);
      var hs, r := Fr.HoldersOf(shares, init, whole), Fr.HoldersOf(shares, keys, whole);
      if r.Ok? {
        assert r.value[..|init|] == hs.value;
      }
    }
  }

  /** A distribution answers with its amount, the number of holders and its time. */
  lemma DistributionAnswers(h: Hub, now: u64, id: TokenId, amount: i128)
    requires Fr.Distribute(h, now, id, amount).1.Ok?
    ensures id in h.fr.shares
    ensures Fr.Distribute(h, now, id, amount).1.value == DividendDistribution(amount, |h.fr.shares[id]|, now)
  {
  }
}
