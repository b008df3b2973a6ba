/** Token renewal, auto-renewal and the grace period as functions on the hub's storage
    (contracts/manage_hub/src/membership_token.rs). A failed invocation leaves no writes. */
module RenewalSpec {
  import opened Prelude
  import opened HubTypes

  const THIRTY_DAYS: u64 := 30 * 24 * 60 * 60
  const ONE_YEAR: u64 := 365 * 24 * 60 * 60

  datatype TierPrice = TierPrice(price: i128, annualPrice: i128)

  /** What the rest of the contract answers during a call: the pause guards, the tier list, the payment token. */
  datatype World = World(blocked: bool, tiers: map<string, TierPrice>, usdc: Option<Address>)

  function RenewalConfigOf(h: Hub): RenewalConfig {
    if h.ren.config.Some? then h.ren.config.value else DEFAULT_RENEWALS
  }

  function SetRenewalConfig(h: Hub, config: RenewalConfig): (Hub, Result<()>) {
    if h.admin.None? then (h, Err(AdminNotSet))
    else (h.(ren := h.ren.(config := Some(config))), Ok(()))
  }

  function SetAutoRenewal(h: Hub, now: u64, id: TokenId, enabled: bool, paymentToken: Address): (Hub, Result<()>) {
    if id !in h.tokens then (h, Err(TokenNotFound))
    else
      (h.(ren := h.ren.(auto := h.ren.auto[h.tokens[id].user := AutoRenewalSettings(enabled, id, paymentToken, now)])),
       Ok(()))
  }

  /** Store the token and append to its renewal history. */
  function Commit(h: Hub, id: TokenId, t: MembershipToken, entry: RenewalEntry): Hub {
    h.(tokens := h.tokens[id := t],
       ren := h.ren.(history := h.ren.history[id := RenewalHistoryOf(h, id) + [entry]]))
  }

  function SaturatingSucc(n: u32): u32 {
    if n == U32_MAX then n else n + 1
  }

  function DurationOf(cycle: BillingCycle): u64 {
    match cycle case Monthly => THIRTY_DAYS case Annual => ONE_YEAR
  }

  function RenewToken(h: Hub, now: u64, w: World, id: TokenId, paymentToken: Address, tierId: string,
                      cycle: BillingCycle): (Hub, Result<()>) {
    if w.blocked then (h, Err(OperationsPaused))
    else if !RenewalConfigOf(h).renewalsEnabled then (h, Err(RenewalNotAllowed))
    else if id !in h.tokens then (h, Err(TokenNotFound))
    else if tierId !in w.tiers then (h, Err(TierNotFound))
    else
      var t := h.tokens[id];
      var amount := match cycle case Monthly => w.tiers[tierId].price case Annual => w.tiers[tierId].annualPrice;
      if w.usdc.None? then (h, Err(UsdcContractNotSet))
      else if paymentToken != w.usdc.value then (h, Err(InvalidPaymentToken))
      else if amount <= 0 then (h, Err(InvalidPaymentAmount))
      else
        var base := if t.expiryDate > now then t.expiryDate else now;
        if base + DurationOf(cycle) > U64_MAX then (h, Err(TimestampOverflow))
        else
          var expiry := base + DurationOf(cycle);
          var t1 := t.(expiryDate := expiry, status := Active, tierId := Some(tierId),
                       graceEnteredAt := None, graceExpiresAt := None,
                       renewalAttempts := SaturatingSucc(t.renewalAttempts), lastRenewalAttemptAt := Some(now));
          (Commit(h, id, t1, RenewalEntry(now, tierId, amount, paymentToken, Manual, t.expiryDate, expiry)), Ok(()))
  }

  /** `check_and_apply_grace_period`. */
  function ApplyGrace(h: Hub, now: u64, id: TokenId): (Hub, Result<MembershipToken>) {
    if id !in h.tokens then (h, Err(TokenNotFound))
    else
      var t := h.tokens[id];
      var entering := t.status == Active && now > t.expiryDate;
      var grace := RenewalConfigOf(h).gracePeriodDuration;
      if entering && now + grace > U64_MAX then (h, Err(TimestampOverflow))
      else
        var t1 := if entering then EnterGrace(t, now, grace) else t;
        if t1.status == GracePeriod && t1.graceExpiresAt.Some? && now > t1.graceExpiresAt.value
        then (h, Err(GracePeriodExpired))
        else (if entering then h.(tokens := h.tokens[id := t1]) else h, Ok(t1))
  }

  function EnterGrace(t: MembershipToken, now: u64, grace: u64): MembershipToken
    requires now + grace <= U64_MAX
  {
    t.(status := GracePeriod, graceEnteredAt := Some(now), graceExpiresAt := Some(now + grace))
  }

  /** `check_auto_renewal_eligibility`. */
  function AutoRenewalEligible(h: Hub, now: u64, t: MembershipToken): Result<bool> {
    var notice := RenewalConfigOf(h).autoRenewalNotice;
    if t.expiryDate < notice then Err(TimestampOverflow)
    else Ok(now >= t.expiryDate - notice && now < t.expiryDate && t.status == Active)
  }

  /** `process_auto_renewal`. The grace period it enters when the payment token is wrong is written before it
      returns an error, so nothing of it remains. */
  function AutoRenew(h: Hub, now: u64, w: World, id: TokenId): (Hub, Result<()>) {
    if id !in h.tokens then (h, Err(TokenNotFound))
    else
      var t := h.tokens[id];
      if t.user !in h.ren.auto then (h, Err(AutoRenewalFailed))
      else
        var settings := h.ren.auto[t.user];
        var eligible := AutoRenewalEligible(h, now, t);
        if !settings.enabled || settings.tokenId != id then (h, Err(AutoRenewalFailed))
        else if eligible.Err? then (h, Err(eligible.error))
        else if !eligible.value then (h, Err(RenewalNotAllowed))
        else if t.tierId.None? || t.tierId.value !in w.tiers then (h, Err(TierNotFound))
        else if w.usdc.None? then (h, Err(UsdcContractNotSet))
        else if settings.paymentToken != w.usdc.value then
          (h, Err(if now + RenewalConfigOf(h).gracePeriodDuration > U64_MAX then TimestampOverflow
                  else AutoRenewalFailed))
        else if t.expiryDate + THIRTY_DAYS > U64_MAX then (h, Err(TimestampOverflow))
        else
          var expiry := t.expiryDate + THIRTY_DAYS;
          var t1 := t.(expiryDate := expiry, renewalAttempts := SaturatingSucc(t.renewalAttempts),
                       lastRenewalAttemptAt := Some(now));
          (Commit(h, id, t1, RenewalEntry(now, t.tierId.value, w.tiers[t.tierId.value].price, settings.paymentToken,
                                          AutoRenewal, t.expiryDate, expiry)),
           Ok(()))
  }
}
