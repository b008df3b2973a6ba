/** The subscription storage, and the operations working on it in place. */
module SubscriptionStore {
  import opened Prelude
  import opened SubscriptionSpec
  import HubTypes
  import Attendance

  class SubscriptionEnv {
    var admin: Option<Address>
    var usdc: Option<Address>
    var config: Option<PauseConfig>
    var subs: map<string, Subscription>
    var logs: UserLogs

    function Contents(): Desk
      reads this
    {
      Desk(admin, usdc, config, subs, logs)
    }

    constructor ()
      ensures Contents() == Run([])
    {
      admin, usdc, config, subs, logs := None, None, None, map[], map[];
    }

    method RequireAdmin(caller: Address) returns (r: Result)
      ensures r == if admin.None? then Err(AdminNotSet) else if caller != admin.value then Err(Unauthorized) else Ok
    {
      if admin.None? { return Err(AdminNotSet); }
      if caller != admin.value { return Err(Unauthorized); }
      return Ok;
    }

    method SetPauseConfig(caller: Address, newConfig: PauseConfig) returns (r: Result)
      modifies this`config
      ensures (Contents(), r) == SubscriptionSpec.SetPauseConfig(old(Contents()), caller, newConfig)
    {
      r := RequireAdmin(caller);
      if r != Ok { return; }
      if newConfig.maxPauseDuration == 0 { return Err(InvalidPauseConfig); }
      if newConfig.maxPauseCount == 0 { return Err(InvalidPauseConfig); }
      config := Some(newConfig);
      return Ok;
    }

    method ValidatePayment(paymentToken: Address, amount: i128) returns (r: Result)
      ensures r == CheckPayment(Contents(), paymentToken, amount)
      ensures r == Ok <==> amount > 0 && usdc == Some(paymentToken)
      ensures r == Err(InvalidPaymentAmount) <==> amount <= 0
      ensures r == Err(UsdcContractNotSet) <==> amount > 0 && usdc.None?
      ensures r == Err(InvalidPaymentToken) <==> amount > 0 && usdc.Some? && usdc.value != paymentToken
    {
      if amount <= 0 { return Err(InvalidPaymentAmount); }
      if usdc.None? { return Err(UsdcContractNotSet); }
      if paymentToken != usdc.value { return Err(InvalidPaymentToken); }
      return Ok;
    }

    method LogSubscriptionEvent(now: u64, id: string, user: Address, action: Attendance.AttendanceAction)
      modifies this`logs
      ensures Contents() == Logged(old(Contents()), now, id, user, action)
    {
      var eventId := |id| % 256 + |id| / 256 % 256 * 256;
      EventIdIsTwoBytes(id);
      var userLogs := if user in logs then logs[user] else [];
      userLogs := userLogs + [Attendance.LogEntry(eventId, user, action, now)];
      logs := logs[user := userLogs];
    }

    method CreateSubscription(now: u64, id: string, user: Address, paymentToken: Address, amount: i128, duration: u64)
      returns (r: Result)
      modifies this`subs, this`logs
      ensures (Contents(), r)
           == Create(old(Contents()), now, id, user, paymentToken, amount, duration, "", HubTypes.Monthly)
    {
      if id in subs { return Err(SubscriptionAlreadyExists); }
      r := ValidatePayment(paymentToken, amount);
      if r != Ok { return; }
      if now + duration > U64_MAX { return Err(TimestampOverflow); }
      subs := subs[id := Subscription(user, paymentToken, amount, HubTypes.Active, now, now + duration, None, now, 0, 0,
                                      [], "", HubTypes.Monthly)];
      LogSubscriptionEvent(now, id, user, Attendance.ClockIn);
    }

    method PauseSubscriptionInternal(now: u64, id: string, subscription: Subscription, actor: Address, isAdmin: bool,
                                     reason: Option<string>) returns (r: Result)
      requires id in subs && subscription == subs[id]
      modifies this`subs, this`logs
      ensures (Contents(), r) == PauseAs(old(Contents()), now, id, actor, isAdmin, reason)
    {
      if subscription.status == HubTypes.Paused { return Err(SubscriptionPaused); }
      if subscription.status != HubTypes.Active { return Err(SubscriptionNotActive); }
      if now >= subscription.expiresAt { return Err(SubscriptionNotActive); }
      var c := if config.Some? then config.value else PauseConfig(2_592_000, 3, 86_400);
      if !isAdmin {
        if subscription.pauseCount >= c.maxPauseCount { return Err(PauseCountExceeded); }
        var sinceLastResume := if now >= subscription.lastResumedAt then now - subscription.lastResumedAt else 0;
        if sinceLastResume < c.minActiveTime { return Err(PauseTooEarly); }
      }
      var s := subscription;
      s := s.(status := HubTypes.Paused);
      s := s.(pausedAt := Some(now));
      if s.pauseCount < U32_MAX {
        s := s.(pauseCount := s.pauseCount + 1);
      }
      s := s.(pauseHistory := s.pauseHistory + [Pause(now, actor, isAdmin, reason)]);
      subs := subs[id := s];
      LogSubscriptionEvent(now, id, s.user, Attendance.ClockOut);
      return Ok;
    }

    method PauseSubscription(now: u64, id: string, reason: Option<string>) returns (r: Result)
      modifies this`subs, this`logs
      ensures (Contents(), r) == SubscriptionSpec.PauseSubscription(old(Contents()), now, id, reason)
    {
      if id !in subs { return Err(SubscriptionNotFound); }
      r := PauseSubscriptionInternal(now, id, subs[id], subs[id].user, false, reason);
    }

    method PauseSubscriptionAdmin(now: u64, id: string, caller: Address, reason: Option<string>) returns (r: Result)
      modifies this`subs, this`logs
      ensures (Contents(), r) == SubscriptionSpec.PauseSubscriptionAdmin(old(Contents()), now, id, caller, reason)
    {
      r := RequireAdmin(caller);
      if r != Ok { return; }
      if id !in subs { return Err(SubscriptionNotFound); }
      r := PauseSubscriptionInternal(now, id, subs[id], caller, true, reason);
    }

    method ResumeSubscriptionInternal(now: u64, id: string, subscription: Subscription, actor: Address, isAdmin: bool)
      returns (r: Result)
      requires id in subs && subscription == subs[id]
      modifies this`subs, this`logs
      ensures (Contents(), r) == ResumeAs(old(Contents()), now, id, actor, isAdmin)
    {
      if subscription.status != HubTypes.Paused { return Err(SubscriptionNotPaused); }
      if subscription.pausedAt.None? { return Err(SubscriptionNotPaused); }
      if now < subscription.pausedAt.value { return Err(TimestampOverflow); }
      var pausedDuration := now - subscription.pausedAt.value;
      var c := if config.Some? then config.value else PauseConfig(2_592_000, 3, 86_400);
      var appliedExtension := pausedDuration;
      if !isAdmin && pausedDuration > c.maxPauseDuration {
        appliedExtension := c.maxPauseDuration;
      }
      var s := subscription;
      if s.expiresAt + appliedExtension > U64_MAX { return Err(TimestampOverflow); }
      s := s.(expiresAt := s.expiresAt + appliedExtension);
      s := s.(status := HubTypes.Active, pausedAt := None, lastResumedAt := now);
      if s.totalPausedDuration + pausedDuration > U64_MAX { return Err(TimestampOverflow); }
      s := s.(totalPausedDuration := s.totalPausedDuration + pausedDuration);
      s := s.(pauseHistory := s.pauseHistory + [Resume(now, actor, isAdmin, pausedDuration, appliedExtension)]);
      subs := subs[id := s];
      LogSubscriptionEvent(now, id, s.user, Attendance.ClockOut);
      return Ok;
    }

    method ResumeSubscription(now: u64, id: string) returns (r: Result)
      modifies this`subs, this`logs
      ensures (Contents(), r) == SubscriptionSpec.ResumeSubscription(old(Contents()), now, id)
    {
      if id !in subs { return Err(SubscriptionNotFound); }
      r := ResumeSubscriptionInternal(now, id, subs[id], subs[id].user, false);
    }

    method ResumeSubscriptionAdmin(now: u64, id: string, caller: Address) returns (r: Result)
      modifies this`subs, this`logs
      ensures (Contents(), r) == SubscriptionSpec.ResumeSubscriptionAdmin(old(Contents()), now, id, caller)
    {
      r := RequireAdmin(caller);
      if r != Ok { return; }
      if id !in subs { return Err(SubscriptionNotFound); }
      r := ResumeSubscriptionInternal(now, id, subs[id], caller, true);
    }

    method CancelSubscription(id: string) returns (r: Result)
      modifies this`subs
      ensures (Contents(), r) == Cancel(old(Contents()), id)
    {
      if id !in subs { return Err(SubscriptionNotFound); }
      subs := subs[id := subs[id].(status := HubTypes.Inactive, pausedAt := None)];
      return Ok;
    }

    method RenewSubscription(now: u64, id: string, paymentToken: Address, amount: i128, duration: u64)
      returns (r: Result)
      modifies this`subs, this`logs
      ensures (Contents(), r) == Renew(old(Contents()), now, id, paymentToken, amount, duration)
    {
      if id !in subs { return Err(SubscriptionNotFound); }
      var s := subs[id];
      if s.status == HubTypes.Paused { return Err(SubscriptionPaused); }
      r := ValidatePayment(paymentToken, amount);
      if r != Ok { return; }
      var renewalBase := if s.expiresAt > now then s.expiresAt else now;
      if renewalBase + duration > U64_MAX { return Err(TimestampOverflow); }
      s := s.(expiresAt := renewalBase + duration, status := HubTypes.Active, amount := amount);
      subs := subs[id := s];
      LogSubscriptionEvent(now, id, s.user, Attendance.ClockOut);
    }
  }
  /** The two bytes written one after the other make up the length modulo 65536. */
  lemma EventIdIsTwoBytes(id: string)
    ensures |id| % 256 + |id| / 256 % 256 * 256 == EventId(id)
  {
    var n: nat := |id|;
    QuotientRemainder(n, 256);
    QuotientRemainder(n / 256, 256);
    QuotientUnique(n, 0x1_0000, n / 256 / 256, n % 256 + n / 256 % 256 * 256);
  }
}
