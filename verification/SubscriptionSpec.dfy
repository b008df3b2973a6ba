/** Subscriptions, and their pausing and resuming, as functions on a state
    (contracts/manage_hub/src/subscription.rs). A failed invocation leaves no writes. */
module SubscriptionSpec {
  import opened Prelude
  import HubTypes
  import Attendance

  type LogEntry = Attendance.LogEntry
  type UserLogs = Attendance.UserLogs

  type Status = HubTypes.MembershipStatus

  datatype PauseConfig = PauseConfig(maxPauseDuration: u64, maxPauseCount: u32, minActiveTime: u64)

  const DEFAULT_PAUSES := PauseConfig(2_592_000, 3, 86_400)

  datatype PauseEntry =
    | Pause(timestamp: u64, actor: Address, isAdmin: bool, reason: Option<string>)
    | Resume(timestamp: u64, actor: Address, isAdmin: bool, pausedDuration: u64, appliedExtension: u64)

  datatype Subscription = Subscription(
    user: Address, paymentToken: Address, amount: i128, status: Status, createdAt: u64, expiresAt: u64,
    pausedAt: Option<u64>, lastResumedAt: u64, pauseCount: u32, totalPausedDuration: u64,
    pauseHistory: seq<PauseEntry>, tierId: string, billingCycle: HubTypes.BillingCycle)

  datatype Error =
    | AdminNotSet | Unauthorized | InvalidPauseConfig | InvalidPaymentAmount | InvalidPaymentToken | UsdcContractNotSet
    | SubscriptionAlreadyExists | SubscriptionNotFound | SubscriptionPaused | SubscriptionNotActive
    | SubscriptionNotPaused | PauseCountExceeded | PauseTooEarly | TimestampOverflow

  datatype Result = Ok | Err(error: Error)

  datatype Desk = Desk(
    admin: Option<Address>,
    usdc: Option<Address>,
    config: Option<PauseConfig>,
    subs: map<string, Subscription>,
    logs: UserLogs)

  /** `generate_event_id`: two bytes of the length of the subscription id. */
  function EventId(id: string): nat {
    |id| % 0x1_0000
  }

  function LogOf(d: Desk, user: Address): seq<LogEntry> {
    if user in d.logs then d.logs[user] else []
  }

  /** `log_subscription_event`: one attendance entry for the owner. */
  function Logged(d: Desk, now: u64, id: string, user: Address, action: Attendance.AttendanceAction): Desk {
    d.(logs := d.logs[user := LogOf(d, user) + [Attendance.LogEntry(EventId(id), user, action, now)]])
  }

  function ConfigOf(d: Desk): PauseConfig {
    if d.config.Some? then d.config.value else DEFAULT_PAUSES
  }

  function SetPauseConfig(d: Desk, caller: Address, config: PauseConfig): (Desk, Result) {
    if d.admin.None? then (d, Err(AdminNotSet))
    else if caller != d.admin.value then (d, Err(Unauthorized))
    else if config.maxPauseDuration == 0 || config.maxPauseCount == 0 then (d, Err(InvalidPauseConfig))
    else (d.(config := Some(config)), Ok)
  }

  /** `validate_payment`. */
  function CheckPayment(d: Desk, paymentToken: Address, amount: i128): Result {
    if amount <= 0 then Err(InvalidPaymentAmount)
    else if d.usdc.None? then Err(UsdcContractNotSet)
    else if paymentToken != d.usdc.value then Err(InvalidPaymentToken)
    else Ok
  }

  /** `create_subscription` with an empty tier, and the end of `create_subscription_with_tier` with the price the tier
      and the promotion came to and the length of the billing cycle. */
  function Create(d: Desk, now: u64, id: string, user: Address, paymentToken: Address, amount: i128, duration: u64,
                  tierId: string, cycle: HubTypes.BillingCycle): (Desk, Result) {
    if id in d.subs then (d, Err(SubscriptionAlreadyExists))
    else if CheckPayment(d, paymentToken, amount) != Ok then (d, CheckPayment(d, paymentToken, amount))
    else if now + duration > U64_MAX then (d, Err(TimestampOverflow))
    else
      (Logged(d.(subs := d.subs[id := Subscription(user, paymentToken, amount, HubTypes.Active, now, now + duration,
                                                   None, now, 0, 0, [], tierId, cycle)]),
              now, id, user, Attendance.ClockIn), Ok)
  }

  function Elapsed(now: u64, since: u64): u64 {
    if now >= since then now - since else 0
  }

  /** `pause_subscription_internal`. */
  function PauseAs(d: Desk, now: u64, id: string, actor: Address, isAdmin: bool, reason: Option<string>): (Desk, Result)
    requires id in d.subs
  {
    var s, c := d.subs[id], ConfigOf(d);
    if s.status == HubTypes.Paused then (d, Err(SubscriptionPaused))
    else if s.status != HubTypes.Active || now >= s.expiresAt then (d, Err(SubscriptionNotActive))
    else if !isAdmin && s.pauseCount >= c.maxPauseCount then (d, Err(PauseCountExceeded))
    else if !isAdmin && Elapsed(now, s.lastResumedAt) < c.minActiveTime then (d, Err(PauseTooEarly))
    else
      (Logged(d.(subs := d.subs[id := s.(
         status := HubTypes.Paused,
         pausedAt := Some(now),
         pauseCount := if s.pauseCount == U32_MAX then U32_MAX else s.pauseCount + 1,
         pauseHistory := s.pauseHistory + [Pause(now, actor, isAdmin, reason)])]),
              now, id, s.user, Attendance.ClockOut), Ok)
  }

  /** `resume_subscription_internal`. */
  function ResumeAs(d: Desk, now: u64, id: string, actor: Address, isAdmin: bool): (Desk, Result)
    requires id in d.subs
  {
    var s := d.subs[id];
    if s.status != HubTypes.Paused || s.pausedAt.None? then (d, Err(SubscriptionNotPaused))
    else if now < s.pausedAt.value then (d, Err(TimestampOverflow))
    else
      var duration := now - s.pausedAt.value;
      var applied := if isAdmin then duration else Min(duration, ConfigOf(d).maxPauseDuration);
      if s.expiresAt + applied > U64_MAX || s.totalPausedDuration + duration > U64_MAX then (d, Err(TimestampOverflow))
      else
        (Logged(d.(subs := d.subs[id := s.(
           expiresAt := s.expiresAt + applied,
           status := HubTypes.Active,
           pausedAt := None,
           lastResumedAt := now,
           totalPausedDuration := s.totalPausedDuration + duration,
           pauseHistory := s.pauseHistory + [Resume(now, actor, isAdmin, duration, applied)])]),
                now, id, s.user, Attendance.ClockOut), Ok)
  }

  function PauseSubscription(d: Desk, now: u64, id: string, reason: Option<string>): (Desk, Result) {
    if id !in d.subs then (d, Err(SubscriptionNotFound))
    else PauseAs(d, now, id, d.subs[id].user, false, reason)
  }

  function PauseSubscriptionAdmin(d: Desk, now: u64, id: string, caller: Address,
                                  reason: Option<string>): (Desk, Result) {
    if d.admin.None? then (d, Err(AdminNotSet))
    else if caller != d.admin.value then (d, Err(Unauthorized))
    else if id !in d.subs then (d, Err(SubscriptionNotFound))
    else PauseAs(d, now, id, caller, true, reason)
  }

  function ResumeSubscription(d: Desk, now: u64, id: string): (Desk, Result) {
    if id !in d.subs then (d, Err(SubscriptionNotFound))
    else ResumeAs(d, now, id, d.subs[id].user, false)
  }

  function ResumeSubscriptionAdmin(d: Desk, now: u64, id: string, caller: Address): (Desk, Result) {
    if d.admin.None? then (d, Err(AdminNotSet))
    else if caller != d.admin.value then (d, Err(Unauthorized))
    else if id !in d.subs then (d, Err(SubscriptionNotFound))
    else ResumeAs(d, now, id, caller, true)
  }

  function Cancel(d: Desk, id: string): (Desk, Result) {
    if id !in d.subs then (d, Err(SubscriptionNotFound))
    else (d.(subs := d.subs[id := d.subs[id].(status := HubTypes.Inactive, pausedAt := None)]), Ok)
  }

  function Renew(d: Desk, now: u64, id: string, paymentToken: Address, amount: i128, duration: u64): (Desk, Result) {
    if id !in d.subs then (d, Err(SubscriptionNotFound))
    else
      var s := d.subs[id];
      if s.status == HubTypes.Paused then (d, Err(SubscriptionPaused))
      else if CheckPayment(d, paymentToken, amount) != Ok then (d, CheckPayment(d, paymentToken, amount))
      else if Max(s.expiresAt, now) + duration > U64_MAX then (d, Err(TimestampOverflow))
      else
        (Logged(d.(subs := d.subs[id := s.(expiresAt := Max(s.expiresAt, now) + duration,
                                           status := HubTypes.Active, amount := amount)]),
                now, id, s.user, Attendance.ClockOut), Ok)
  }

  /** What `process_tier_change` writes to a subscription. */
  function ChangeTier(d: Desk, id: string, tierId: string, price: i128): (Desk, Result) {
    if id !in d.subs then (d, Err(SubscriptionNotFound))
    else (d.(subs := d.subs[id := d.subs[id].(tierId := tierId, amount := price)]), Ok)
  }

  // ---------------------------------------------------------------- runs

  datatype Call =
    | DoAdmin(user: Address)
    | DoUsdc(token: Address)
    | DoConfig(caller: Address, config: PauseConfig)
    | DoCreate(id: string, user: Address, token: Address, amount: i128, duration: u64, tierId: string,
               cycle: HubTypes.BillingCycle)
    | DoPause(id: string, reason: Option<string>)
    | DoPauseAdmin(id: string, caller: Address, reason: Option<string>)
    | DoResume(id: string)
    | DoResumeAdmin(id: string, caller: Address)
    | DoCancel(id: string)
    | DoRenew(id: string, token: Address, amount: i128, duration: u64)
    | DoChangeTier(id: string, tierId: string, price: i128)

  datatype Event = Event(now: u64, call: Call)

  function StepResult(d: Desk, e: Event): (Desk, Result) {
    match e.call
    case DoAdmin(a) => (d.(admin := Some(a)), Ok)
    case DoUsdc(t) => (d.(usdc := Some(t)), Ok)
    case DoConfig(a, c) => SetPauseConfig(d, a, c)
    case DoCreate(id, u, t, n, len, tier, cycle) => Create(d, e.now, id, u, t, n, len, tier, cycle)
    case DoPause(id, why) => PauseSubscription(d, e.now, id, why)
    case DoPauseAdmin(id, a, why) => PauseSubscriptionAdmin(d, e.now, id, a, why)
    case DoResume(id) => ResumeSubscription(d, e.now, id)
    case DoResumeAdmin(id, a) => ResumeSubscriptionAdmin(d, e.now, id, a)
    case DoCancel(id) => Cancel(d, id)
    case DoRenew(id, t, n, len) => Renew(d, e.now, id, t, n, len)
    case DoChangeTier(id, tier, price) => ChangeTier(d, id, tier, price)
  }

  function Step(d: Desk, e: Event): Desk {
    StepResult(d, e).0
  }

  function Run(es: seq<Event>): Desk {
    if es == [] then Desk(None, None, None, map[], map[])
    else Step(Run(es[..|es| - 1]), es[|es| - 1])
  }
}
