/** When each subscription call succeeds, and the whole record it leaves, said of the stored fields. */
module SubscriptionEffects {
  import opened Prelude
  import opened SubscriptionSpec
  import opened SubscriptionProofs
  import HubTypes
  import Attendance

  /** `e` is `d` with `s` stored under `id` and one entry, of action ClockIn if `creates`, more in its owner's log. */
  ghost predicate OneRecord(d: Desk, e: Desk, now: u64, id: string, s: Subscription, creates: bool) {
    && e == d.(subs := e.subs, logs := e.logs)
    && e.subs == d.subs[id := s]
    && OneMore(LogOf(d, s.user), LogOf(e, s.user), s.user, now, creates)
    && LogOf(e, s.user)[|LogOf(d, s.user)|].id == |id| % 65_536
    && (forall u :: u != s.user ==> LogOf(e, u) == LogOf(d, u))
  }

  lemma LoggedIsOneRecord(d: Desk, now: u64, id: string, s: Subscription, action: Attendance.AttendanceAction)
    ensures OneRecord(d, Logged(d.(subs := d.subs[id := s]), now, id, s.user, action), now, id, s,
                      action == Attendance.ClockIn)
  {
    LoggedAddsOne(d.(subs := d.subs[id := s]), now, id, s.user, action, s.user);
  }

  /** The administrator sets any limits with a positive duration and count; until then they are thirty days, three
      pauses, and a day between a resumption and the next pause. */
  lemma LimitsAreAsConfigured(d: Desk, caller: Address, config: PauseConfig)
    ensures var (e, r) := SetPauseConfig(d, caller, config);
      && (r == Ok <==> d.admin == Some(caller) && config.maxPauseDuration > 0 && config.maxPauseCount > 0)
      && e == (if r == Ok then d.(config := Some(config)) else d)
      && (r == Ok ==> ConfigOf(e) == config)
      && (d.config.None? ==> ConfigOf(d) == PauseConfig(2_592_000, 3, 86_400))
  {
  }

  ghost predicate Pays(d: Desk, token: Address, amount: i128) {
    amount > 0 && d.usdc == Some(token)
  }

  /** A subscription is created exactly under a new id, for a positive amount of the payment token, and if its expiry
      date can be represented; it is active for the given term, with nothing paused yet. */
  lemma CreationLeaves(d: Desk, now: u64, id: string, user: Address, token: Address, amount: i128, duration: u64,
                       tierId: string, cycle: HubTypes.BillingCycle)
    ensures var (e, r) := Create(d, now, id, user, token, amount, duration, tierId, cycle);
      && (r == Ok <==> id !in d.subs && Pays(d, token, amount) && now + duration <= 0xFFFF_FFFF_FFFF_FFFF)
      && (r != Ok ==> e == d)
      && (r == Ok ==>
            OneRecord(d, e, now, id,
                      Subscription(user, token, amount, HubTypes.Active, now, now + duration, None, now, 0, 0, [],
                                   tierId, cycle), true))
  {
    var (e, r) := Create(d, now, id, user, token, amount, duration, tierId, cycle);
    if r == Ok {
      LoggedIsOneRecord(d, now, id, e.subs[id], Attendance.ClockIn);
    }
  }

  /** A running subscription; a user, unlike the administrator, also needs a pause left and the minimum time since the
      last resumption. */
  ghost predicate Pausable(d: Desk, now: u64, id: string, isAdmin: bool) {
    && id in d.subs
    && var s, c := d.subs[id], ConfigOf(d);
    && s.status == HubTypes.Active && now < s.expiresAt
    && (isAdmin || (s.pauseCount < c.maxPauseCount && Max(now - s.lastResumedAt, 0) >= c.minActiveTime))
  }

  /** What a pause leaves: the record paused now, one pause more, and its entry. */
  ghost predicate PauseLeft(d: Desk, e: Desk, now: u64, id: string, actor: Address, isAdmin: bool,
                            reason: Option<string>) {
    && id in d.subs && id in e.subs
    && var s, t := d.subs[id], e.subs[id];
    && t == s.(status := t.status, pausedAt := t.pausedAt, pauseCount := t.pauseCount, pauseHistory := t.pauseHistory)
    && t.status == HubTypes.Paused && t.pausedAt == Some(now)
    && t.pauseCount == Min(s.pauseCount + 1, 0xFFFF_FFFF)
    && t.pauseHistory == s.pauseHistory + [Pause(now, actor, isAdmin, reason)]
    && OneRecord(d, e, now, id, t, false)
  }

  lemma PauseAsLeaves(d: Desk, now: u64, id: string, actor: Address, isAdmin: bool, reason: Option<string>)
    requires id in d.subs
    ensures var (e, r) := PauseAs(d, now, id, actor, isAdmin, reason);
      && (r == Ok <==> Pausable(d, now, id, isAdmin))
      && (r != Ok ==> e == d)
      && (r == Ok ==> PauseLeft(d, e, now, id, actor, isAdmin, reason))
  {
    var (e, r) := PauseAs(d, now, id, actor, isAdmin, reason);
    if r == Ok {
      LoggedIsOneRecord(d, now, id, e.subs[id], Attendance.ClockOut);
    }
  }

  /** When users and the administrator can pause, and what is stored then; the user acts as the owner. */
  lemma PausesLeave(d: Desk, now: u64, id: string, admin: Address, reason: Option<string>)
    ensures var (e, r) := PauseSubscription(d, now, id, reason);
      && (r == Ok <==> Pausable(d, now, id, false))
      && (if r == Ok then PauseLeft(d, e, now, id, d.subs[id].user, false, reason) else e == d)
    ensures var (e, r) := PauseSubscriptionAdmin(d, now, id, admin, reason);
      && (r == Ok <==> d.admin == Some(admin) && Pausable(d, now, id, true))
      && (if r == Ok then PauseLeft(d, e, now, id, admin, true, reason) else e == d)
  {
    if id in d.subs {
      PauseAsLeaves(d, now, id, d.subs[id].user, false, reason);
      PauseAsLeaves(d, now, id, admin, true, reason);
    }
  }

  /** The pause lasted `now - pausedAt`; a user is credited at most the longest pause allowed, the administrator's
      resumption credits all of it. */
  function Credit(d: Desk, now: u64, id: string, isAdmin: bool): int
    requires id in d.subs && d.subs[id].pausedAt.Some?
  {
    var length := now - d.subs[id].pausedAt.value;
    if isAdmin || length <= ConfigOf(d).maxPauseDuration then length else ConfigOf(d).maxPauseDuration
  }

  ghost predicate Resumable(d: Desk, now: u64, id: string, isAdmin: bool) {
    && id in d.subs && d.subs[id].status == HubTypes.Paused && d.subs[id].pausedAt.Some?
    && var s := d.subs[id];
    && s.pausedAt.value <= now
    && s.expiresAt + Credit(d, now, id, isAdmin) <= 0xFFFF_FFFF_FFFF_FFFF
    && s.totalPausedDuration + (now - s.pausedAt.value) <= 0xFFFF_FFFF_FFFF_FFFF
  }

  ghost predicate ResumeLeft(d: Desk, e: Desk, now: u64, id: string, actor: Address, isAdmin: bool) {
    && id in d.subs && id in e.subs && d.subs[id].pausedAt.Some? && d.subs[id].pausedAt.value <= now
    && var s, t, credit := d.subs[id], e.subs[id], Credit(d, now, id, isAdmin);
    && var length := now - s.pausedAt.value;
    && t == s.(expiresAt := t.expiresAt, status := t.status, pausedAt := t.pausedAt, lastResumedAt := t.lastResumedAt,
               totalPausedDuration := t.totalPausedDuration, pauseHistory := t.pauseHistory)
    && t.expiresAt == s.expiresAt + credit && t.totalPausedDuration == s.totalPausedDuration + length
    && t.status == HubTypes.Active && t.pausedAt == None && t.lastResumedAt == now
    && t.pauseHistory == s.pauseHistory + [Resume(now, actor, isAdmin, length, credit)]
    && OneRecord(d, e, now, id, t, false)
  }

  lemma ResumeAsLeaves(d: Desk, now: u64, id: string, actor: Address, isAdmin: bool)
    requires id in d.subs
    ensures var (e, r) := ResumeAs(d, now, id, actor, isAdmin);
      && (r == Ok <==> Resumable(d, now, id, isAdmin))
      && (r != Ok ==> e == d)
      && (r == Ok ==> ResumeLeft(d, e, now, id, actor, isAdmin))
  {
    var (e, r) := ResumeAs(d, now, id, actor, isAdmin);
    if r == Ok {
      LoggedIsOneRecord(d, now, id, e.subs[id], Attendance.ClockOut);
    }
  }

  /** When users and the administrator can resume, and what is stored then. */
  lemma ResumptionsLeave(d: Desk, now: u64, id: string, admin: Address)
    ensures var (e, r) := ResumeSubscription(d, now, id);
      && (r == Ok <==> Resumable(d, now, id, false))
      && (if r == Ok then ResumeLeft(d, e, now, id, d.subs[id].user, false) else e == d)
    ensures var (e, r) := ResumeSubscriptionAdmin(d, now, id, admin);
      && (r == Ok <==> d.admin == Some(admin) && Resumable(d, now, id, true))
      && (if r == Ok then ResumeLeft(d, e, now, id, admin, true) else e == d)
  {
    if id in d.subs {
      ResumeAsLeaves(d, now, id, d.subs[id].user, false);
      ResumeAsLeaves(d, now, id, admin, true);
    }
  }

  /** A renewal needs a subscription that is not paused, a payment and a representable date; it runs from the later of
      the expiry and now, and changes nothing else but the amount and the status. */
  lemma RenewalLeaves(d: Desk, now: u64, id: string, token: Address, amount: i128, duration: u64)
    ensures var (e, r) := Renew(d, now, id, token, amount, duration);
      && (r == Ok <==> id in d.subs && d.subs[id].status != HubTypes.Paused && Pays(d, token, amount)
                       && d.subs[id].expiresAt + duration <= 0xFFFF_FFFF_FFFF_FFFF
                       && now + duration <= 0xFFFF_FFFF_FFFF_FFFF)
      && (r != Ok ==> e == d)
      && (r == Ok ==>
            && id in e.subs
            && var s, t := d.subs[id], e.subs[id];
            && t == s.(expiresAt := t.expiresAt, status := HubTypes.Active, amount := amount)
            && t.expiresAt == (if s.expiresAt >= now then s.expiresAt else now) + duration
            && OneRecord(d, e, now, id, t, false))
  {
    var (e, r) := Renew(d, now, id, token, amount, duration);
    if r == Ok {
      LoggedIsOneRecord(d, now, id, e.subs[id], Attendance.ClockOut);
    }
  }

  /** A cancellation ends the subscription and drops an open pause, a tier change sets tier and price; neither touches
      the expiry, the history or the attendance log. */
  lemma OtherChangesLeave(d: Desk, id: string, tierId: string, price: i128)
    ensures var (e, r) := Cancel(d, id);
      && (r == Ok <==> id in d.subs)
      && (if r == Ok then e.subs == d.subs[id := d.subs[id].(status := HubTypes.Inactive, pausedAt := None)]
                          && e == d.(subs := e.subs)
          else e == d)
    ensures var (e, r) := ChangeTier(d, id, tierId, price);
      && (r == Ok <==> id in d.subs)
      && (if r == Ok then e.subs == d.subs[id := d.subs[id].(tierId := tierId, amount := price)]
                          && e == d.(subs := e.subs)
          else e == d)
  {
  }
}
