/** Pause accounting: what the stored counters, dates and history say about each other, over every run. */
module SubscriptionProofs {
  import opened Prelude
  import opened SubscriptionSpec
  import HubTypes
  import Attendance

  // ---------------------------------------------------------------- readings of a pause history

  function Pauses(h: seq<PauseEntry>): nat {
    if h == [] then 0 else Pauses(h[..|h| - 1]) + if h[|h| - 1].Pause? then 1 else 0
  }

  function Resumes(h: seq<PauseEntry>): nat {
    if h == [] then 0 else Resumes(h[..|h| - 1]) + if h[|h| - 1].Resume? then 1 else 0
  }

  function TimePaused(h: seq<PauseEntry>): nat {
    if h == [] then 0 else TimePaused(h[..|h| - 1]) + if h[|h| - 1].Resume? then h[|h| - 1].pausedDuration else 0
  }

  function Extensions(h: seq<PauseEntry>): nat {
    if h == [] then 0 else Extensions(h[..|h| - 1]) + if h[|h| - 1].Resume? then h[|h| - 1].appliedExtension else 0
  }

  /** The time of the last resumption, or else `start`. */
  function LastResume(h: seq<PauseEntry>, start: u64): u64 {
    if h == [] then start
    else if h[|h| - 1].Resume? then h[|h| - 1].timestamp
    else LastResume(h[..|h| - 1], start)
  }

  /** A resumption answers the pause just before it, and measures the time since. */
  predicate Answers(h: seq<PauseEntry>, i: nat)
    requires i < |h|
  {
    h[i].Resume? ==>
      && i > 0 && h[i - 1].Pause?
      && h[i].timestamp == h[i - 1].timestamp + h[i].pausedDuration
      && h[i].appliedExtension <= h[i].pausedDuration
      && (h[i].isAdmin ==> h[i].appliedExtension == h[i].pausedDuration)
  }

  ghost predicate HistoryOk(h: seq<PauseEntry>) {
    forall i :: 0 <= i < |h| ==> Answers(h, i)
  }

  /** What every stored subscription satisfies. */
  ghost predicate Accounted(s: Subscription) {
    && s.status in {HubTypes.Active, HubTypes.Paused, HubTypes.Inactive}
    && (s.status == HubTypes.Paused <==> s.pausedAt.Some?)
    && (s.status == HubTypes.Paused ==>
          s.pauseHistory != [] && s.pauseHistory[|s.pauseHistory| - 1].Pause?
          && s.pauseHistory[|s.pauseHistory| - 1].timestamp == s.pausedAt.value)
    && s.pauseCount == Min(Pauses(s.pauseHistory), U32_MAX)
    && s.totalPausedDuration == TimePaused(s.pauseHistory)
    && s.lastResumedAt == LastResume(s.pauseHistory, s.createdAt)
    && HistoryOk(s.pauseHistory)
  }

  ghost predicate AllAccounted(d: Desk) {
    forall id :: id in d.subs ==> Accounted(d.subs[id])
  }

  lemma Snoc(h: seq<PauseEntry>, e: PauseEntry)
    ensures (h + [e])[..|h|] == h
    ensures HistoryOk(h + [e]) <==> HistoryOk(h) && Answers(h + [e], |h|)
  {
    assert (h + [e])[..|h|] == h;
    if HistoryOk(h) && Answers(h + [e], |h|) {
      forall i | 0 <= i < |h + [e]| ensures Answers(h + [e], i) {
        assert i < |h| ==> Answers(h, i);
      }
    }
    if HistoryOk(h + [e]) {
      forall i | 0 <= i < |h| ensures Answers(h, i) {
        assert Answers(h + [e], i);
      }
    }
  }

  lemma PauseIsAccounted(d: Desk, now: u64, id: string, actor: Address, isAdmin: bool, reason: Option<string>)
    requires id in d.subs && AllAccounted(d)
    ensures AllAccounted(PauseAs(d, now, id, actor, isAdmin, reason).0)
  {
    Snoc(d.subs[id].pauseHistory, Pause(now, actor, isAdmin, reason));
  }

  lemma ResumeIsAccounted(d: Desk, now: u64, id: string, actor: Address, isAdmin: bool)
    requires id in d.subs && AllAccounted(d)
    ensures AllAccounted(ResumeAs(d, now, id, actor, isAdmin).0)
  {
    var s := d.subs[id];
    var (d', r) := ResumeAs(d, now, id, actor, isAdmin);
    if r == Ok {
      var h := d'.subs[id].pauseHistory;
      Snoc(s.pauseHistory, h[|h| - 1]);
    }
  }

  lemma StepIsAccounted(d: Desk, e: Event)
    requires AllAccounted(d)
    ensures AllAccounted(Step(d, e))
  {
    match e.call
    case DoPause(id, why) =>
      if id in d.subs { PauseIsAccounted(d, e.now, id, d.subs[id].user, false, why); }
    case DoPauseAdmin(id, a, why) =>
      if id in d.subs { PauseIsAccounted(d, e.now, id, a, true, why); }
    case DoResume(id) =>
      if id in d.subs { ResumeIsAccounted(d, e.now, id, d.subs[id].user, false); }
    case DoResumeAdmin(id, a) =>
      if id in d.subs { ResumeIsAccounted(d, e.now, id, a, true); }
    case _ =>
  }

  /** In every reachable state each subscription's counters and dates are those its history tells. */
  lemma {:induction false} PausesAreAccounted(es: seq<Event>)
    ensures AllAccounted(Run(es))
  {
    if es != [] {
      PausesAreAccounted(es[..|es| - 1]);
      StepIsAccounted(Run(es[..|es| - 1]), es[|es| - 1]);
    }
  }

  // ---------------------------------------------------------------- where an expiry date comes from

  /** The date a subscription was last paid up to, and how long its history was then: its term from its creation, or
      the renewed term from the later of the expiry and the moment of renewal. */
  datatype Basis = Basis(expiry: nat, entries: nat)

  function BasisOf(es: seq<Event>, id: string): Basis {
    if es == [] then Basis(0, 0)
    else
      var init, e := es[..|es| - 1], es[|es| - 1];
      if StepResult(Run(init), e).1 != Ok then BasisOf(init, id)
      else
        match e.call
        case DoCreate(c, _, _, _, duration, _, _) => if c == id then Basis(e.now + duration, 0) else BasisOf(init, id)
        case DoRenew(c, _, _, duration) =>
          if c == id && id in Run(init).subs
          then Basis(Max(Run(init).subs[id].expiresAt, e.now) + duration, |Run(init).subs[id].pauseHistory|)
          else BasisOf(init, id)
        case _ => BasisOf(init, id)
  }

  ghost predicate PaidUp(s: Subscription, b: Basis) {
    && b.entries <= |s.pauseHistory|
    && s.expiresAt == b.expiry + Extensions(s.pauseHistory[b.entries..])
  }

  /** `s'` has the pause history and the expiry of `s`, or one entry more, with the extension it grants. */
  ghost predicate Extends(s: Subscription, s': Subscription) {
    && s'.createdAt == s.createdAt
    && (|| (s'.pauseHistory == s.pauseHistory && s'.expiresAt == s.expiresAt)
        || exists p: PauseEntry ::
             && s'.pauseHistory == s.pauseHistory + [p]
             && s'.expiresAt == s.expiresAt + (if p.Resume? then p.appliedExtension else 0))
  }

  lemma PauseExtends(d: Desk, now: u64, v: string, actor: Address, isAdmin: bool, reason: Option<string>, id: string)
    requires v in d.subs && id in d.subs
    ensures var k := PauseAs(d, now, v, actor, isAdmin, reason).0; id in k.subs && Extends(d.subs[id], k.subs[id])
  {
    var k := PauseAs(d, now, v, actor, isAdmin, reason).0;
    assert k == d || k.subs[v].pauseHistory == d.subs[v].pauseHistory + [Pause(now, actor, isAdmin, reason)];
  }

  lemma ResumeExtends(d: Desk, now: u64, v: string, actor: Address, isAdmin: bool, id: string)
    requires v in d.subs && id in d.subs
    ensures var k := ResumeAs(d, now, v, actor, isAdmin).0; id in k.subs && Extends(d.subs[id], k.subs[id])
  {
    var k := ResumeAs(d, now, v, actor, isAdmin).0;
    if k != d {
      var p := k.subs[v].pauseHistory[|d.subs[v].pauseHistory|];
      assert k.subs[v].pauseHistory == d.subs[v].pauseHistory + [p];
    }
  }

  lemma OthersExtendNothing(d: Desk, e: Event, id: string)
    requires id in d.subs
    requires !e.call.DoPause? && !e.call.DoPauseAdmin? && !e.call.DoResume? && !e.call.DoResumeAdmin?
    requires !(e.call.DoRenew? && e.call.id == id && StepResult(d, e).1 == Ok)
    ensures id in Step(d, e).subs && Extends(d.subs[id], Step(d, e).subs[id])
  {
  }

  /** A call that does not renew `id` changes its pause history and expiry by one entry at most. */
  lemma StepExtends(d: Desk, e: Event, id: string)
    requires id in d.subs
    requires !(e.call.DoRenew? && e.call.id == id && StepResult(d, e).1 == Ok)
    ensures id in Step(d, e).subs && Extends(d.subs[id], Step(d, e).subs[id])
  {
    match e.call
    case DoPause(v, why) =>
      if v in d.subs { PauseExtends(d, e.now, v, d.subs[v].user, false, why, id); }
    case DoPauseAdmin(v, a, why) =>
      if v in d.subs { PauseExtends(d, e.now, v, a, true, why, id); }
    case DoResume(v) =>
      if v in d.subs { ResumeExtends(d, e.now, v, d.subs[v].user, false, id); }
    case DoResumeAdmin(v, a) =>
      if v in d.subs { ResumeExtends(d, e.now, v, a, true, id); }
    case _ => OthersExtendNothing(d, e, id);
  }

  lemma ExtendedIsPaidUp(s: Subscription, s': Subscription, b: Basis)
    requires PaidUp(s, b) && Extends(s, s')
    ensures PaidUp(s', b)
  {
    if s'.pauseHistory != s.pauseHistory {
      var p :| s'.pauseHistory == s.pauseHistory + [p]
            && s'.expiresAt == s.expiresAt + (if p.Resume? then p.appliedExtension else 0);
      var since, since' := s.pauseHistory[b.entries..], s'.pauseHistory[b.entries..];
      assert since' == since + [p];
      assert since'[..|since|] == since;
    }
  }

  lemma StepKeepsPaidUp(d: Desk, e: Event, id: string, b: Basis)
    requires id in d.subs && PaidUp(d.subs[id], b)
    requires !(e.call.DoRenew? && e.call.id == id && StepResult(d, e).1 == Ok)
    ensures id in Step(d, e).subs && PaidUp(Step(d, e).subs[id], b)
  {
    StepExtends(d, e, id);
    ExtendedIsPaidUp(d.subs[id], Step(d, e).subs[id], b);
  }

  lemma OnlyCreationCreates(d: Desk, e: Event, id: string)
    requires id !in d.subs && id in Step(d, e).subs
    ensures e.call.DoCreate? && e.call.id == id && StepResult(d, e).1 == Ok
  {
  }

  /** A subscription expires exactly when it was last paid up to, plus every extension granted since; and a subscription
      that was never renewed, at its original expiry plus all its extensions. */
  lemma {:induction false} ExpiryIsPaidPlusExtensions(es: seq<Event>, id: string)
    requires id in Run(es).subs
    ensures PaidUp(Run(es).subs[id], BasisOf(es, id))
    ensures (forall i :: 0 <= i < |es| ==> !IsRenewal(es[i], id)) ==> BasisOf(es, id).entries == 0
  {
    if es != [] {
      var init, e := es[..|es| - 1], es[|es| - 1];
      var d := Run(init);
      if e.call.DoCreate? && e.call.id == id && StepResult(d, e).1 == Ok {
        assert Run(es).subs[id].pauseHistory == [];
      } else if e.call.DoRenew? && e.call.id == id && StepResult(d, e).1 == Ok {
        assert IsRenewal(es[|es| - 1], id);
        var s := Run(es).subs[id];
        assert s.pauseHistory[|s.pauseHistory|..] == [];
      } else {
        if id !in d.subs {
          OnlyCreationCreates(d, e, id);
        }
        ExpiryIsPaidPlusExtensions(init, id);
        StepKeepsPaidUp(d, e, id, BasisOf(init, id));
        if forall i :: 0 <= i < |es| ==> !IsRenewal(es[i], id) {
          forall i | 0 <= i < |init| ensures !IsRenewal(init[i], id) {
            assert !IsRenewal(es[i], id);
          }
        }
      }
    }
  }

  predicate IsRenewal(e: Event, id: string) {
    e.call.DoRenew? && e.call.id == id
  }

  // ---------------------------------------------------------------- the attendance log

  /** Whose attendance log the call of `e` writes to: every successful call of these five does. */
  function LoggedUser(d: Desk, e: Event): Option<Address> {
    if StepResult(d, e).1 != Ok then None
    else
      match e.call
      case DoCreate(_, user, _, _, _, _, _) => Some(user)
      case DoPause(id, _) => OwnerOf(d, id)
      case DoPauseAdmin(id, _, _) => OwnerOf(d, id)
      case DoResume(id) => OwnerOf(d, id)
      case DoResumeAdmin(id, _) => OwnerOf(d, id)
      case DoRenew(id, _, _, _) => OwnerOf(d, id)
      case _ => None
  }

  function OwnerOf(d: Desk, id: string): Option<Address> {
    if id in d.subs then Some(d.subs[id].user) else None
  }

  /** The number of calls of the run that wrote to the log of `user`. */
  function LoggedCalls(es: seq<Event>, user: Address): nat {
    if es == [] then 0
    else
      var init, e := es[..|es| - 1], es[|es| - 1];
      LoggedCalls(init, user) + if LoggedUser(Run(init), e) == Some(user) then 1 else 0
  }

  /** `after` is `before` with one entry more: the user's, dated `now`, a ClockIn if `creates`. */
  ghost predicate OneMore(before: seq<LogEntry>, after: seq<LogEntry>, user: Address, now: u64, creates: bool) {
    && |after| == |before| + 1 && after[..|before|] == before
    && after[|before|].user == user && after[|before|].timestamp == now
    && (after[|before|].action == Attendance.ClockIn <==> creates)
  }

  ghost predicate LogStep(d: Desk, e: Event, user: Address) {
    if LoggedUser(d, e) == Some(user)
    then OneMore(LogOf(d, user), LogOf(Step(d, e), user), user, e.now, e.call.DoCreate?)
    else LogOf(Step(d, e), user) == LogOf(d, user)
  }

  lemma LoggedAddsOne(d: Desk, now: u64, id: string, owner: Address, action: Attendance.AttendanceAction, user: Address)
    ensures var before, after := LogOf(d, user), LogOf(Logged(d, now, id, owner, action), user);
      if user == owner then OneMore(before, after, user, now, action == Attendance.ClockIn) else after == before
  {
    var x := Attendance.LogEntry(EventId(id), owner, action, now);
    assert (LogOf(d, user) + [x])[..|LogOf(d, user)|] == LogOf(d, user);
  }

  lemma PauseLogs(d: Desk, e: Event, user: Address)
    requires e.call.DoPause? || e.call.DoPauseAdmin?
    ensures LogStep(d, e, user)
  {
    if e.call.id in d.subs {
      LoggedAddsOne(d, e.now, e.call.id, d.subs[e.call.id].user, Attendance.ClockOut, user);
    }
  }

  lemma ResumeLogs(d: Desk, e: Event, user: Address)
    requires e.call.DoResume? || e.call.DoResumeAdmin?
    ensures LogStep(d, e, user)
  {
    if e.call.id in d.subs {
      LoggedAddsOne(d, e.now, e.call.id, d.subs[e.call.id].user, Attendance.ClockOut, user);
    }
  }

  lemma PaymentLogs(d: Desk, e: Event, user: Address)
    requires e.call.DoCreate? || e.call.DoRenew?
    ensures LogStep(d, e, user)
  {
    if e.call.DoCreate? {
      LoggedAddsOne(d, e.now, e.call.id, e.call.user, Attendance.ClockIn, user);
    } else if e.call.id in d.subs {
      LoggedAddsOne(d, e.now, e.call.id, d.subs[e.call.id].user, Attendance.ClockOut, user);
    }
  }

  lemma OthersLogNothing(d: Desk, e: Event, user: Address)
    requires !e.call.DoPause? && !e.call.DoPauseAdmin? && !e.call.DoResume? && !e.call.DoResumeAdmin?
    requires !e.call.DoCreate? && !e.call.DoRenew?
    ensures LogStep(d, e, user)
  {
  }

  /** A log grows at its end by one entry, dated now, a ClockIn exactly for a creation; or it stays as it is. */
  lemma StepLogs(d: Desk, e: Event, user: Address)
    ensures LogStep(d, e, user)
  {
    if e.call.DoPause? || e.call.DoPauseAdmin? {
      PauseLogs(d, e, user);
    } else if e.call.DoResume? || e.call.DoResumeAdmin? {
      ResumeLogs(d, e, user);
    } else if e.call.DoCreate? || e.call.DoRenew? {
      PaymentLogs(d, e, user);
    } else {
      OthersLogNothing(d, e, user);
    }
  }

  /** After every run a user's log has one entry per successful creation, pause, resumption and renewal of the user's
      subscriptions; under a clock that does not run back it is sorted, as the session readings require. */
  lemma {:induction false} SubscriptionsAreLogged(es: seq<Event>, user: Address)
    ensures |LogOf(Run(es), user)| == LoggedCalls(es, user)
    ensures (forall i, j :: 0 <= i < j < |es| ==> es[i].now <= es[j].now) ==>
              Attendance.Sorted(LogOf(Run(es), user))
              && forall x :: x in LogOf(Run(es), user) ==> es != [] && x.timestamp <= es[|es| - 1].now
  {
    if es != [] {
      var init, e := es[..|es| - 1], es[|es| - 1];
      SubscriptionsAreLogged(init, user);
      StepLogs(Run(init), e, user);
      assert init != [] ==> init[|init| - 1] == es[|es| - 2];
      var before, after := LogOf(Run(init), user), LogOf(Run(es), user);
      assert after != before ==> after == before + [after[|before|]];
    }
  }

  // ---------------------------------------------------------------- what was paid

  /** The call of `e` creates or renews `id` for a positive amount of the payment token configured at that moment. */
  ghost predicate Pays(d: Desk, e: Event, id: string) {
    && (e.call.DoCreate? || e.call.DoRenew?) && e.call.id == id
    && e.call.amount > 0 && d.usdc == Some(e.call.token)
  }

  /** The call of `e` creates `s`, paid for in the token it records. */
  ghost predicate CreatesPaid(d: Desk, e: Event, id: string, s: Subscription) {
    && e.call.DoCreate? && Pays(d, e, id)
    && s.user == e.call.user && s.createdAt == e.now && s.paymentToken == e.call.token
  }

  /** Every stored subscription was created, in the run, by a call that paid a positive amount of the payment token
      configured at that moment; owner, creation date and payment token are those of that call. */
  lemma {:induction false} SubscriptionsWerePaid(es: seq<Event>, id: string)
    requires id in Run(es).subs
    ensures exists k :: 0 <= k < |es| && CreatesPaid(Run(es[..k]), es[k], id, Run(es).subs[id])
  {
    var n := |es| - 1;
    var init, e := es[..n], es[n];
    if id in Run(init).subs {
      SubscriptionsWerePaid(init, id);
      var k :| 0 <= k < |init| && CreatesPaid(Run(init[..k]), init[k], id, Run(init).subs[id]);
      assert init[..k] == es[..k];
      StepKeepsOrigin(Run(init), e, id);
      assert CreatesPaid(Run(es[..k]), es[k], id, Run(es).subs[id]);
    } else {
      OnlyCreationCreates(Run(init), e, id);
      assert CreatesPaid(Run(es[..n]), es[n], id, Run(es).subs[id]);
    }
  }

  lemma StepKeepsOrigin(d: Desk, e: Event, id: string)
    requires id in d.subs
    ensures id in Step(d, e).subs
    ensures var s, t := d.subs[id], Step(d, e).subs[id];
      t.user == s.user && t.createdAt == s.createdAt && t.paymentToken == s.paymentToken
  {
  }

  /** A call that makes a subscription expire later is a resumption or has paid: nothing else adds time. */
  lemma TimeIsPaidFor(es: seq<Event>, e: Event, id: string)
    requires id in Run(es).subs && id in Step(Run(es), e).subs
    requires Step(Run(es), e).subs[id].expiresAt > Run(es).subs[id].expiresAt
    ensures ((e.call.DoResume? || e.call.DoResumeAdmin?) && e.call.id == id) || Pays(Run(es), e, id)
  {
  }

  // ---------------------------------------------------------------- what a user can gain by pausing

  /** The user, never the administrator, pauses and resumes `id`, and always under `c`. */
  ghost predicate SelfService(es: seq<Event>, id: string, c: PauseConfig) {
    forall i :: 0 <= i < |es| ==> SelfServed(Run(es[..i]), es[i], id, c)
  }

  predicate SelfServed(d: Desk, e: Event, id: string, c: PauseConfig) {
    && !(e.call.DoPauseAdmin? && e.call.id == id)
    && !(e.call.DoResumeAdmin? && e.call.id == id)
    && ((e.call.DoPause? || e.call.DoResume?) && e.call.id == id ==> ConfigOf(d) == c)
  }

  predicate EntryWithin(h: seq<PauseEntry>, i: nat, c: PauseConfig, start: u64)
    requires i < |h|
  {
    match h[i]
    case Pause(t, _, _, _) => Elapsed(t, LastResume(h[..i], start)) >= c.minActiveTime
    case Resume(_, _, _, duration, applied) => applied == Min(duration, c.maxPauseDuration)
  }

  ghost predicate Within(s: Subscription, c: PauseConfig) {
    && Pauses(s.pauseHistory) <= c.maxPauseCount
    && forall i :: 0 <= i < |s.pauseHistory| ==> EntryWithin(s.pauseHistory, i, c, s.createdAt)
  }

  lemma OnlyPausingChangesHistory(d: Desk, e: Event, id: string)
    requires id in d.subs && id in Step(d, e).subs
    requires Step(d, e).subs[id].pauseHistory != d.subs[id].pauseHistory
    ensures e.call.DoPause? || e.call.DoPauseAdmin? || e.call.DoResume? || e.call.DoResumeAdmin?
    ensures e.call.id == id
  {
  }

  /** `h'` is `h` with one more entry, and that entry is within the configuration. */
  ghost predicate OneEntryWithin(h: seq<PauseEntry>, h': seq<PauseEntry>, c: PauseConfig, start: u64) {
    && |h'| == |h| + 1 && h'[..|h|] == h && Pauses(h') <= c.maxPauseCount
    && EntryWithin(h', |h|, c, start)
  }

  lemma PauseEntryWithin(d: Desk, now: u64, id: string, actor: Address, reason: Option<string>)
    requires id in d.subs && Accounted(d.subs[id]) && PauseAs(d, now, id, actor, false, reason).1 == Ok
    ensures OneEntryWithin(d.subs[id].pauseHistory,
                           PauseAs(d, now, id, actor, false, reason).0.subs[id].pauseHistory, ConfigOf(d),
                           d.subs[id].createdAt)
  {
    Snoc(d.subs[id].pauseHistory, Pause(now, actor, false, reason));
  }

  lemma ResumeEntryWithin(d: Desk, now: u64, id: string, actor: Address)
    requires id in d.subs && Pauses(d.subs[id].pauseHistory) <= ConfigOf(d).maxPauseCount
    requires ResumeAs(d, now, id, actor, false).1 == Ok
    ensures OneEntryWithin(d.subs[id].pauseHistory, ResumeAs(d, now, id, actor, false).0.subs[id].pauseHistory,
                           ConfigOf(d), d.subs[id].createdAt)
  {
    var h' := ResumeAs(d, now, id, actor, false).0.subs[id].pauseHistory;
    Snoc(d.subs[id].pauseHistory, h'[|h'| - 1]);
  }

  /** The one entry a self-served call can add is within the configuration. */
  lemma NewEntryWithin(d: Desk, e: Event, id: string, c: PauseConfig)
    requires id in d.subs && Accounted(d.subs[id]) && Pauses(d.subs[id].pauseHistory) <= c.maxPauseCount
    requires SelfServed(d, e, id, c) && id in Step(d, e).subs
    requires Step(d, e).subs[id].pauseHistory != d.subs[id].pauseHistory
    ensures OneEntryWithin(d.subs[id].pauseHistory, Step(d, e).subs[id].pauseHistory, c, d.subs[id].createdAt)
  {
    OnlyPausingChangesHistory(d, e, id);
    match e.call
    case DoPause(_, reason) => PauseEntryWithin(d, e.now, id, d.subs[id].user, reason);
    case DoResume(_) => ResumeEntryWithin(d, e.now, id, d.subs[id].user);
  }

  lemma WithinSnoc(s: Subscription, s': Subscription, c: PauseConfig)
    requires Within(s, c) && s'.createdAt == s.createdAt && Pauses(s'.pauseHistory) <= c.maxPauseCount
    requires |s'.pauseHistory| == |s.pauseHistory| + 1 && s'.pauseHistory[..|s.pauseHistory|] == s.pauseHistory
    requires EntryWithin(s'.pauseHistory, |s.pauseHistory|, c, s.createdAt)
    ensures Within(s', c)
  {
    var h, h' := s.pauseHistory, s'.pauseHistory;
    forall i | 0 <= i < |h'| ensures EntryWithin(h', i, c, s.createdAt) {
      if i < |h| {
        assert EntryWithin(h, i, c, s.createdAt);
        assert h'[..i] == h[..i] && h'[i] == h[i];
      }
    }
  }

  lemma SelfServiceStep(d: Desk, e: Event, id: string, c: PauseConfig)
    requires id in d.subs && Accounted(d.subs[id]) && Within(d.subs[id], c) && SelfServed(d, e, id, c)
    ensures id in Step(d, e).subs && Within(Step(d, e).subs[id], c)
  {
    StepKeepsOrigin(d, e, id);
    if Step(d, e).subs[id].pauseHistory != d.subs[id].pauseHistory {
      NewEntryWithin(d, e, id, c);
      WithinSnoc(d.subs[id], Step(d, e).subs[id], c);
    }
  }

  lemma {:induction false} SelfServiceStaysWithin(es: seq<Event>, id: string, c: PauseConfig)
    requires SelfService(es, id, c) && id in Run(es).subs
    ensures Within(Run(es).subs[id], c)
  {
    if es != [] {
      var init, e := es[..|es| - 1], es[|es| - 1];
      assert SelfServed(Run(es[..|es| - 1]), es[|es| - 1], id, c);
      if id in Run(init).subs {
        forall i | 0 <= i < |init| ensures SelfServed(Run(init[..i]), init[i], id, c) {
          assert init[..i] == es[..i];
          assert SelfServed(Run(es[..i]), es[i], id, c);
        }
        SelfServiceStaysWithin(init, id, c);
        PausesAreAccounted(init);
        SelfServiceStep(Run(init), e, id, c);
      } else {
        OnlyCreationCreates(Run(init), e, id);
      }
    }
  }

  lemma {:induction false} ResumesFollowPauses(h: seq<PauseEntry>)
    requires HistoryOk(h)
    ensures Resumes(h) + (if h != [] && h[|h| - 1].Pause? then 1 else 0) <= Pauses(h)
  {
    if h != [] {
      var init := h[..|h| - 1];
      forall i | 0 <= i < |init| ensures Answers(init, i) {
        assert Answers(h, i);
      }
      ResumesFollowPauses(init);
      assert Answers(h, |h| - 1);
    }
  }

  lemma {:induction false} ExtensionsAreCapped(h: seq<PauseEntry>, cap: nat)
    requires forall i :: 0 <= i < |h| && h[i].Resume? ==> h[i].appliedExtension <= cap
    ensures Extensions(h) <= Resumes(h) * cap
  {
    if h != [] {
      ExtensionsAreCapped(h[..|h| - 1], cap);
      Distributes(Resumes(h[..|h| - 1]), 1, cap);
    }
  }

  /** Under a fixed configuration and without the administrator, a user pauses at most `maxPauseCount` times, gains at
      most `maxPauseCount * maxPauseDuration` seconds, never more than the time spent paused, and had the subscription
      active for `minActiveTime` before each pause. Never renewed, it expires at most that much after its original
      date. */
  lemma UserPausesAreBounded(es: seq<Event>, id: string, c: PauseConfig)
    requires SelfService(es, id, c) && id in Run(es).subs
    ensures var s := Run(es).subs[id];
      && Pauses(s.pauseHistory) <= c.maxPauseCount
      && Extensions(s.pauseHistory) <= c.maxPauseCount * c.maxPauseDuration
      && Extensions(s.pauseHistory) <= s.totalPausedDuration
      && (forall i :: 0 <= i < |s.pauseHistory| && s.pauseHistory[i].Pause? ==>
            Elapsed(s.pauseHistory[i].timestamp, LastResume(s.pauseHistory[..i], s.createdAt)) >= c.minActiveTime)
      && ((forall i :: 0 <= i < |es| ==> !IsRenewal(es[i], id)) ==>
            s.expiresAt <= BasisOf(es, id).expiry + c.maxPauseCount * c.maxPauseDuration)
  {
    ExpiryIsPaidPlusExtensions(es, id);
    SelfServiceStaysWithin(es, id, c);
    PausesAreAccounted(es);
    var s := Run(es).subs[id];
    var h := s.pauseHistory;
    forall i | 0 <= i < |h|
      ensures h[i].Resume? ==> h[i].appliedExtension <= c.maxPauseDuration
      ensures h[i].Pause? ==> Elapsed(h[i].timestamp, LastResume(h[..i], s.createdAt)) >= c.minActiveTime
    {
      assert EntryWithin(h, i, c, s.createdAt);
    }
    ExtensionsAreCapped(h, c.maxPauseDuration);
    ResumesFollowPauses(h);
    ProductOrder(Resumes(h), c.maxPauseCount, c.maxPauseDuration);
    ExtensionsNeverExceedPauses(h);
    assert h[0..] == h;
  }

  lemma {:induction false} ExtensionsNeverExceedPauses(h: seq<PauseEntry>)
    requires HistoryOk(h)
    ensures Extensions(h) <= TimePaused(h)
  {
    if h != [] {
      var init := h[..|h| - 1];
      forall i | 0 <= i < |init| ensures Answers(init, i) {
        assert Answers(h, i);
      }
      ExtensionsNeverExceedPauses(init);
      assert Answers(h, |h| - 1);
    }
  }

  // ---------------------------------------------------------------- pause, then resume

  /** Pausing at `t` and resuming at `u`, whatever happened to everything else in between: the time left to run is what
      it was, except for the part of a user's pause beyond the longest one allowed. */
  lemma ResumeGivesBackThePause(d: Desk, t: u64, id: string, reason: Option<string>, admin: bool, e: Desk, u: u64,
                                actor: Address, actor': Address, admin': bool)
    requires id in d.subs && PauseAs(d, t, id, actor, admin, reason).1 == Ok
    requires id in e.subs && e.subs[id] == PauseAs(d, t, id, actor, admin, reason).0.subs[id]
    ensures var s := d.subs[id];
      var (f, r) := ResumeAs(e, u, id, actor', admin');
      var lost := if admin' then 0 else Max(u - t - ConfigOf(e).maxPauseDuration, 0);
      && (r == Ok <==> t <= u && s.expiresAt + (u - t - lost) <= U64_MAX && s.totalPausedDuration + (u - t) <= U64_MAX)
      && (r == Ok ==>
            && f.subs[id].expiresAt - u == s.expiresAt - t - lost
            && f.subs[id].status == s.status == HubTypes.Active
            && f.subs[id].totalPausedDuration == s.totalPausedDuration + (u - t))
  {
  }

  /** Cancelling drops an open pause: nothing is added to the expiry or to the time paused for it, now or later. */
  lemma CancelledPauseIsLost(d: Desk, t: u64, id: string, reason: Option<string>, actor: Address, admin: bool)
    requires id in d.subs && Accounted(d.subs[id]) && PauseAs(d, t, id, actor, admin, reason).1 == Ok
    ensures var s, c := d.subs[id], Cancel(PauseAs(d, t, id, actor, admin, reason).0, id).0.subs[id];
      && c.expiresAt == s.expiresAt && c.totalPausedDuration == s.totalPausedDuration
      && c.status == HubTypes.Inactive && c.pausedAt == None
      && Pauses(c.pauseHistory) == Pauses(s.pauseHistory) + 1
  {
    Snoc(d.subs[id].pauseHistory, Pause(t, actor, admin, reason));
  }
}
