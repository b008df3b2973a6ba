/** The grace period, its two stamps and the renewal history over every run of the hub, upgrades and rollbacks
    included. */
module GraceProofs {
  import opened Prelude
  import opened HubTypes
  import opened RenewalSpec
  import opened HubSpec
  import Re = RenewalProofs
  import Up = UpgradeSpec
  import UpP = UpgradeProofs

  /** The token is in the grace period exactly when it is stamped with its beginning, and with its end. */
  predicate StampsAgree(t: MembershipToken) {
    && (t.status == GracePeriod <==> t.graceEnteredAt.Some?)
    && (t.status == GracePeriod <==> t.graceExpiresAt.Some?)
  }

  ghost predicate AllAgree(h: Hub) {
    forall id :: id in h.tokens ==> StampsAgree(h.tokens[id])
  }

  // ---------------------------------------------------------------- one operation

  /** The new status an upgrade asks for, if any, is on the same side of the grace period as the old one. */
  predicate UpgradeKeepsSide(t: MembershipToken, newStatus: Option<MembershipStatus>) {
    newStatus.Some? ==> (newStatus.value == GracePeriod <==> t.status == GracePeriod)
  }

  predicate RollbackKeepsSide(t: MembershipToken, s: Snapshot) {
    s.status == GracePeriod <==> t.status == GracePeriod
  }

  /** A successful upgrade keeps status and stamps in agreement exactly if it moves the token neither into the grace
      period nor out of it: it changes the status and never the stamps. */
  lemma UpgradeKeepsStampsExactly(h: Hub, now: u64, caller: Address, id: TokenId, versionLabel: Option<string>,
                                  newExpiry: Option<u64>, newTier: Option<string>, newStatus: Option<MembershipStatus>)
    requires id in h.tokens && StampsAgree(h.tokens[id])
    requires Up.UpgradeToken(h, now, caller, id, versionLabel, newExpiry, newTier, newStatus).1.Ok?
    ensures var k := Up.UpgradeToken(h, now, caller, id, versionLabel, newExpiry, newTier, newStatus).0;
      id in k.tokens && (StampsAgree(k.tokens[id]) <==> UpgradeKeepsSide(h.tokens[id], newStatus))
  {
    UpP.UpgradeCases(h, now, caller, id, versionLabel, newExpiry, newTier, newStatus);
  }

  /** A successful rollback keeps them in agreement exactly if the snapshot is on the token's side of the grace
      period. */
  lemma RollbackKeepsStampsExactly(h: Hub, now: u64, admin: Address, id: TokenId, v: u32)
    requires id in h.tokens && StampsAgree(h.tokens[id]) && Up.Rollback(h, now, admin, id, v).1.Ok?
    ensures (id, v) in h.up.snapshots
    ensures var k := Up.Rollback(h, now, admin, id, v).0;
      id in k.tokens && (StampsAgree(k.tokens[id]) <==> RollbackKeepsSide(h.tokens[id], h.up.snapshots[(id, v)]))
  {
  }

  /** A batch upgrade always keeps them in agreement: it cannot change a status. */
  lemma {:induction false} BatchKeepsStamps(h: Hub, now: u64, admin: Address, ids: seq<TokenId>,
                                            versionLabel: Option<string>, newExpiry: Option<u64>)
    requires AllAgree(h)
    ensures AllAgree(Up.BatchLoop(h, now, admin, ids, versionLabel, newExpiry).0)
  {
    if ids != [] {
      var init := ids[..|ids| - 1];
      BatchKeepsStamps(h, now, admin, init, versionLabel, newExpiry);
      var h1 := Up.BatchLoop(h, now, admin, init, versionLabel, newExpiry).0;
      UpP.SingleCases(h1, now, admin, ids[|ids| - 1], versionLabel, newExpiry);
    }
  }

  // ---------------------------------------------------------------- every run

  /** If `e` upgrades a token or rolls one back, it keeps it on its side of the grace period. */
  predicate KeepsSide(h: Hub, e: Event) {
    match e.call
    case DoUpgrade(_, id, _, _, _, newStatus) => id in h.tokens ==> UpgradeKeepsSide(h.tokens[id], newStatus)
    case DoRollback(_, id, v) =>
      id in h.tokens && (id, v) in h.up.snapshots ==> RollbackKeepsSide(h.tokens[id], h.up.snapshots[(id, v)])
    case _ => true
  }

  /** Every upgrade and rollback of the run keeps its token's side, unless the call is refused. */
  ghost predicate KeepSides(es: seq<Event>) {
    forall i :: 0 <= i < |es| ==> SideKept(Run(es[..i]), es[i])
  }

  ghost predicate SideKept(h: Hub, e: Event) {
    KeepsSide(h, e) || Step(h, e) == h
  }

  lemma VersionsKeepStamps(h: Hub, e: Event)
    requires AllAgree(h) && KeepsSide(h, e) && IsVersionCall(e.call)
    ensures AllAgree(Step(h, e))
  {
    match e.call
    case DoUpgrade(a, id, l, x, t, s) => UpP.UpgradeCases(h, e.now, a, id, l, x, t, s);
    case DoBatch(a, ids, l, x) => BatchKeepsStamps(h, e.now, a, ids, l, x);
    case DoRollback(_, _, _) =>
  }

  lemma RenewalsKeepStamps(h: Hub, e: Event)
    requires AllAgree(h) && (e.call.DoRenew? || e.call.DoAutoRenew?)
    ensures AllAgree(Step(h, e))
  {
    match e.call
    case DoRenew(id, p, tier, cycle) => Re.RenewCases(h, e.now, e.w, id, p, tier, cycle);
    case DoAutoRenew(id) => Re.AutoRenewCases(h, e.now, e.w, id);
  }

  lemma GraceKeepsStamps(h: Hub, e: Event)
    requires AllAgree(h) && (e.call.DoGrace? || e.call.DoIssue?)
    ensures AllAgree(Step(h, e))
  {
  }

  lemma OthersKeepStamps(h: Hub, e: Event)
    requires AllAgree(h) && !IsVersionCall(e.call)
    requires !e.call.DoRenew? && !e.call.DoAutoRenew? && !e.call.DoGrace? && !e.call.DoIssue?
    ensures AllAgree(Step(h, e))
  {
    forall id | id in Step(h, e).tokens ensures StampsAgree(Step(h, e).tokens[id]) {
      Re.OthersKeepTerms(h, e, id);
    }
  }

  lemma StepKeepsStamps(h: Hub, e: Event)
    requires AllAgree(h) && KeepsSide(h, e)
    ensures AllAgree(Step(h, e))
  {
    if IsVersionCall(e.call) {
      VersionsKeepStamps(h, e);
    } else if e.call.DoRenew? || e.call.DoAutoRenew? {
      RenewalsKeepStamps(h, e);
    } else if e.call.DoGrace? || e.call.DoIssue? {
      GraceKeepsStamps(h, e);
    } else {
      OthersKeepStamps(h, e);
    }
  }

  /** From agreement, one call breaks it exactly if it is an upgrade or a
      rollback that succeeds and moves a token across. */
  lemma StampsBreakExactly(h: Hub, e: Event)
    requires AllAgree(h)
    ensures AllAgree(Step(h, e)) <==> SideKept(h, e)
  {
    if KeepsSide(h, e) {
      StepKeepsStamps(h, e);
    } else {
      match e.call
      case DoUpgrade(a, id, l, x, t, s) =>
        UpP.UpgradeCases(h, e.now, a, id, l, x, t, s);
        if Up.UpgradeToken(h, e.now, a, id, l, x, t, s).1.Ok? {
          UpgradeKeepsStampsExactly(h, e.now, a, id, l, x, t, s);
        }
      case DoRollback(a, id, v) =>
        if Up.Rollback(h, e.now, a, id, v).1.Ok? {
          RollbackKeepsStampsExactly(h, e.now, a, id, v);
        }
    }
  }

  /** After every run, with any number of upgrades, batches and rollbacks that keep tokens on their side of the grace
      period or are refused, every token is in the grace period exactly when both stamps are set. */
  lemma {:induction false} StampsAgreeInEveryRun(es: seq<Event>)
    requires KeepSides(es)
    ensures AllAgree(Run(es))
  {
    if es != [] {
      var init := es[..|es| - 1];
      forall i | 0 <= i < |init| ensures SideKept(Run(init[..i]), init[i]) {
        assert init[..i] == es[..i];
        assert SideKept(Run(es[..i]), es[i]);
      }
      StampsAgreeInEveryRun(init);
      assert SideKept(Run(es[..|es| - 1]), es[|es| - 1]);
      StampsBreakExactly(Run(init), es[|es| - 1]);
    }
  }

  // ---------------------------------------------------------------- what a missing stamp means

  /** `check_and_apply_grace_period` reports the end of the grace period exactly when the token is in it, has an end
      stamp, and the stamp has passed. */
  lemma GraceExpiresExactly(h: Hub, now: u64, id: TokenId)
    ensures ApplyGrace(h, now, id).1 == Err(GracePeriodExpired) <==>
      && id in h.tokens && h.tokens[id].status == GracePeriod
      && h.tokens[id].graceExpiresAt.Some? && now > h.tokens[id].graceExpiresAt.value
  {
  }

  /** So a token in the grace period without an end stamp stays in it: the check finds it in order at any time. */
  lemma UnstampedGraceNeverExpires(h: Hub, now: u64, id: TokenId)
    requires id in h.tokens && h.tokens[id].status == GracePeriod && h.tokens[id].graceExpiresAt.None?
    ensures ApplyGrace(h, now, id) == (h, Ok(h.tokens[id]))
  {
  }

  // ---------------------------------------------------------------- the history with upgrades in between

  /** The renewal entries of `id` lead from its issue expiry to its current one. */
  ghost predicate Linked(es: seq<Event>, id: TokenId) {
    var h := Run(es);
    && (id in h.tokens <==> Re.IssuedExpiry(es, id).Some?)
    && (id !in h.tokens ==> id !in h.ren.history)
    && (id in h.tokens ==>
          Re.Chain(RenewalHistoryOf(h, id), Re.IssuedExpiry(es, id).value, h.tokens[id].expiryDate))
  }

  /** The expiry date `e` would give token `id` as a new version, if it names one, is the one the token has. */
  predicate KeepsExpiry(h: Hub, e: Event, id: TokenId) {
    id in h.tokens ==>
      match e.call
      case DoUpgrade(_, u, _, newExpiry, _, _) =>
        u == id && newExpiry.Some? ==> newExpiry.value == h.tokens[id].expiryDate
      case DoBatch(_, ids, _, newExpiry) =>
        id in ids && newExpiry.Some? ==> newExpiry.value == h.tokens[id].expiryDate
      case DoRollback(_, u, v) =>
        u == id && (id, v) in h.up.snapshots ==> h.up.snapshots[(id, v)].expiryDate == h.tokens[id].expiryDate
      case _ => true
  }

  predicate Untouched(h: Hub, k: Hub, id: TokenId) {
    id in h.tokens && id in k.tokens && k.tokens[id] == h.tokens[id]
  }

  /** A batch leaves a token alone, or gives it the one expiry date it names, if any. */
  lemma {:induction false} BatchExpiry(h: Hub, now: u64, admin: Address, ids: seq<TokenId>,
                                       versionLabel: Option<string>, newExpiry: Option<u64>, id: TokenId)
    ensures var k := Up.BatchLoop(h, now, admin, ids, versionLabel, newExpiry).0;
      && k.ren == h.ren && (id in k.tokens <==> id in h.tokens)
      && (id in h.tokens ==>
            || k.tokens[id] == h.tokens[id]
            || (id in ids && k.tokens[id].expiryDate
                             == if newExpiry.Some? then newExpiry.value else h.tokens[id].expiryDate))
  {
    if ids != [] {
      var init := ids[..|ids| - 1];
      BatchExpiry(h, now, admin, init, versionLabel, newExpiry, id);
      var h1 := Up.BatchLoop(h, now, admin, init, versionLabel, newExpiry).0;
      UpP.SingleCases(h1, now, admin, ids[|ids| - 1], versionLabel, newExpiry);
    }
  }

  /** A version call keeps the expiry date of `id` exactly if the guard holds or it leaves the token alone. */
  lemma VersionsKeepExpiryExactly(h: Hub, e: Event, id: TokenId)
    requires IsVersionCall(e.call)
    ensures var k := Step(h, e);
      && k.ren == h.ren && (id in k.tokens <==> id in h.tokens)
      && (id in h.tokens ==>
            (k.tokens[id].expiryDate == h.tokens[id].expiryDate <==> KeepsExpiry(h, e, id) || Untouched(h, k, id)))
  {
    match e.call
    case DoUpgrade(a, u, l, x, t, s) => UpP.UpgradeCases(h, e.now, a, u, l, x, t, s);
    case DoBatch(a, ids, l, x) => BatchExpiry(h, e.now, a, ids, l, x, id);
    case DoRollback(_, _, _) =>
  }

  /** A history leads to one date only. */
  lemma ChainEnds(history: seq<RenewalEntry>, first: u64, last: u64, other: u64)
    requires Re.Chain(history, first, last)
    ensures Re.Chain(history, first, other) <==> other == last
  {
  }

  ghost predicate ExpiryKept(h: Hub, e: Event, id: TokenId) {
    KeepsExpiry(h, e, id) || Untouched(h, Step(h, e), id)
  }

  /** One more call keeps the entries leading to the current expiry exactly if it is not an upgrade or a rollback that
      succeeds in giving the token another expiry date. */
  lemma LinkBreaksExactly(es: seq<Event>, e: Event, id: TokenId)
    requires Linked(es, id)
    ensures Linked(es + [e], id) <==> ExpiryKept(Run(es), e, id)
  {
    var h, k := Run(es), Run(es + [e]);
    UpP.RunSnoc(es, e);
    assert (es + [e])[..|es|] == es;
    if IsVersionCall(e.call) {
      VersionsKeepExpiryExactly(h, e, id);
      if id in h.tokens {
        ChainEnds(RenewalHistoryOf(h, id), Re.IssuedExpiry(es, id).value, h.tokens[id].expiryDate,
                  k.tokens[id].expiryDate);
      }
    } else {
      Re.StepMoves(h, e, id);
    }
  }

  /** After every run in which no upgrade, batch or rollback gives the token another expiry date, its renewal entries
      lead from the date it was issued with to its current one. */
  lemma {:induction false} HistoryLeadsToExpiry(es: seq<Event>, id: TokenId)
    requires forall i :: 0 <= i < |es| ==> ExpiryKept(Run(es[..i]), es[i], id)
    ensures Linked(es, id)
  {
    if es != [] {
      var init, e := es[..|es| - 1], es[|es| - 1];
      forall i | 0 <= i < |init| ensures ExpiryKept(Run(init[..i]), init[i], id) {
        assert init[..i] == es[..i];
        assert ExpiryKept(Run(es[..i]), es[i], id);
      }
      HistoryLeadsToExpiry(init, id);
      assert ExpiryKept(Run(es[..|es| - 1]), es[|es| - 1], id);
      LinkBreaksExactly(init, e, id);
      assert init + [e] == es;
    }
  }

  // ---------------------------------------------------------------- runs that break the agreement

  /** The administrator 9 issues token 1 to account 5 at `t`, and allows upgrades. */
  function SetupRun(t: u64, w: World): seq<Event>
    requires t < U64_MAX
  {
    [Event(t, w, DoSetAdmin(9)), Event(t, w, DoIssue(1, 5, t + 1)),
     Event(t, w, DoUpgradeConfig(9, UpgradeConfig(true, true, 0)))]
  }

  function Issued(t: u64): MembershipToken
    requires t < U64_MAX
  {
    MembershipToken(1, 5, Active, t, t + 1, None, None, None, 0, None, 0)
  }

  function SetupHub(t: u64): Hub
    requires t < U64_MAX
  {
    EMPTY_HUB.(admin := Some(9), tokens := map[1 := Issued(t)],
               up := EMPTY_HUB.up.(config := Some(UpgradeConfig(true, true, 0))))
  }

  lemma SetupReaches(t: u64, w: World)
    requires t < U64_MAX && !w.blocked
    ensures Run(SetupRun(t, w)) == SetupHub(t)
  {
    var e0, e1, e2 := SetupRun(t, w)[0], SetupRun(t, w)[1], SetupRun(t, w)[2];
    UpP.RunSnoc([], e0);
    UpP.RunSnoc([e0], e1);
    UpP.RunSnoc([e0, e1], e2);
    assert [] + [e0] == [e0] && [e0] + [e1] == [e0, e1] && [e0, e1] + [e2] == SetupRun(t, w);
  }

  /** In a run of four calls an upgrade puts a token into the grace period without stamps, where it stays. */
  lemma UpgradeBreaksStampsInARun(t: u64, w: World, later: u64)
    requires t < U64_MAX && !w.blocked
    ensures var h := Run(SetupRun(t, w) + [Event(t, w, DoUpgrade(9, 1, None, None, None, Some(GracePeriod)))]);
      && 1 in h.tokens && h.tokens[1].status == GracePeriod && !StampsAgree(h.tokens[1])
      && ApplyGrace(h, later, 1) == (h, Ok(h.tokens[1]))
  {
    SetupReaches(t, w);
    UpP.RunSnoc(SetupRun(t, w), Event(t, w, DoUpgrade(9, 1, None, None, None, Some(GracePeriod))));
  }

  const BASIC: World := World(false, map["basic" := TierPrice(1, 1)], Some(3))

  /** The token enters the grace period, is upgraded there, is renewed, and is rolled back to the version left. */
  function RollbackRun(t: u64): seq<Event>
    requires t + 2 + THIRTY_DAYS + ONE_YEAR <= U64_MAX
  {
    SetupRun(t, BASIC)
    + [Event(t + 2, BASIC, DoGrace(1))] + [Event(t + 2, BASIC, DoUpgrade(9, 1, None, None, None, None))]
    + [Event(t + 2, BASIC, DoRenew(1, 3, "basic", Monthly))] + [Event(t + 2, BASIC, DoRollback(9, 1, 0))]
  }

  function InGrace(t: u64): MembershipToken
    requires t + 2 + THIRTY_DAYS + ONE_YEAR <= U64_MAX
  {
    Issued(t).(status := GracePeriod, graceEnteredAt := Some(t + 2),
               graceExpiresAt := Some(t + 2 + DEFAULT_RENEWALS.gracePeriodDuration))
  }

  lemma EntersGrace(t: u64)
    requires t + 2 + THIRTY_DAYS + ONE_YEAR <= U64_MAX
    ensures Step(SetupHub(t), Event(t + 2, BASIC, DoGrace(1))) == SetupHub(t).(tokens := map[1 := InGrace(t)])
  {
  }

  /** The hub once the upgrade has recorded the token in its grace period. */
  ghost predicate UpgradedInGrace(h: Hub, t: u64)
    requires t + 2 + THIRTY_DAYS + ONE_YEAR <= U64_MAX
  {
    && h.admin == Some(9) && h.up.config == Some(UpgradeConfig(true, true, 0)) && h.ren.config.None?
    && 1 in h.tokens && h.tokens[1] == InGrace(t).(currentVersion := 1)
    && (1, 0) in h.up.snapshots && h.up.snapshots[(1, 0)].status == GracePeriod
  }

  lemma UpgradesInGrace(t: u64)
    requires t + 2 + THIRTY_DAYS + ONE_YEAR <= U64_MAX
    ensures UpgradedInGrace(Step(SetupHub(t).(tokens := map[1 := InGrace(t)]),
                                 Event(t + 2, BASIC, DoUpgrade(9, 1, None, None, None, None))), t)
  {
  }

  lemma RenewsOutOfGrace(h: Hub, t: u64)
    requires t + 2 + THIRTY_DAYS + ONE_YEAR <= U64_MAX && UpgradedInGrace(h, t)
    ensures var k := Step(h, Event(t + 2, BASIC, DoRenew(1, 3, "basic", Monthly)));
      && k.admin == h.admin && k.up == h.up && 1 in k.tokens && k.tokens[1].currentVersion == 1
      && k.tokens[1].status == Active && k.tokens[1].graceEnteredAt.None? && k.tokens[1].graceExpiresAt.None?
  {
  }

  /** In a run of seven calls a rollback brings the grace period back without the stamps the renewal cleared. */
  lemma RollbackBreaksStampsInARun(t: u64, later: u64)
    requires t + 2 + THIRTY_DAYS + ONE_YEAR <= U64_MAX
    ensures var h := Run(RollbackRun(t));
      && 1 in h.tokens && h.tokens[1].status == GracePeriod && !StampsAgree(h.tokens[1])
      && ApplyGrace(h, later, 1) == (h, Ok(h.tokens[1]))
  {
    var es := SetupRun(t, BASIC);
    var e3, e4 := Event(t + 2, BASIC, DoGrace(1)), Event(t + 2, BASIC, DoUpgrade(9, 1, None, None, None, None));
    var e5, e6 := Event(t + 2, BASIC, DoRenew(1, 3, "basic", Monthly)), Event(t + 2, BASIC, DoRollback(9, 1, 0));
    SetupReaches(t, BASIC);
    UpP.RunSnoc(es, e3);
    UpP.RunSnoc(es + [e3], e4);
    UpP.RunSnoc(es + [e3] + [e4], e5);
    UpP.RunSnoc(es + [e3] + [e4] + [e5], e6);
    EntersGrace(t);
    UpgradesInGrace(t);
    RenewsOutOfGrace(Run(es + [e3] + [e4]), t);
  }
}
