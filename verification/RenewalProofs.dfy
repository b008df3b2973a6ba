/** Renewal histories, expiry dates and the grace period over every run of the hub. */
module RenewalProofs {
  import opened Prelude
  import opened HubTypes
  import opened RenewalSpec
  import opened HubSpec
  import Up = UpgradeSpec
  import UpP = UpgradeProofs

  // ---------------------------------------------------------------- in every run

  /** One entry adds a month or a year to the later of the old expiry and the moment of renewal. */
  predicate EntryOk(e: RenewalEntry) {
    || e.newExpiry == Max(e.oldExpiry, e.timestamp) + THIRTY_DAYS
    || e.newExpiry == Max(e.oldExpiry, e.timestamp) + ONE_YEAR
  }

  ghost predicate CountsOk(h: Hub) {
    && (forall id :: id in h.ren.history ==> id in h.tokens)
    && (forall id :: id in h.tokens ==>
          && h.tokens[id].renewalAttempts == Min(|RenewalHistoryOf(h, id)|, U32_MAX)
          && forall i :: 0 <= i < |RenewalHistoryOf(h, id)| ==> EntryOk(RenewalHistoryOf(h, id)[i]))
  }

  /** The token a renewal stores and the entry it appends. */
  ghost predicate Renews(h: Hub, k: Hub, id: TokenId, t: MembershipToken, entry: RenewalEntry) {
    && id in h.tokens && k == Commit(h, id, t, entry)
    && EntryOk(entry)
    && entry.oldExpiry == h.tokens[id].expiryDate && entry.newExpiry == t.expiryDate
    && t.status == Active
    && t.renewalAttempts == SaturatingSucc(h.tokens[id].renewalAttempts)
    && t.currentVersion == h.tokens[id].currentVersion && t.user == h.tokens[id].user && t.id == h.tokens[id].id
  }

  lemma RenewCases(h: Hub, now: u64, w: World, id: TokenId, paymentToken: Address, tierId: string, cycle: BillingCycle)
    ensures var (k, r) := RenewToken(h, now, w, id, paymentToken, tierId, cycle);
      || (k == h && r.Err?)
      || (r.Ok? && exists t, entry :: (
            Renews(h, k, id, t, entry) && t.graceEnteredAt == None && t.graceExpiresAt == None))
  {
    var (k, r) := RenewToken(h, now, w, id, paymentToken, tierId, cycle);
    if r.Ok? {
      var t := k.tokens[id];
      var entry := RenewalHistoryOf(k, id)[|RenewalHistoryOf(h, id)|];
      assert Renews(h, k, id, t, entry);
    }
  }

  /** `process_auto_renewal` either renews for thirty days or leaves everything as it was: it never leaves the token
      in the grace period, although its own comment says it enters it on failure. */
  lemma AutoRenewCases(h: Hub, now: u64, w: World, id: TokenId)
    ensures var (k, r) := AutoRenew(h, now, w, id);
      || (k == h && r.Err?)
      || (r.Ok? && exists t, entry :: (
            && Renews(h, k, id, t, entry)
            && entry.newExpiry == entry.oldExpiry + THIRTY_DAYS && h.tokens[id].status == Active
            && t.graceEnteredAt == h.tokens[id].graceEnteredAt && t.graceExpiresAt == h.tokens[id].graceExpiresAt))
  {
    var (k, r) := AutoRenew(h, now, w, id);
    if r.Ok? {
      var t := k.tokens[id];
      var entry := RenewalHistoryOf(k, id)[|RenewalHistoryOf(h, id)|];
      assert Renews(h, k, id, t, entry);
    }
  }

  lemma RenewsKeepsCounts(h: Hub, k: Hub, id: TokenId, t: MembershipToken, entry: RenewalEntry)
    requires CountsOk(h) && Renews(h, k, id, t, entry)
    ensures CountsOk(k)
  {
    assert RenewalHistoryOf(k, id) == RenewalHistoryOf(h, id) + [entry];
    forall j | j in k.tokens && j != id ensures RenewalHistoryOf(k, j) == RenewalHistoryOf(h, j) {
    }
  }

  /** Other calls touch neither histories nor counters. */
  ghost predicate SameRenewals(h: Hub, k: Hub) {
    && k.ren.history == h.ren.history
    && (forall id :: id in h.tokens ==> id in k.tokens && k.tokens[id].renewalAttempts == h.tokens[id].renewalAttempts)
    && (forall id :: id in k.tokens && id !in h.tokens ==> k.tokens[id].renewalAttempts == 0)
  }

  lemma {:induction false} BatchChangesNoRenewal(h: Hub, now: u64, admin: Address, ids: seq<TokenId>,
                                                 versionLabel: Option<string>, newExpiry: Option<u64>)
    ensures SameRenewals(h, Up.BatchLoop(h, now, admin, ids, versionLabel, newExpiry).0)
  {
    if ids != [] {
      BatchChangesNoRenewal(h, now, admin, ids[..|ids| - 1], versionLabel, newExpiry);
    }
  }

  lemma VersionsChangeNoRenewal(h: Hub, e: Event)
    requires IsVersionCall(e.call)
    ensures SameRenewals(h, Step(h, e))
  {
    match e.call
    case DoBatch(a, ids, l, x) => BatchChangesNoRenewal(h, e.now, a, ids, l, x);
    case _ =>
  }

  lemma FractionsChangeNoRenewal(h: Hub, e: Event)
    requires IsFractionCall(e.call)
    ensures SameRenewals(h, Step(h, e))
  {
  }

  lemma OthersChangeNoRenewal(h: Hub, e: Event)
    requires !e.call.DoRenew? && !e.call.DoAutoRenew?
    ensures SameRenewals(h, Step(h, e))
  {
    if IsVersionCall(e.call) {
      VersionsChangeNoRenewal(h, e);
    } else if IsFractionCall(e.call) {
      FractionsChangeNoRenewal(h, e);
    }
  }

  lemma RenewKeepsCounts(h: Hub, e: Event)
    requires CountsOk(h) && e.call.DoRenew?
    ensures CountsOk(Step(h, e))
  {
    RenewCases(h, e.now, e.w, e.call.id, e.call.paymentToken, e.call.tierId, e.call.cycle);
    if Step(h, e) != h {
      var t, entry :| Renews(h, Step(h, e), e.call.id, t, entry);
      RenewsKeepsCounts(h, Step(h, e), e.call.id, t, entry);
    }
  }

  lemma AutoRenewKeepsCounts(h: Hub, e: Event)
    requires CountsOk(h) && e.call.DoAutoRenew?
    ensures CountsOk(Step(h, e))
  {
    AutoRenewCases(h, e.now, e.w, e.call.id);
    if Step(h, e) != h {
      var t, entry :| Renews(h, Step(h, e), e.call.id, t, entry);
      RenewsKeepsCounts(h, Step(h, e), e.call.id, t, entry);
    }
  }

  lemma StepKeepsCounts(h: Hub, e: Event)
    requires CountsOk(h)
    ensures CountsOk(Step(h, e))
  {
    match e.call
    case DoRenew(_, _, _, _) => RenewKeepsCounts(h, e);
    case DoAutoRenew(_) => AutoRenewKeepsCounts(h, e);
    case _ =>
      OthersChangeNoRenewal(h, e);
      SameRenewalsKeepCounts(h, Step(h, e));
  }

  lemma SameRenewalsKeepCounts(h: Hub, k: Hub)
    requires CountsOk(h) && SameRenewals(h, k)
    ensures CountsOk(k)
  {
    assert forall id :: RenewalHistoryOf(k, id) == RenewalHistoryOf(h, id);
  }

  /** In every run, upgrades and rollbacks included, a token's renewal counter is the length of its history (up to
      saturation) and every entry extends the later of the old expiry and its own time by exactly 30 or 365 days. */
  lemma {:induction false} RenewalCounts(es: seq<Event>)
    ensures CountsOk(Run(es))
  {
    if es != [] {
      RenewalCounts(es[..|es| - 1]);
      StepKeepsCounts(Run(es[..|es| - 1]), es[|es| - 1]);
    }
  }

  // ---------------------------------------------------------------- without upgrades

  ghost predicate NoVersionCalls(es: seq<Event>) {
    forall i :: 0 <= i < |es| ==> !IsVersionCall(es[i].call)
  }

  /** The expiry date with which the run issued token `id`, if it did. */
  function IssuedExpiry(es: seq<Event>, id: TokenId): Option<u64> {
    if es == [] then None
    else
      var init, e := es[..|es| - 1], es[|es| - 1];
      if e.call.DoIssue? && e.call.id == id && id !in Run(init).tokens && id in Run(es).tokens
      then Some(e.call.expiry) else IssuedExpiry(init, id)
  }

  /** `history` leads from `first` to `last` without gaps, always forward. */
  ghost predicate Chain(history: seq<RenewalEntry>, first: u64, last: u64) {
    if history == [] then first == last
    else
      var e := history[|history| - 1];
      e.newExpiry == last && e.oldExpiry < e.newExpiry && Chain(history[..|history| - 1], first, e.oldExpiry)
  }

  /** A chain links neighbouring entries and never moves back. */
  lemma {:induction false} ChainLinks(history: seq<RenewalEntry>, first: u64, last: u64)
    requires Chain(history, first, last)
    ensures first <= last
    ensures history != [] ==> history[0].oldExpiry == first && history[|history| - 1].newExpiry == last
    ensures forall i :: 0 <= i < |history| ==> history[i].oldExpiry < history[i].newExpiry
    ensures forall i :: 0 <= i < |history| - 1 ==> history[i].newExpiry == history[i + 1].oldExpiry
  {
    if history != [] {
      var n := |history| - 1;
      ChainLinks(history[..n], first, history[n].oldExpiry);
      if n > 0 {
        assert history[..n][0] == history[0];
        assert history[..n][n - 1] == history[n - 1];
      }
    }
  }

  ghost predicate GraceOk(t: MembershipToken) {
    && (t.status == GracePeriod <==> t.graceEnteredAt.Some?)
    && (t.status == GracePeriod <==> t.graceExpiresAt.Some?)
    && (t.status == Active || t.status == GracePeriod)
    && (t.status == GracePeriod ==>
          t.graceEnteredAt.value > t.expiryDate && t.graceExpiresAt.value >= t.graceEnteredAt.value)
  }

  ghost predicate FaithfulFor(es: seq<Event>, id: TokenId) {
    var h := Run(es);
    && (id in h.tokens <==> IssuedExpiry(es, id).Some?)
    && (id !in h.tokens ==> id !in h.ren.history)
    && (id in h.tokens ==>
          && Chain(RenewalHistoryOf(h, id), IssuedExpiry(es, id).value, h.tokens[id].expiryDate)
          && GraceOk(h.tokens[id]))
  }

  /** Without upgrades, a call other than the renewals and the grace check keeps expiry, status and stamps. */
  lemma OthersKeepTerms(h: Hub, e: Event, id: TokenId)
    requires !IsVersionCall(e.call) && !e.call.DoRenew? && !e.call.DoAutoRenew? && !e.call.DoGrace? && !e.call.DoIssue?
    ensures var k := Step(h, e);
      && k.ren.history == h.ren.history && (id in k.tokens <==> id in h.tokens)
      && (id in h.tokens ==>
            k.tokens[id] == h.tokens[id].(user := k.tokens[id].user))
  {
    if IsFractionCall(e.call) {
      FractionsKeepTerms(h, e, id);
    }
  }

  lemma FractionsKeepTerms(h: Hub, e: Event, id: TokenId)
    requires IsFractionCall(e.call)
    ensures var k := Step(h, e);
      && k.ren.history == h.ren.history && (id in k.tokens <==> id in h.tokens)
      && (id in h.tokens ==> k.tokens[id] == h.tokens[id].(user := k.tokens[id].user))
  {
  }

  /** How one call outside version control moves token `id` from `h` to `k`. */
  ghost predicate TermsMove(h: Hub, e: Event, k: Hub, id: TokenId) {
    || (id !in h.tokens && id !in k.tokens && (id in k.ren.history ==> id in h.ren.history))
    || (&& RenewalHistoryOf(k, id) == RenewalHistoryOf(h, id) && id in h.tokens && id in k.tokens
        && k.tokens[id].expiryDate == h.tokens[id].expiryDate
        && (GraceOk(h.tokens[id]) ==> GraceOk(k.tokens[id])))
    || (&& e.call.DoIssue? && e.call.id == id && id !in h.tokens && id in k.tokens
        && k.ren.history == h.ren.history && k.tokens[id].expiryDate == e.call.expiry && GraceOk(k.tokens[id]))
    || (&& id in h.tokens && id in k.tokens
        && RenewalHistoryOf(k, id) != []
        && RenewalHistoryOf(k, id)[..|RenewalHistoryOf(k, id)| - 1] == RenewalHistoryOf(h, id)
        && var entry := RenewalHistoryOf(k, id)[|RenewalHistoryOf(k, id)| - 1];
           && entry.oldExpiry == h.tokens[id].expiryDate < entry.newExpiry == k.tokens[id].expiryDate
           && (GraceOk(h.tokens[id]) ==> GraceOk(k.tokens[id])))
  }

  lemma CommitMoves(h: Hub, e: Event, k: Hub, id: TokenId, t: MembershipToken, entry: RenewalEntry, j: TokenId)
    requires Renews(h, k, id, t, entry)
    requires GraceOk(h.tokens[id]) ==> GraceOk(t)
    requires j !in h.tokens ==> j !in h.ren.history
    ensures TermsMove(h, e, k, j)
  {
    if j == id {
      var history := RenewalHistoryOf(h, id);
      assert RenewalHistoryOf(k, id) == history + [entry];
      assert (history + [entry])[..|history|] == history;
    }
  }

  lemma RenewMoves(h: Hub, e: Event, id: TokenId)
    requires e.call.DoRenew? && (id !in h.tokens ==> id !in h.ren.history)
    ensures TermsMove(h, e, Step(h, e), id)
  {
    RenewCases(h, e.now, e.w, e.call.id, e.call.paymentToken, e.call.tierId, e.call.cycle);
    if Step(h, e) != h {
      var t, entry :|
        Renews(h, Step(h, e), e.call.id, t, entry) && t.graceEnteredAt == None && t.graceExpiresAt == None;
      CommitMoves(h, e, Step(h, e), e.call.id, t, entry, id);
    }
  }

  lemma AutoRenewMoves(h: Hub, e: Event, id: TokenId)
    requires e.call.DoAutoRenew? && (id !in h.tokens ==> id !in h.ren.history)
    ensures TermsMove(h, e, Step(h, e), id)
  {
    AutoRenewCases(h, e.now, e.w, e.call.id);
    if Step(h, e) != h {
      var t, entry :| Renews(h, Step(h, e), e.call.id, t, entry) && h.tokens[e.call.id].status == Active
        && t.graceEnteredAt == h.tokens[e.call.id].graceEnteredAt
        && t.graceExpiresAt == h.tokens[e.call.id].graceExpiresAt;
      CommitMoves(h, e, Step(h, e), e.call.id, t, entry, id);
    }
  }

  lemma StepMoves(h: Hub, e: Event, id: TokenId)
    requires !IsVersionCall(e.call) && (id !in h.tokens ==> id !in h.ren.history)
    ensures TermsMove(h, e, Step(h, e), id)
  {
    match e.call
    case DoRenew(_, _, _, _) => RenewMoves(h, e, id);
    case DoAutoRenew(_) => AutoRenewMoves(h, e, id);
    case DoGrace(_) =>
    case DoIssue(_, _, _) =>
    case _ => OthersKeepTerms(h, e, id);
  }

  /** In a run without upgrades and rollbacks the renewal entries of a token lead, strictly forward and without gaps,
      from the expiry date it was issued with to its current one, and it is in the grace period exactly when both
      grace stamps are set. */
  lemma {:induction false} RenewalHistoryIsFaithful(es: seq<Event>, id: TokenId)
    requires NoVersionCalls(es)
    ensures FaithfulFor(es, id)
  {
    if es != [] {
      var init, e := es[..|es| - 1], es[|es| - 1];
      RenewalHistoryIsFaithful(init, id);
      StepMoves(Run(init), e, id);
    }
  }

  /** An upgrade can put a token into the grace period without a stamp. Which upgrades and rollbacks do so, exactly, and
      runs that get there, are in GraceProofs. */
  lemma UpgradeCanBreakGrace()
    ensures var t := MembershipToken(1, 5, Active, 0, 100, None, None, None, 0, None, 0);
      var h := EMPTY_HUB.(admin := Some(9), tokens := map[1 := t],
                          up := EMPTY_HUB.up.(config := Some(UpgradeConfig(true, true, 0))));
      var k := Up.UpgradeToken(h, 10, 9, 1, None, None, None, Some(GracePeriod)).0;
      GraceOk(t) && 1 in k.tokens && k.tokens[1].status == GracePeriod && !GraceOk(k.tokens[1])
  {
  }
}
