/** Versions, snapshots and histories of tokens over every run of the hub. */
module UpgradeProofs {
  import opened Prelude
  import opened HubTypes
  import opened UpgradeSpec
  import opened HubSpec
  import Fr = FractionSpec
  import Re = RenewalSpec

  ghost predicate VersionsOk(h: Hub) {
    && (forall id :: id in h.tokens ==> h.tokens[id].id == id && HistoryOk(h, id))
    && (forall id :: id in h.up.history ==> id in h.tokens)
    && (forall id: TokenId, v: u32 ::
          (id, v) in h.up.snapshots <==> id in h.tokens && v < h.tokens[id].currentVersion)
    && (forall id: TokenId, v: u32 :: (id, v) in h.up.snapshots ==> h.up.snapshots[(id, v)].version == v)
  }

  ghost predicate HistoryOk(h: Hub, id: TokenId)
    requires id in h.tokens
  {
    var history := UpgradeHistoryOf(h, id);
    && |history| == h.tokens[id].currentVersion
    && forall i :: 0 <= i < |history| ==>
         history[i].tokenId == id && history[i].fromVersion == i && history[i].toVersion == i + 1
  }

  /** Nothing version control looks at differs between `h` and `k`, except that `k` may have new tokens at version 0. */
  ghost predicate SameVersions(h: Hub, k: Hub) {
    && k.up.history == h.up.history && k.up.snapshots == h.up.snapshots
    && (forall id :: id in h.tokens ==>
          && id in k.tokens && k.tokens[id].id == h.tokens[id].id
          && k.tokens[id].currentVersion == h.tokens[id].currentVersion)
    && (forall id :: id in k.tokens && id !in h.tokens ==> k.tokens[id].id == id && k.tokens[id].currentVersion == 0)
  }

  lemma SameVersionsKeeps(h: Hub, k: Hub)
    requires VersionsOk(h) && SameVersions(h, k)
    ensures VersionsOk(k)
  {
    forall id | id in k.tokens ensures HistoryOk(k, id) {
      if id in h.tokens {
        assert HistoryOk(h, id);
      }
    }
  }

  lemma AdvanceKeeps(h: Hub, now: u64, id: TokenId, t: MembershipToken, actor: Address,
                     versionLabel: Option<string>, isRollback: bool)
    requires VersionsOk(h) && id in h.tokens && t.id == id
    requires h.tokens[id].currentVersion < U32_MAX && t.currentVersion == h.tokens[id].currentVersion + 1
    ensures VersionsOk(Advance(h, now, id, t, actor, versionLabel, isRollback))
    ensures (id, h.tokens[id].currentVersion) !in h.up.snapshots
  {
    var k := Advance(h, now, id, t, actor, versionLabel, isRollback);
    forall j | j in k.tokens ensures HistoryOk(k, j) {
      assert HistoryOk(h, j);
    }
  }

  lemma RenewalsChangeNoVersion(h: Hub, e: Event)
    requires IsRenewalCall(e.call)
    ensures SameVersions(h, Step(h, e)) && Step(h, e).up == h.up
  {
  }

  lemma FractionsChangeNoVersion(h: Hub, e: Event)
    requires IsFractionCall(e.call)
    ensures SameVersions(h, Step(h, e)) && Step(h, e).up == h.up
  {
  }

  /** A call that is not an upgrade or a rollback changes no version. */
  lemma OthersChangeNoVersion(h: Hub, e: Event)
    requires !IsVersionCall(e.call)
    ensures SameVersions(h, Step(h, e))
    ensures !e.call.DoUpgradeConfig? ==> Step(h, e).up == h.up
  {
    if IsRenewalCall(e.call) {
      RenewalsChangeNoVersion(h, e);
    } else if IsFractionCall(e.call) {
      FractionsChangeNoVersion(h, e);
    }
  }

  lemma {:induction false} BatchKeeps(h: Hub, now: u64, admin: Address, ids: seq<TokenId>, versionLabel: Option<string>,
                                      newExpiry: Option<u64>)
    requires VersionsOk(h)
    ensures VersionsOk(BatchLoop(h, now, admin, ids, versionLabel, newExpiry).0)
  {
    if ids != [] {
      var last := |ids| - 1;
      BatchKeeps(h, now, admin, ids[..last], versionLabel, newExpiry);
      SingleKeeps(BatchLoop(h, now, admin, ids[..last], versionLabel, newExpiry).0, now, admin, ids[last],
                  versionLabel, newExpiry);
    }
  }

  lemma SingleCases(h: Hub, now: u64, admin: Address, id: TokenId, versionLabel: Option<string>, newExpiry: Option<u64>)
    ensures var (k, r) := UpgradeSingle(h, now, admin, id, versionLabel, newExpiry);
      || (k == h && r.Err?)
      || (&& id in h.tokens && h.tokens[id].currentVersion < U32_MAX && r.Ok?
          && k == Advance(h, now, id, Upgraded(h.tokens[id], newExpiry, None, None), admin, versionLabel, false))
  {
  }

  lemma SingleKeeps(h: Hub, now: u64, admin: Address, id: TokenId, versionLabel: Option<string>, newExpiry: Option<u64>)
    requires VersionsOk(h)
    ensures VersionsOk(UpgradeSingle(h, now, admin, id, versionLabel, newExpiry).0)
  {
    SingleCases(h, now, admin, id, versionLabel, newExpiry);
    if id in h.tokens && h.tokens[id].currentVersion < U32_MAX {
      AdvanceKeeps(h, now, id, Upgraded(h.tokens[id], newExpiry, None, None), admin, versionLabel, false);
    }
  }

  /** The token `upgrade_token` stores. */
  function Upgraded(t: MembershipToken, newExpiry: Option<u64>, newTier: Option<string>,
                    newStatus: Option<MembershipStatus>): MembershipToken
    requires t.currentVersion < U32_MAX
  {
    MigrateFields(t, t.currentVersion + 1, newExpiry,
                  if newTier.Some? then Some(Some(newTier.value)) else None, newStatus)
  }

  lemma UpgradeCases(h: Hub, now: u64, caller: Address, id: TokenId, versionLabel: Option<string>,
                     newExpiry: Option<u64>, newTier: Option<string>, newStatus: Option<MembershipStatus>)
    ensures var (k, r) := UpgradeToken(h, now, caller, id, versionLabel, newExpiry, newTier, newStatus);
      || (k == h && r.Err?)
      || (&& id in h.tokens && h.tokens[id].currentVersion < U32_MAX && r.Ok?
          && k == Advance(h, now, id, Upgraded(h.tokens[id], newExpiry, newTier, newStatus), caller, versionLabel,
                          false))
  {
  }

  lemma UpgradeKeeps(h: Hub, now: u64, caller: Address, id: TokenId, versionLabel: Option<string>,
                     newExpiry: Option<u64>, newTier: Option<string>, newStatus: Option<MembershipStatus>)
    requires VersionsOk(h)
    ensures VersionsOk(UpgradeToken(h, now, caller, id, versionLabel, newExpiry, newTier, newStatus).0)
  {
    UpgradeCases(h, now, caller, id, versionLabel, newExpiry, newTier, newStatus);
    if id in h.tokens && h.tokens[id].currentVersion < U32_MAX {
      AdvanceKeeps(h, now, id, Upgraded(h.tokens[id], newExpiry, newTier, newStatus), caller, versionLabel, false);
    }
  }

  lemma RollbackKeeps(h: Hub, now: u64, admin: Address, id: TokenId, target: u32)
    requires VersionsOk(h)
    ensures VersionsOk(Rollback(h, now, admin, id, target).0)
  {
    if id in h.tokens && (id, target) in h.up.snapshots && h.tokens[id].currentVersion < U32_MAX {
      var t := h.tokens[id];
      AdvanceKeeps(h, now, id, ApplySnapshot(t, h.up.snapshots[(id, target)], t.currentVersion + 1), admin,
                   ROLLBACK, true);
    }
  }

  lemma StepKeeps(h: Hub, e: Event)
    requires VersionsOk(h)
    ensures VersionsOk(Step(h, e))
  {
    match e.call
    case DoUpgrade(a, id, l, x, t, s) => UpgradeKeeps(h, e.now, a, id, l, x, t, s);
    case DoBatch(a, ids, l, x) => BatchKeeps(h, e.now, a, ids, l, x);
    case DoRollback(a, id, v) => RollbackKeeps(h, e.now, a, id, v);
    case _ =>
      OthersChangeNoVersion(h, e);
      SameVersionsKeeps(h, Step(h, e));
  }

  lemma {:induction false} RunKeeps(es: seq<Event>)
    ensures VersionsOk(Run(es))
  {
    if es != [] {
      RunKeeps(es[..|es| - 1]);
      StepKeeps(Run(es[..|es| - 1]), es[|es| - 1]);
    }
  }

  /** After every run each token's version is the length of its history, record `i` leads from version `i` to
      `i + 1`, and snapshots exist for exactly the versions it has left behind. */
  lemma UpgradeLedger(es: seq<Event>)
    ensures var h := Run(es);
      && (forall id :: id in h.tokens ==>
            && |UpgradeHistoryOf(h, id)| == h.tokens[id].currentVersion
            && (forall i :: 0 <= i < |UpgradeHistoryOf(h, id)| ==>
                  && UpgradeHistoryOf(h, id)[i].tokenId == id
                  && UpgradeHistoryOf(h, id)[i].fromVersion == i && UpgradeHistoryOf(h, id)[i].toVersion == i + 1))
      && (forall id: TokenId, v: u32 ::
            (id, v) in h.up.snapshots <==> id in h.tokens && v < h.tokens[id].currentVersion)
  {
    RunKeeps(es);
    forall id | id in Run(es).tokens ensures HistoryOk(Run(es), id) {
    }
  }

  // ---------------------------------------------------------------- written once

  /** From `h` to `k` snapshots and history records are only added. */
  ghost predicate OnlyAdds(h: Hub, k: Hub) {
    && (forall key :: key in h.up.snapshots ==> key in k.up.snapshots && k.up.snapshots[key] == h.up.snapshots[key])
    && (forall id :: UpgradeHistoryOf(h, id) <= UpgradeHistoryOf(k, id))
    && (forall id :: id in h.tokens ==> id in k.tokens)
  }

  lemma AdvanceOnlyAdds(h: Hub, now: u64, id: TokenId, t: MembershipToken, actor: Address,
                        versionLabel: Option<string>, isRollback: bool)
    requires id in h.tokens && (id, h.tokens[id].currentVersion) !in h.up.snapshots
    ensures OnlyAdds(h, Advance(h, now, id, t, actor, versionLabel, isRollback))
  {
  }

  lemma {:induction false} BatchOnlyAdds(h: Hub, now: u64, admin: Address, ids: seq<TokenId>,
                                         versionLabel: Option<string>, newExpiry: Option<u64>)
    requires VersionsOk(h)
    ensures OnlyAdds(h, BatchLoop(h, now, admin, ids, versionLabel, newExpiry).0)
  {
    if ids != [] {
      var last := |ids| - 1;
      BatchOnlyAdds(h, now, admin, ids[..last], versionLabel, newExpiry);
      BatchKeeps(h, now, admin, ids[..last], versionLabel, newExpiry);
      var h1 := BatchLoop(h, now, admin, ids[..last], versionLabel, newExpiry).0;
      var h2 := UpgradeSingle(h1, now, admin, ids[last], versionLabel, newExpiry).0;
      SingleOnlyAdds(h1, now, admin, ids[last], versionLabel, newExpiry);
      OnlyAddsTransitive(h, h1, h2);
    }
  }

  lemma SingleOnlyAdds(h: Hub, now: u64, admin: Address, id: TokenId, versionLabel: Option<string>,
                       newExpiry: Option<u64>)
    requires VersionsOk(h)
    ensures OnlyAdds(h, UpgradeSingle(h, now, admin, id, versionLabel, newExpiry).0)
  {
    SingleCases(h, now, admin, id, versionLabel, newExpiry);
    if id in h.tokens && h.tokens[id].currentVersion < U32_MAX {
      AdvanceOnlyAdds(h, now, id, Upgraded(h.tokens[id], newExpiry, None, None), admin, versionLabel, false);
    }
  }

  lemma OnlyAddsTransitive(a: Hub, b: Hub, c: Hub)
    requires OnlyAdds(a, b) && OnlyAdds(b, c)
    ensures OnlyAdds(a, c)
  {
    forall id ensures UpgradeHistoryOf(a, id) <= UpgradeHistoryOf(c, id) {
      assert UpgradeHistoryOf(a, id) <= UpgradeHistoryOf(b, id) <= UpgradeHistoryOf(c, id);
    }
  }

  lemma StepOnlyAdds(h: Hub, e: Event)
    requires VersionsOk(h)
    ensures OnlyAdds(h, Step(h, e))
  {
    match e.call
    case DoUpgrade(a, id, l, x, t, s) =>
    case DoBatch(a, ids, l, x) => BatchOnlyAdds(h, e.now, a, ids, l, x);
    case DoRollback(a, id, v) =>
    case _ => OthersChangeNoVersion(h, e);
  }

  lemma Prefixes(es: seq<Event>, k: nat)
    requires es != [] && k <= |es| - 1
    ensures es[..|es| - 1][..k] == es[..k]
  {
  }

  /** A stored snapshot is never overwritten or removed, and histories only grow at the end. */
  lemma {:induction false} SnapshotsAreWrittenOnce(es: seq<Event>, k: nat)
    requires k <= |es|
    ensures OnlyAdds(Run(es[..k]), Run(es))
  {
    if k == |es| {
      assert es[..k] == es;
    } else {
      var init := es[..|es| - 1];
      Prefixes(es, k);
      SnapshotsAreWrittenOnce(init, k);
      RunKeeps(init);
      StepOnlyAdds(Run(init), es[|es| - 1]);
      OnlyAddsTransitive(Run(es[..k]), Run(init), Run(es));
    }
  }

  // ---------------------------------------------------------------- batch upgrade

  /** The administrator upgrading the ids one after the other, expiry only, ignoring failures. */
  function OneByOne(h: Hub, now: u64, admin: Address, ids: seq<TokenId>, versionLabel: Option<string>,
                    newExpiry: Option<u64>): Hub {
    if ids == [] then h
    else
      UpgradeToken(OneByOne(h, now, admin, ids[..|ids| - 1], versionLabel, newExpiry), now, admin, ids[|ids| - 1],
                   versionLabel, newExpiry, None, None).0
  }

  predicate BatchAllowed(h: Hub, admin: Address) {
    h.admin == Some(admin) && h.up.config.Some? && h.up.config.value.upgradesEnabled
  }

  lemma SingleIsAdminUpgrade(h: Hub, now: u64, admin: Address, id: TokenId, versionLabel: Option<string>,
                             newExpiry: Option<u64>)
    requires BatchAllowed(h, admin)
    ensures UpgradeSingle(h, now, admin, id, versionLabel, newExpiry)
         == UpgradeToken(h, now, admin, id, versionLabel, newExpiry, None, None)
    ensures BatchAllowed(UpgradeSingle(h, now, admin, id, versionLabel, newExpiry).0, admin)
  {
  }

  lemma {:induction false} LoopIsOneByOne(h: Hub, now: u64, admin: Address, ids: seq<TokenId>,
                                          versionLabel: Option<string>, newExpiry: Option<u64>)
    requires BatchAllowed(h, admin)
    ensures var (k, rs) := BatchLoop(h, now, admin, ids, versionLabel, newExpiry);
      && k == OneByOne(h, now, admin, ids, versionLabel, newExpiry)
      && BatchAllowed(k, admin)
      && |rs| == |ids|
      && (forall i :: 0 <= i < |ids| ==> Reports(h, now, admin, ids, versionLabel, newExpiry, i, rs[i]))
  {
    if ids != [] {
      var last := |ids| - 1;
      var init := ids[..last];
      LoopIsOneByOne(h, now, admin, init, versionLabel, newExpiry);
      var h1 := BatchLoop(h, now, admin, init, versionLabel, newExpiry).0;
      SingleIsAdminUpgrade(h1, now, admin, ids[last], versionLabel, newExpiry);
      forall i | 0 <= i < last
        ensures Reports(h, now, admin, ids, versionLabel, newExpiry, i,
                        BatchLoop(h, now, admin, ids, versionLabel, newExpiry).1[i])
      {
        assert init[..i] == ids[..i];
        assert Reports(h, now, admin, init, versionLabel, newExpiry, i,
                       BatchLoop(h, now, admin, init, versionLabel, newExpiry).1[i]);
      }
    }
  }

  /** `res` reports how upgrading position `i` alone goes once the earlier positions are done. */
  ghost predicate Reports(h: Hub, now: u64, admin: Address, ids: seq<TokenId>, versionLabel: Option<string>,
                          newExpiry: Option<u64>, i: nat, res: BatchUpgradeResult)
    requires i < |ids|
  {
    var before := OneByOne(h, now, admin, ids[..i], versionLabel, newExpiry);
    var r := UpgradeToken(before, now, admin, ids[i], versionLabel, newExpiry, None, None).1;
    res == BatchUpgradeResult(ids[i], r.Ok?, if r.Ok? then Some(r.value) else None)
  }

  /** The batch refines the sequential form: a permitted batch never fails as a whole, leaves exactly what upgrading
      the ids one by one and skipping failures leaves, and reports each position's outcome; a batch that is not
      permitted changes nothing. */
  lemma BatchRefinesSequential(h: Hub, now: u64, admin: Address, ids: seq<TokenId>, versionLabel: Option<string>,
                               newExpiry: Option<u64>)
    ensures var (k, r) := BatchUpgrade(h, now, admin, ids, versionLabel, newExpiry);
      && (r.Ok? <==> BatchAllowed(h, admin))
      && (r.Err? ==> k == h)
      && (r.Ok? ==>
            && k == OneByOne(h, now, admin, ids, versionLabel, newExpiry)
            && |r.value| == |ids|
            && forall i :: 0 <= i < |ids| ==> Reports(h, now, admin, ids, versionLabel, newExpiry, i, r.value[i]))
  {
    if BatchAllowed(h, admin) {
      LoopIsOneByOne(h, now, admin, ids, versionLabel, newExpiry);
    }
  }

  /** Repeated ids are upgraded once per occurrence, until the version counter is exhausted and further occurrences
      fail; tokens not listed are untouched. */
  lemma {:induction false} BatchCountsOccurrences(h: Hub, now: u64, admin: Address, ids: seq<TokenId>,
                                                  versionLabel: Option<string>, newExpiry: Option<u64>, id: TokenId)
    requires BatchAllowed(h, admin) && id in h.tokens
    ensures var k := BatchUpgrade(h, now, admin, ids, versionLabel, newExpiry).0;
      && id in k.tokens
      && k.tokens[id].currentVersion == Min(h.tokens[id].currentVersion + multiset(ids)[id], U32_MAX)
      && (id !in ids ==> k.tokens[id] == h.tokens[id])
  {
    if ids != [] {
      var last := |ids| - 1;
      assert ids == ids[..last] + [ids[last]];
      BatchCountsOccurrences(h, now, admin, ids[..last], versionLabel, newExpiry, id);
    }
  }

  // ---------------------------------------------------------------- snapshots tell the truth

  ghost predicate BatchFree(es: seq<Event>) {
    forall i :: 0 <= i < |es| ==> !es[i].call.DoBatch?
  }

  function SingleEvents(e: Event, ids: seq<TokenId>): seq<Event>
    requires e.call.DoBatch?
  {
    seq(|ids|, i requires 0 <= i < |ids| =>
      e.(call := DoUpgrade(e.call.caller, ids[i], e.call.versionLabel, e.call.newExpiry, None, None)))
  }

  /** The run with every permitted batch written out as single upgrades and every refused one left out. */
  function Expand(es: seq<Event>): seq<Event> {
    if es == [] then []
    else
      var init, e := es[..|es| - 1], es[|es| - 1];
      Expand(init) +
      if !e.call.DoBatch? then [e]
      else if BatchAllowed(Run(init), e.call.caller) then SingleEvents(e, e.call.ids)
      else []
  }

  lemma {:induction false} RunSingles(before: seq<Event>, e: Event, ids: seq<TokenId>)
    requires e.call.DoBatch?
    ensures Run(before + SingleEvents(e, ids))
         == OneByOne(Run(before), e.now, e.call.caller, ids, e.call.versionLabel, e.call.newExpiry)
  {
    if ids == [] {
      assert before + SingleEvents(e, ids) == before;
    } else {
      var init := ids[..|ids| - 1];
      RunSingles(before, e, init);
      var all := before + SingleEvents(e, ids);
      assert all[..|all| - 1] == before + SingleEvents(e, init);
    }
  }

  /** Writing the batches out changes nothing, so what holds of batch-free runs holds of all. */
  lemma {:induction false} ExpansionIsFaithful(es: seq<Event>)
    ensures Run(Expand(es)) == Run(es) && BatchFree(Expand(es))
  {
    if es != [] {
      var init, e := es[..|es| - 1], es[|es| - 1];
      ExpansionIsFaithful(init);
      if !e.call.DoBatch? {
        RunSnoc(Expand(init), e);
      } else {
        BatchStep(Run(init), e);
        if BatchAllowed(Run(init), e.call.caller) {
          RunSingles(Expand(init), e, e.call.ids);
        } else {
          assert Expand(init) + [] == Expand(init);
        }
      }
    }
  }

  lemma RunSnoc(es: seq<Event>, e: Event)
    ensures Run(es + [e]) == Step(Run(es), e)
  {
    assert (es + [e])[..|es|] == es;
  }

  lemma BatchStep(h: Hub, e: Event)
    requires e.call.DoBatch?
    ensures Step(h, e) == if BatchAllowed(h, e.call.caller)
                          then OneByOne(h, e.now, e.call.caller, e.call.ids, e.call.versionLabel, e.call.newExpiry)
                          else h
  {
    BatchRefinesSequential(h, e.now, e.call.caller, e.call.ids, e.call.versionLabel, e.call.newExpiry);
  }

  /** What a version change can alter and a rollback restores. */
  datatype Terms = Terms(expiryDate: u64, status: MembershipStatus, tierId: Option<string>)

  function TermsOf(t: MembershipToken): Terms {
    Terms(t.expiryDate, t.status, t.tierId)
  }

  function SnapshotTerms(s: Snapshot): Terms {
    Terms(s.expiryDate, s.status, s.tierId)
  }

  /** Between `h` and `k` token `id` leaves version `v`, holding the terms of snapshot `s` up to that moment. */
  ghost predicate Leaves(h: Hub, k: Hub, id: TokenId, v: u32, s: Snapshot) {
    && id in h.tokens && id in k.tokens
    && h.tokens[id].currentVersion == v && k.tokens[id].currentVersion == v + 1
    && SnapshotTerms(s) == TermsOf(h.tokens[id])
  }

  lemma StepSnapshots(h: Hub, e: Event, id: TokenId, v: u32)
    requires VersionsOk(h) && !e.call.DoBatch? && (id, v) in Step(h, e).up.snapshots
    ensures (id, v) in h.up.snapshots || Leaves(h, Step(h, e), id, v, Step(h, e).up.snapshots[(id, v)])
  {
    if !IsVersionCall(e.call) {
      OthersChangeNoVersion(h, e);
    }
  }

  lemma {:induction false} SnapshotsOfBatchFreeRuns(es: seq<Event>, id: TokenId, v: u32)
    requires BatchFree(es) && (id, v) in Run(es).up.snapshots
    ensures exists k :: 0 <= k < |es| && Leaves(Run(es[..k]), Run(es[..k + 1]), id, v, Run(es).up.snapshots[(id, v)])
  {
    if es != [] {
      var n := |es| - 1;
      var init := es[..n];
      RunKeeps(init);
      StepSnapshots(Run(init), es[n], id, v);
      if (id, v) in Run(init).up.snapshots {
        SnapshotsOfBatchFreeRuns(init, id, v);
        var k :| 0 <= k < |init| && Leaves(Run(init[..k]), Run(init[..k + 1]), id, v, Run(init).up.snapshots[(id, v)]);
        Prefixes(es, k);
        Prefixes(es, k + 1);
        SnapshotsAreWrittenOnce(es, n);
        assert Leaves(Run(es[..k]), Run(es[..k + 1]), id, v, Run(es).up.snapshots[(id, v)]);
      } else {
        assert es[..n + 1] == es;
        assert Leaves(Run(es[..n]), Run(es[..n + 1]), id, v, Run(es).up.snapshots[(id, v)]);
      }
    }
  }

  /** Every snapshot holds the expiry, status and tier the token had at the moment of the run, batches written out, at
      which it left that version, whatever renewals, transfers or grace periods came in between. */
  lemma SnapshotsTellTheTruth(es: seq<Event>, id: TokenId, v: u32)
    requires (id, v) in Run(es).up.snapshots
    ensures var xs := Expand(es);
      exists k :: 0 <= k < |xs| && Leaves(Run(xs[..k]), Run(xs[..k + 1]), id, v, Run(es).up.snapshots[(id, v)])
  {
    ExpansionIsFaithful(es);
    SnapshotsOfBatchFreeRuns(Expand(es), id, v);
  }

  // ---------------------------------------------------------------- rollback

  predicate RollbackAllowed(h: Hub, admin: Address, id: TokenId) {
    && h.admin == Some(admin) && h.up.config.Some?
    && (h.up.config.value.maxRollbacks > 0 ==> CountRollbacks(UpgradeHistoryOf(h, id)) < h.up.config.value.maxRollbacks)
  }

  /** Only what version control may change differs. */
  predicate SameIdentity(t: MembershipToken, u: MembershipToken) {
    u == t.(expiryDate := u.expiryDate, status := u.status, tierId := u.tierId, currentVersion := u.currentVersion)
  }

  /** For an existing token under the rollback limit, rolling back to `v` succeeds exactly when `v` is an earlier
      version and the version can still grow; it then restores the recorded terms under a new version number and
      leaves owner, issue date, grace stamps and renewal counters alone. */
  lemma RollbackSucceedsExactly(es: seq<Event>, now: u64, admin: Address, id: TokenId, v: u32)
    requires RollbackAllowed(Run(es), admin, id) && id in Run(es).tokens
    ensures var h := Run(es);
      var t := h.tokens[id];
      var (k, r) := Rollback(h, now, admin, id, v);
      && (r.Ok? <==> v < t.currentVersion < U32_MAX)
      && (r.Ok? ==>
            && (id, v) in h.up.snapshots && id in k.tokens
            && TermsOf(k.tokens[id]) == SnapshotTerms(h.up.snapshots[(id, v)])
            && SameIdentity(t, k.tokens[id])
            && k.tokens[id].currentVersion == t.currentVersion + 1 == r.value)
      && (r.Err? ==> k == h)
  {
    RunKeeps(es);
  }

  /** Token `id` of `h` has the terms with which it left version `v` in step `k` of the run. */
  ghost predicate Restores(h: Hub, es: seq<Event>, k: nat, id: TokenId, v: u32)
    requires k < |es|
  {
    var before, after := Run(es[..k]).tokens, Run(es[..k + 1]).tokens;
    && id in before && id in after && id in h.tokens
    && before[id].currentVersion == v && after[id].currentVersion == v + 1
    && TermsOf(h.tokens[id]) == TermsOf(before[id])
  }

  /** A rollback brings back the terms the token had when it left version `v` in the run's own past. */
  lemma RollbackRestoresThePast(es: seq<Event>, now: u64, admin: Address, id: TokenId, v: u32)
    requires Rollback(Run(es), now, admin, id, v).1.Ok?
    ensures var xs := Expand(es);
      exists k :: 0 <= k < |xs| && Restores(Rollback(Run(es), now, admin, id, v).0, xs, k, id, v)
  {
    RollbackApplies(Run(es), now, admin, id, v);
    SnapshotsTellTheTruth(es, id, v);
    var xs := Expand(es);
    var k :| 0 <= k < |xs| && Leaves(Run(xs[..k]), Run(xs[..k + 1]), id, v, Run(es).up.snapshots[(id, v)]);
    assert Restores(Rollback(Run(es), now, admin, id, v).0, xs, k, id, v);
  }

  lemma RollbackApplies(h: Hub, now: u64, admin: Address, id: TokenId, v: u32)
    requires Rollback(h, now, admin, id, v).1.Ok?
    ensures id in h.tokens && (id, v) in h.up.snapshots && id in Rollback(h, now, admin, id, v).0.tokens
    ensures TermsOf(Rollback(h, now, admin, id, v).0.tokens[id]) == SnapshotTerms(h.up.snapshots[(id, v)])
  {
  }

  /** Upgrading and rolling back to the version left is the identity on the terms; the rollback cannot fail unless
      the limit is reached or the version counter is exhausted. */
  lemma UpgradeThenRollback(h: Hub, now: u64, later: u64, caller: Address, admin: Address, id: TokenId,
                            versionLabel: Option<string>, newExpiry: Option<u64>, newTier: Option<string>,
                            newStatus: Option<MembershipStatus>)
    requires UpgradeToken(h, now, caller, id, versionLabel, newExpiry, newTier, newStatus).1.Ok?
    ensures var h1 := UpgradeToken(h, now, caller, id, versionLabel, newExpiry, newTier, newStatus).0;
      var (h2, r) := Rollback(h1, later, admin, id, h.tokens[id].currentVersion);
      && (r.Ok? <==> RollbackAllowed(h1, admin, id) && h.tokens[id].currentVersion + 1 < U32_MAX)
      && (r.Ok? ==> id in h2.tokens && TermsOf(h2.tokens[id]) == TermsOf(h.tokens[id])
                    && SameIdentity(h.tokens[id], h2.tokens[id])
                    && h2.tokens[id].currentVersion == h.tokens[id].currentVersion + 2)
  {
  }

  /** Rolling back, and then rolling back to the version before that, undoes the first rollback. */
  lemma RollbackThenRollback(h: Hub, now: u64, later: u64, admin: Address, id: TokenId, v: u32)
    requires Rollback(h, now, admin, id, v).1.Ok?
    ensures var h1 := Rollback(h, now, admin, id, v).0;
      var (h2, r) := Rollback(h1, later, admin, id, h.tokens[id].currentVersion);
      && (r.Ok? <==> RollbackAllowed(h1, admin, id) && h.tokens[id].currentVersion + 1 < U32_MAX)
      && (r.Ok? ==> id in h2.tokens && TermsOf(h2.tokens[id]) == TermsOf(h.tokens[id])
                    && SameIdentity(h.tokens[id], h2.tokens[id])
                    && h2.tokens[id].currentVersion == h.tokens[id].currentVersion + 2)
  {
  }

  // ---------------------------------------------------------------- the rollback limit

  ghost predicate LimitsWithin(es: seq<Event>, m: u32) {
    forall i :: 0 <= i < |es| && es[i].call.DoUpgradeConfig? ==> 1 <= es[i].call.upgradeConfig.maxRollbacks <= m
  }

  ghost predicate WithinLimit(h: Hub, m: u32) {
    && (h.up.config.Some? ==> 1 <= h.up.config.value.maxRollbacks <= m)
    && (forall id :: CountRollbacks(UpgradeHistoryOf(h, id)) <= m)
  }

  lemma CountSnoc(history: seq<UpgradeRecord>, r: UpgradeRecord)
    ensures CountRollbacks(history + [r]) == CountRollbacks(history) + if r.isRollback then 1 else 0
  {
    assert (history + [r])[..|history|] == history;
  }

  lemma AdvanceCounts(h: Hub, now: u64, id: TokenId, t: MembershipToken, actor: Address,
                      versionLabel: Option<string>, isRollback: bool)
    requires id in h.tokens
    ensures var k := Advance(h, now, id, t, actor, versionLabel, isRollback);
      && (forall j :: j != id ==> UpgradeHistoryOf(k, j) == UpgradeHistoryOf(h, j))
      && CountRollbacks(UpgradeHistoryOf(k, id))
         == CountRollbacks(UpgradeHistoryOf(h, id)) + (if isRollback then 1 else 0)
      && k.up.config == h.up.config
  {
    var history := UpgradeHistoryOf(h, id);
    var record := UpgradeRecord(id, h.tokens[id].currentVersion, t.currentVersion, actor, now, versionLabel,
                                isRollback);
    assert UpgradeHistoryOf(Advance(h, now, id, t, actor, versionLabel, isRollback), id) == history + [record];
    CountSnoc(history, record);
  }

  lemma {:induction false} BatchWithinLimit(h: Hub, now: u64, admin: Address, ids: seq<TokenId>,
                                            versionLabel: Option<string>, newExpiry: Option<u64>, m: u32)
    requires WithinLimit(h, m)
    ensures WithinLimit(BatchLoop(h, now, admin, ids, versionLabel, newExpiry).0, m)
  {
    if ids != [] {
      var last := |ids| - 1;
      BatchWithinLimit(h, now, admin, ids[..last], versionLabel, newExpiry, m);
      var h1 := BatchLoop(h, now, admin, ids[..last], versionLabel, newExpiry).0;
      SingleCases(h1, now, admin, ids[last], versionLabel, newExpiry);
      if ids[last] in h1.tokens && h1.tokens[ids[last]].currentVersion < U32_MAX {
        var next := Upgraded(h1.tokens[ids[last]], newExpiry, None, None);
        AdvanceCounts(h1, now, ids[last], next, admin, versionLabel, false);
      }
    }
  }

  lemma StepWithinLimit(h: Hub, e: Event, m: u32)
    requires WithinLimit(h, m)
    requires e.call.DoUpgradeConfig? ==> 1 <= e.call.upgradeConfig.maxRollbacks <= m
    ensures WithinLimit(Step(h, e), m)
  {
    match e.call
    case DoUpgrade(a, id, l, x, t, s) =>
      UpgradeCases(h, e.now, a, id, l, x, t, s);
      if id in h.tokens && h.tokens[id].currentVersion < U32_MAX {
        AdvanceCounts(h, e.now, id, Upgraded(h.tokens[id], x, t, s), a, l, false);
      }
    case DoBatch(a, ids, l, x) => BatchWithinLimit(h, e.now, a, ids, l, x, m);
    case DoRollback(a, id, v) =>
      if Rollback(h, e.now, a, id, v).1.Ok? {
        var next := ApplySnapshot(h.tokens[id], h.up.snapshots[(id, v)], h.tokens[id].currentVersion + 1);
        AdvanceCounts(h, e.now, id, next, a, ROLLBACK, true);
      }
    case _ =>
      OthersChangeNoVersion(h, e);
      assert forall id :: UpgradeHistoryOf(Step(h, e), id) == UpgradeHistoryOf(h, id);
  }

  /** While every configured limit is positive and at most `m`, no token ever records more than `m` rollbacks. */
  lemma {:induction false} RollbacksStayWithinTheLimit(es: seq<Event>, m: u32)
    requires LimitsWithin(es, m)
    ensures WithinLimit(Run(es), m)
  {
    if es != [] {
      RollbacksStayWithinTheLimit(es[..|es| - 1], m);
      StepWithinLimit(Run(es[..|es| - 1]), es[|es| - 1], m);
    } else {
      forall id: TokenId ensures CountRollbacks(UpgradeHistoryOf(EMPTY_HUB, id)) == 0 {
      }
    }
  }
}
