/** How a proposal leaves the storage, what a rejection needs, and how many proposals can be open. */
module GovernanceLifecycle {
  import opened Prelude
  import opened GovernanceTypes
  import opened GovernanceSpec
  import opened GovernanceLedger
  import opened GovernanceSafety
  import opened GovernanceEntryPoints

  // ---------------------------------------------------------------- rejections are admin votes

  /** The call of `e` is `a`'s rejection of `id`, cast while `a` is one of the configured admins. */
  ghost predicate RejectsFor(s: State, e: Event, id: u64, a: Address) {
    && s.rules.multisig.Some? && a in s.rules.multisig.value.admins
    && e.call.Reject? && e.call.caller == a && e.call.id == id
  }

  ghost predicate RejectionsAccounted(s: State, e: Event, c: Book, id: u64) {
    id in c.proposals ==>
      forall a :: a in c.proposals[id].rejections ==>
        (id in s.book.proposals && a in s.book.proposals[id].rejections) || RejectsFor(s, e, id, a)
  }

  lemma VotingAccountsRejections(s: State, e: Event, id: u64)
    requires StateOk(s) && (e.call.Create? || e.call.Approve? || e.call.Execute?)
    ensures RejectionsAccounted(s, e, Step(s, e).0.book, id)
  {
    match e.call
    case Create(a, action) =>
      CreateCases(s, e.now, a, action, e.balance);
      ExecuteCases(WithNew(s, e.now, a, action), e.now, s.book.counter, e.balance);
    case Approve(a, v) =>
      ApproveCases(s, e.now, a, v, e.balance);
      if v in s.book.proposals {
        ExecuteCases(WithApproval(s, a, v), e.now, v, e.balance);
      }
    case Execute(v) => ExecuteCases(s, e.now, v, e.balance);
  }

  lemma RejectingAccountsRejections(s: State, e: Event, id: u64)
    requires StateOk(s) && e.call.Reject?
    ensures RejectionsAccounted(s, e, Step(s, e).0.book, id)
  {
    RejectCases(s, e.now, e.call.caller, e.call.id);
  }

  lemma StepAccountsRejections(s: State, e: Event, id: u64)
    requires StateOk(s)
    ensures RejectionsAccounted(s, e, Step(s, e).0.book, id)
  {
    if e.call.Create? || e.call.Approve? || e.call.Execute? {
      VotingAccountsRejections(s, e, id);
    } else if e.call.Reject? {
      RejectingAccountsRejections(s, e, id);
    } else if e.call.Cleanup? {
      ExpireAllKeeps(s.book, e.now, s.book.pending);
    }
  }

  ghost predicate RejectedInRun(es: seq<Event>, id: u64, a: Address) {
    exists k :: 0 <= k < |es| && RejectsFor(Run(es[..k]), es[k], id, a)
  }

  /** Every rejection a stored proposal carries was cast, in the run, by an admin of that moment. */
  lemma {:induction false} RejectionsAreAdminVotes(es: seq<Event>, id: u64, a: Address)
    requires id in Run(es).book.proposals && a in Run(es).book.proposals[id].rejections
    ensures RejectedInRun(es, id, a)
  {
    if es != [] {
      var n := |es| - 1;
      var init := es[..n];
      RunKeeps(init);
      StepAccountsRejections(Run(init), es[n], id);
      if !RejectsFor(Run(es[..n]), es[n], id, a) {
        RejectionsAreAdminVotes(init, id, a);
        var k :| 0 <= k < |init| && RejectsFor(Run(init[..k]), init[k], id, a);
        Prefixes(es, k);
        assert RejectsFor(Run(es[..k]), es[k], id, a);
      }
    }
  }

  // ---------------------------------------------------------------- leaving the storage

  ghost predicate Removed(s: State, t: State, id: u64) {
    id in s.book.proposals && id !in t.book.proposals
  }

  /** The rejection in `e` brings the rejections of `id` above a third of the admins, and above one. */
  ghost predicate Outvotes(s: State, e: Event, id: u64)
    requires id in s.book.proposals
  {
    && e.call.Reject? && RejectsFor(s, e, id, e.call.caller) && !HasVoted(s.book.proposals[id], e.call.caller)
    && |s.book.proposals[id].rejections| + 1 > Max(|s.rules.multisig.value.admins| / 3, 1)
  }

  ghost predicate MayLeave(s: State, e: Event, id: u64)
    requires id in s.book.proposals
  {
    var p := s.book.proposals[id];
    && !p.executed
    && (e.now > p.expiry || (e.call.Cancel? && e.call.id == id && e.call.caller == p.proposer) || Outvotes(s, e, id))
  }

  lemma RejectRemoves(s: State, e: Event, id: u64)
    requires StateOk(s) && e.call.Reject? && Removed(s, Step(s, e).0, id)
    ensures MayLeave(s, e, id)
  {
  }

  lemma CleanupRemovesExactly(s: State, e: Event, id: u64)
    requires StateOk(s) && e.call.Cleanup? && id in s.book.proposals
    ensures id !in Step(s, e).0.book.proposals <==> IsExpired(s.book, e.now, id)
  {
    CleanupCleans(s, e.now);
  }

  lemma VotingRemoves(s: State, e: Event, id: u64)
    requires StateOk(s) && (e.call.Create? || e.call.Approve? || e.call.Execute?) && Removed(s, Step(s, e).0, id)
    ensures MayLeave(s, e, id) && !Step(s, e).1.Ok?
  {
    match e.call
    case Create(a, action) =>
      CreateCases(s, e.now, a, action, e.balance);
      ExecuteCases(WithNew(s, e.now, a, action), e.now, s.book.counter, e.balance);
    case Approve(a, v) => ApproveRemoves(s, e, id);
    case Execute(v) => ExecuteRemoves(s, e.now, v, e.balance, id);
  }

  lemma ExecuteRemoves(s: State, now: u64, v: u64, balance: Option<i128>, id: u64)
    requires Removed(s, ExecuteProposal(s, now, v, balance).0, id)
    ensures v == id && !s.book.proposals[id].executed && now > s.book.proposals[id].expiry
    ensures !ExecuteProposal(s, now, v, balance).1.Ok?
  {
  }

  lemma ApproveRemoves(s: State, e: Event, id: u64)
    requires e.call.Approve? && Removed(s, Step(s, e).0, id)
    ensures e.call.id == id && !s.book.proposals[id].executed && e.now > s.book.proposals[id].expiry
    ensures !Step(s, e).1.Ok?
  {
    var a, v := e.call.caller, e.call.id;
    if v in s.book.proposals && e.now <= s.book.proposals[v].expiry {
      ExecuteCasesInTime(WithApproval(s, a, v), e.now, v, e.balance);
    }
  }

  lemma ExecuteCasesInTime(s: State, now: u64, id: u64, balance: Option<i128>)
    requires id in s.book.proposals && now <= s.book.proposals[id].expiry
    ensures ExecuteProposal(s, now, id, balance).0.book.proposals.Keys == s.book.proposals.Keys
  {
  }

  lemma StepRemoves(s: State, e: Event, id: u64)
    requires StateOk(s) && Removed(s, Step(s, e).0, id)
    ensures MayLeave(s, e, id)
  {
    if e.call.Create? || e.call.Approve? || e.call.Execute? {
      VotingRemoves(s, e, id);
    } else if e.call.Reject? {
      RejectRemoves(s, e, id);
    } else if e.call.Cleanup? {
      CleanupRemovesExactly(s, e, id);
    }
  }

  /** A proposal leaves the storage only unexecuted, and only because it has expired, because its own proposer cancels
      it, or because more than a third of the admins of the moment, and more than one, have rejected it: pairwise
      distinct accounts, none of which approved it, each an admin when it voted. */
  lemma ProposalsLeaveOnlyForCause(es: seq<Event>, e: Event, id: u64)
    requires Removed(Run(es), Step(Run(es), e).0, id)
    ensures MayLeave(Run(es), e, id)
    ensures Outvotes(Run(es), e, id) ==>
      var p := Run(es).book.proposals[id];
      var rejections := p.rejections + [e.call.caller];
      && Distinct(rejections)
      && |rejections| > Max(|Run(es).rules.multisig.value.admins| / 3, 1)
      && (forall a :: a in rejections ==> a !in p.approvals && RejectedInRun(es + [e], id, a))
  {
    RunKeeps(es);
    StepRemoves(Run(es), e, id);
    if Outvotes(Run(es), e, id) {
      var p := Run(es).book.proposals[id];
      DistinctSnoc(p.rejections, e.call.caller);
      forall a | a in p.rejections + [e.call.caller] ensures RejectedInRun(es + [e], id, a) {
        if a in p.rejections {
          RejectionsAreAdminVotes(es, id, a);
          var k :| 0 <= k < |es| && RejectsFor(Run(es[..k]), es[k], id, a);
          assert (es + [e])[..k] == es[..k];
          assert RejectsFor(Run((es + [e])[..k]), (es + [e])[k], id, a);
        } else {
          assert (es + [e])[..|es|] == es;
          assert RejectsFor(Run((es + [e])[..|es|]), (es + [e])[|es|], id, a);
        }
      }
    }
  }

  lemma CancelRemovesExactly(s: State, e: Event, id: u64)
    requires StateOk(s) && e.call.Cancel? && id in s.book.proposals
    ensures id !in Step(s, e).0.book.proposals
       <==> e.call.id == id && e.call.caller == s.book.proposals[id].proposer && !s.book.proposals[id].executed
    ensures id !in Step(s, e).0.book.proposals ==> Step(s, e).1.Ok?
  {
  }

  lemma RejectionsFailWhenRemoving(s: State, e: Event, id: u64)
    requires StateOk(s) && e.call.Reject? && Removed(s, Step(s, e).0, id)
    ensures !Step(s, e).1.Ok?
  {
    RejectCases(s, e.now, e.call.caller, e.call.id);
  }

  lemma CleanupSucceeds(s: State, e: Event)
    requires StateOk(s) && e.call.Cleanup?
    ensures Step(s, e).1.Ok?
  {
    ExpireAllKeeps(s.book, e.now, s.book.pending);
  }

  /** Behind the entry points a stored proposal leaves exactly when its proposer cancels it before it is executed, or
      a cleanup finds it expired and unexecuted. */
  lemma EntryPointsRemoveExactly(es: seq<Event>, e: Event, id: u64)
    requires id in AtomicRun(es).book.proposals
    ensures var s := AtomicRun(es);
      var p := s.book.proposals[id];
      Removed(s, AtomicStep(s, e), id) <==>
        && !p.executed
        && (|| (e.call.Cancel? && e.call.id == id && e.call.caller == p.proposer)
            || (e.call.Cleanup? && e.now > p.expiry))
  {
    AtomicRunKeeps(es);
    var s := AtomicRun(es);
    if e.call.Cancel? {
      CancelRemovesExactly(s, e, id);
    } else if e.call.Cleanup? {
      CleanupRemovesExactly(s, e, id);
      CleanupSucceeds(s, e);
    } else if Removed(s, AtomicStep(s, e), id) {
      if e.call.Reject? {
        RejectionsFailWhenRemoving(s, e, id);
      } else if e.call.Create? || e.call.Approve? || e.call.Execute? {
        VotingRemoves(s, e, id);
      }
    }
  }

  // ---------------------------------------------------------------- the limit on open proposals

  ghost predicate LimitAtMost(s: State, m: nat) {
    s.rules.multisig.Some? ==> s.rules.multisig.value.maxPendingProposals <= m
  }

  lemma StepKeepsLimit(s: State, e: Event, m: nat)
    requires StateOk(s) && LimitAtMost(s, m) && s.book.stats.pendingCount <= m
    ensures Step(s, e).0.book.stats.pendingCount <= m
  {
    match e.call
    case Create(a, action) => CreateWithinLimit(s, e.now, a, action, e.balance, m);
    case Reject(a, v) => RejectCases(s, e.now, a, v);
    case Cleanup => CleanupCleans(s, e.now);
    case _ =>
  }

  lemma ExecuteAddsNone(s: State, now: u64, id: u64, balance: Option<i128>)
    ensures ExecuteProposal(s, now, id, balance).0.book.stats.pendingCount <= s.book.stats.pendingCount
  {
  }

  lemma CreateWithinLimit(s: State, now: u64, a: Address, action: ProposalAction, balance: Option<i128>, m: nat)
    requires LimitAtMost(s, m) && s.book.stats.pendingCount <= m
    ensures CreateProposal(s, now, a, action, balance).0.book.stats.pendingCount <= m
  {
    ExecuteAddsNone(WithNew(s, now, a, action), now, s.book.counter, balance);
  }

  /** While no configuration in force allows more than `m` pending proposals, never more than `m` are pending. */
  lemma {:induction false} PendingStaysWithinTheLimit(es: seq<Event>, m: nat)
    requires forall k :: 0 <= k < |es| ==> LimitAtMost(Run(es[..k]), m)
    ensures |Run(es).book.pending| <= m
  {
    RunKeeps(es);
    if es != [] {
      var init := es[..|es| - 1];
      forall k | 0 <= k < |init| ensures LimitAtMost(Run(init[..k]), m) {
        Prefixes(es, k);
      }
      PendingStaysWithinTheLimit(init, m);
      RunKeeps(init);
      assert LimitAtMost(Run(es[..|es| - 1]), m);
      StepKeepsLimit(Run(init), es[|es| - 1], m);
    }
  }
}
