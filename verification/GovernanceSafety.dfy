/** Who can make a proposal execute, when, how often, and what nothing but an execution can change. */
module GovernanceSafety {
  import opened Prelude
  import opened GovernanceTypes
  import opened GovernanceSpec
  import opened GovernanceLedger

  ghost predicate Executed(b: Book, id: u64) {
    id in b.proposals && b.proposals[id].executed
  }

  /** The `executed` flag of `id` is raised between `b` and `c`. */
  ghost predicate Flips(b: Book, c: Book, id: u64) {
    Executed(c, id) && !Executed(b, id)
  }

  /** `q` is `p` with, at most, other votes and another `executed` flag. */
  predicate SameTerms(p: Proposal, q: Proposal) {
    q == p.(approvals := q.approvals, rejections := q.rejections, executed := q.executed)
  }

  /** The call of `e` is `a`'s vote for `id`, cast while `a` is one of the configured admins. */
  ghost predicate VotesFor(s: State, e: Event, id: u64, a: Address) {
    && s.rules.multisig.Some? && a in s.rules.multisig.value.admins
    && (|| (e.call.Approve? && e.call.caller == a && e.call.id == id)
        || (e.call.Create? && e.call.caller == a && s.book.counter == id))
  }

  /** The call of `e` creates `p` on the terms the current configuration sets. */
  ghost predicate CreatesOnTerms(s: State, e: Event, p: Proposal) {
    && e.call.Create? && s.rules.multisig.Some?
    && var c := s.rules.multisig.value;
       && e.call.caller in c.admins
       && p.id == s.book.counter && p.proposer == e.call.caller && p.action == e.call.action
       && p.proposalType == p.action.ClassifyType()
       && p.requiredSignatures == c.GetRequiredSignatures(p.proposalType)
       && p.createdAt == e.now && p.expiry == e.now + c.proposalExpiryDuration
       && (p.timeLockUntil.Some? <==> p.proposalType.RequiresTimeLock())
       && (p.timeLockUntil.Some? ==> p.timeLockUntil.value == e.now + c.timeLockDuration)
  }

  /** Enough approvals, time-lock over, not yet expired. */
  predicate InWindow(p: Proposal, now: u64) {
    && |p.approvals| >= p.requiredSignatures
    && (p.timeLockUntil.Some? ==> p.timeLockUntil.value <= now)
    && now <= p.expiry
  }

  // ---------------------------------------------------------------- one step

  /** Everything one call may do to a stored proposal. */
  ghost predicate LegalChange(s: State, e: Event, c: Book, id: u64) {
    var b := s.book;
    && (id in c.proposals ==>
          && (id in b.proposals ==> SameTerms(b.proposals[id], c.proposals[id]))
          && (id !in b.proposals ==> id == b.counter && CreatesOnTerms(s, e, c.proposals[id]))
          && (forall a :: a in c.proposals[id].approvals ==>
                (id in b.proposals && a in b.proposals[id].approvals) || VotesFor(s, e, id, a)))
    && (Executed(b, id) ==> id in c.proposals && c.proposals[id] == b.proposals[id])
    && (Flips(b, c, id) ==> InWindow(c.proposals[id], e.now))
    && c.counter >= b.counter
  }

  /** What `execute_proposal` does to the book: it drops the expired proposal, or marks the one in its window. */
  lemma ExecuteCases(s: State, now: u64, id: u64, balance: Option<i128>)
    ensures var (t, r) := ExecuteProposal(s, now, id, balance);
      || t == s
      || (&& id in s.book.proposals && !s.book.proposals[id].executed
          && t.rules == s.rules && t.book.counter == s.book.counter
          && t.book.proposals == s.book.proposals - {id})
      || (&& id in s.book.proposals && !s.book.proposals[id].executed && InWindow(s.book.proposals[id], now)
          && t.rules == RunAction(s.rules, s.book.proposals[id].action, balance).0
          && t.book.counter == s.book.counter
          && t.book.proposals == MarkExecuted(s.book, id).proposals)
  {
  }

  lemma CreateIsLegal(s: State, e: Event, id: u64)
    requires BookOk(s.book) && e.call.Create?
    ensures LegalChange(s, e, Step(s, e).0.book, id)
  {
    var a, action := e.call.caller, e.call.action;
    CreateCases(s, e.now, a, action, e.balance);
    ExecuteCases(WithNew(s, e.now, a, action), e.now, s.book.counter, e.balance);
  }

  lemma ApproveIsLegal(s: State, e: Event, id: u64)
    requires e.call.Approve? && (s.rules.multisig.None? ==> s.book.proposals == map[])
    ensures LegalChange(s, e, Step(s, e).0.book, id)
  {
    var v, a := e.call.id, e.call.caller;
    ApproveCases(s, e.now, a, v, e.balance);
    if v in s.book.proposals {
      ExecuteCases(WithApproval(s, a, v), e.now, v, e.balance);
    }
  }

  ghost function WithApproval(s: State, a: Address, id: u64): State
    requires id in s.book.proposals
  {
    var p := s.book.proposals[id];
    s.(book := Vote(s.book, id, p.(approvals := p.approvals + [a])))
  }

  lemma ApproveCases(s: State, now: u64, a: Address, id: u64, balance: Option<i128>)
    ensures var t := ApproveProposal(s, now, a, id, balance).0;
      || t == s
      || (&& id in s.book.proposals && !s.book.proposals[id].executed && IsGovernor(s.rules, a)
          && (|| (t.rules == s.rules && t.book.counter == s.book.counter && t.book.proposals == s.book.proposals - {id})
              || t == WithApproval(s, a, id)
              || t == ExecuteProposal(WithApproval(s, a, id), now, id, balance).0))
  {
  }

  lemma RejectIsLegal(s: State, e: Event, id: u64)
    requires e.call.Reject?
    ensures LegalChange(s, e, Step(s, e).0.book, id)
  {
    RejectCases(s, e.now, e.call.caller, e.call.id);
  }

  lemma ExecuteIsLegal(s: State, e: Event, id: u64)
    requires e.call.Execute?
    ensures LegalChange(s, e, Step(s, e).0.book, id)
  {
    ExecuteCases(s, e.now, e.call.id, e.balance);
  }

  lemma CleanupIsLegal(s: State, e: Event, id: u64)
    requires BookOk(s.book) && e.call.Cleanup?
    ensures LegalChange(s, e, Step(s, e).0.book, id)
  {
    ExpireAllKeeps(s.book, e.now, s.book.pending);
  }

  lemma OtherIsLegal(s: State, e: Event, id: u64)
    requires StateOk(s) && (IsDirect(e.call) || e.call.Init? || e.call.InitMultisig? || e.call.Cancel?)
    ensures LegalChange(s, e, Step(s, e).0.book, id)
  {
  }

  lemma StepIsLegal(s: State, e: Event, id: u64)
    requires StateOk(s)
    ensures LegalChange(s, e, Step(s, e).0.book, id)
  {
    match e.call
    case Create(_, _) => CreateIsLegal(s, e, id);
    case Approve(_, _) => ApproveIsLegal(s, e, id);
    case Execute(_) => ExecuteIsLegal(s, e, id);
    case Reject(_, _) => RejectIsLegal(s, e, id);
    case Cleanup => CleanupIsLegal(s, e, id);
    case _ => OtherIsLegal(s, e, id);
  }

  // ---------------------------------------------------------------- whole runs

  lemma LastIsLegal(es: seq<Event>, id: u64)
    requires es != []
    ensures var init := es[..|es| - 1];
            LegalChange(Run(init), es[|es| - 1], Run(es).book, id)
  {
    RunKeeps(es[..|es| - 1]);
    StepIsLegal(Run(es[..|es| - 1]), es[|es| - 1], id);
  }

  lemma Prefixes(es: seq<Event>, k: nat)
    requires es != [] && k <= |es| - 1
    ensures es[..|es| - 1][..k] == es[..k]
  {
  }

  ghost predicate VotedInRun(es: seq<Event>, id: u64, a: Address) {
    exists k :: 0 <= k < |es| && VotesFor(Run(es[..k]), es[k], id, a)
  }

  ghost predicate CreatedInRun(es: seq<Event>, p: Proposal) {
    exists k :: 0 <= k < |es| && CreatesOnTerms(Run(es[..k]), es[k], p)
  }

  /** Every approval a stored proposal carries was cast, in the run, by an admin of that moment. */
  lemma {:induction false} ApprovalsAreAdminVotes(es: seq<Event>, id: u64, a: Address)
    requires id in Run(es).book.proposals && a in Run(es).book.proposals[id].approvals
    ensures VotedInRun(es, id, a)
  {
    if es != [] {
      var n := |es| - 1;
      var init := es[..n];
      LastIsLegal(es, id);
      if !VotesFor(Run(es[..n]), es[n], id, a) {
        ApprovalsAreAdminVotes(init, id, a);
        var k :| 0 <= k < |init| && VotesFor(Run(init[..k]), init[k], id, a);
        Prefixes(es, k);
        assert VotesFor(Run(es[..k]), es[k], id, a);
      }
    }
  }

  lemma SameTermsSameCreation(s: State, e: Event, p: Proposal, q: Proposal)
    requires CreatesOnTerms(s, e, p) && SameTerms(p, q)
    ensures CreatesOnTerms(s, e, q)
  {
  }

  /** Every stored proposal still has the terms set, when it was created, by the configuration of that moment. */
  lemma {:induction false} TermsAreFixedAtCreation(es: seq<Event>, id: u64)
    requires id in Run(es).book.proposals
    ensures CreatedInRun(es, Run(es).book.proposals[id])
  {
    if es != [] {
      var n := |es| - 1;
      var init := es[..n];
      LastIsLegal(es, id);
      if id in Run(init).book.proposals {
        TermsAreFixedAtCreation(init, id);
        var p := Run(init).book.proposals[id];
        var k :| 0 <= k < |init| && CreatesOnTerms(Run(init[..k]), init[k], p);
        Prefixes(es, k);
        SameTermsSameCreation(Run(es[..k]), es[k], p, Run(es).book.proposals[id]);
      } else {
        assert CreatesOnTerms(Run(es[..n]), es[n], Run(es).book.proposals[id]);
      }
    }
  }

  /** Execution safety. When the last call of any run raises `executed` on a proposal, then at that moment the
      proposal has as many pairwise distinct approvals, none of them also a rejection, as the configuration in
      force at its creation demanded of its class; each was cast by an admin of its moment; and the ledger
      time lies between the end of the time-lock and the expiry fixed at creation. */
  lemma ExecutionSafety(es: seq<Event>, id: u64)
    requires es != [] && Flips(Run(es[..|es| - 1]).book, Run(es).book, id)
    ensures var p := Run(es).book.proposals[id];
            var now := es[|es| - 1].now;
      && Distinct(p.approvals)
      && (forall a :: a in p.approvals ==> a !in p.rejections && VotedInRun(es, id, a))
      && CreatedInRun(es, p)
      && |p.approvals| >= p.requiredSignatures
      && (p.timeLockUntil.Some? ==> p.timeLockUntil.value <= now)
      && now <= p.expiry
  {
    RunKeeps(es);
    LastIsLegal(es, id);
    TermsAreFixedAtCreation(es, id);
    forall a | a in Run(es).book.proposals[id].approvals ensures VotedInRun(es, id, a) {
      ApprovalsAreAdminVotes(es, id, a);
    }
  }

  /** An executed proposal stays stored, executed and unchanged, votes included, for the rest of the run;
      so its flag is raised at most once. */
  lemma {:induction false} ExecutedProposalsAreFrozen(es: seq<Event>, k: nat, id: u64)
    requires k <= |es| && Executed(Run(es[..k]).book, id)
    ensures id in Run(es).book.proposals && Run(es).book.proposals[id] == Run(es[..k]).book.proposals[id]
  {
    if k == |es| {
      assert es[..k] == es;
    } else {
      Prefixes(es, k);
      ExecutedProposalsAreFrozen(es[..|es| - 1], k, id);
      LastIsLegal(es, id);
    }
  }

  /** An id that was handed out and whose proposal was removed never names a proposal again. */
  lemma {:induction false} IdsAreNeverReused(es: seq<Event>, k: nat, id: u64)
    requires k <= |es| && id < Run(es[..k]).book.counter && id !in Run(es[..k]).book.proposals
    ensures id < Run(es).book.counter && id !in Run(es).book.proposals
  {
    if k == |es| {
      assert es[..k] == es;
    } else {
      Prefixes(es, k);
      IdsAreNeverReused(es[..|es| - 1], k, id);
      LastIsLegal(es, id);
    }
  }

  /** `execute_proposal` raises the flag exactly for a stored unexecuted proposal with enough approvals
      called between the end of its time-lock and its expiry, whatever its action then does. */
  lemma ExecutesExactlyInTheWindow(es: seq<Event>, now: u64, id: u64, balance: Option<i128>)
    ensures var b := Run(es).book;
      Flips(b, ExecuteProposal(Run(es), now, id, balance).0.book, id) <==>
        id in b.proposals && !b.proposals[id].executed && InWindow(b.proposals[id], now)
  {
    RunKeeps(es);
    ExecuteKeeps(Run(es), now, id, balance);
    MarksExactlyInTheWindow(Run(es), now, id, balance);
  }

  lemma MarksExactlyInTheWindow(s: State, now: u64, id: u64, balance: Option<i128>)
    requires !ExecuteProposal(s, now, id, balance).1.Trap?
    ensures Flips(s.book, ExecuteProposal(s, now, id, balance).0.book, id) <==>
      id in s.book.proposals && !s.book.proposals[id].executed && InWindow(s.book.proposals[id], now)
  {
    if id in s.book.proposals {
      ExecuteCases(s, now, id, balance);
    }
  }

  // ---------------------------------------------------------------- what only execution changes

  /** The part of the rules that multisig governance guards. */
  datatype Governed = Governed(config: AccessControlConfig, paused: bool, emergencyMode: bool,
                               multisig: Option<MultiSigConfig>)

  function GovernedOf(g: Rules): Governed {
    Governed(g.config, g.paused, g.emergencyMode, g.multisig)
  }

  /** Between `s` and `t` the guarded rules changed, if at all, by running the action of a proposal executed just
      then. */
  ghost predicate ChangedByExecution(s: State, t: State, balance: Option<i128>) {
    GovernedOf(t.rules) != GovernedOf(s.rules) ==>
      exists id :: Flips(s.book, t.book, id)
                && GovernedOf(t.rules) == GovernedOf(RunAction(s.rules, t.book.proposals[id].action, balance).0)
  }

  lemma ExecuteGoverns(s: State, s1: State, now: u64, id: u64, balance: Option<i128>)
    requires s1.rules == s.rules && (Executed(s.book, id) ==> Executed(s1.book, id))
    ensures ChangedByExecution(s, ExecuteProposal(s1, now, id, balance).0, balance)
  {
    ExecuteCases(s1, now, id, balance);
    var t := ExecuteProposal(s1, now, id, balance).0;
    if GovernedOf(t.rules) != GovernedOf(s.rules) {
      assert Flips(s.book, t.book, id);
    }
  }

  lemma StepGoverns(s: State, e: Event)
    requires StateOk(s) && s.rules.multisig.Some?
    ensures ChangedByExecution(s, Step(s, e).0, e.balance)
  {
    if IsDirect(e.call) {
      DirectKeeps(s.rules, e);
    } else {
      match e.call
      case Create(a, action) =>
        CreateCases(s, e.now, a, action, e.balance);
        ExecuteGoverns(s, WithNew(s, e.now, a, action), e.now, s.book.counter, e.balance);
      case Approve(a, id) =>
        ApproveCases(s, e.now, a, id, e.balance);
        if id in s.book.proposals {
          ExecuteGoverns(s, WithApproval(s, a, id), e.now, id, e.balance);
        }
      case Execute(id) => ExecuteGoverns(s, s, e.now, id, e.balance);
      case _ =>
    }
  }

  lemma RunActionRatchets(g: Rules, action: ProposalAction, balance: Option<i128>)
    requires g.multisig.Some?
    ensures var h := RunAction(g, action, balance).0;
      h.multisig.Some? && (g.emergencyMode ==> h.emergencyMode)
  {
  }

  /** Under multisig, the configuration, the pause flag, emergency mode and the multisig configuration change only
      when a proposal is executed, and then exactly as its action says. Multisig is never switched off, emergency
      mode never cleared, and no single-admin transfer is ever pending. */
  lemma OnlyExecutionGoverns(es: seq<Event>, e: Event)
    requires Run(es).rules.multisig.Some?
    ensures var s, t := Run(es), Step(Run(es), e).0;
      && t.rules.multisig.Some?
      && (s.rules.emergencyMode ==> t.rules.emergencyMode)
      && s.rules.transfer.None? && t.rules.transfer.None?
      && ChangedByExecution(s, t, e.balance)
  {
    RunKeeps(es);
    StepRatchets(Run(es), e);
  }

  lemma StepRatchets(s: State, e: Event)
    requires StateOk(s) && s.rules.multisig.Some?
    ensures var t := Step(s, e).0;
      && t.rules.multisig.Some?
      && (s.rules.emergencyMode ==> t.rules.emergencyMode)
      && s.rules.transfer.None? && t.rules.transfer.None?
      && ChangedByExecution(s, t, e.balance)
  {
    StepKeeps(s, e);
    StepGoverns(s, e);
    var t := Step(s, e).0;
    if GovernedOf(t.rules) != GovernedOf(s.rules) {
      var id :| Flips(s.book, t.book, id)
             && GovernedOf(t.rules) == GovernedOf(RunAction(s.rules, t.book.proposals[id].action, e.balance).0);
      RunActionRatchets(s.rules, t.book.proposals[id].action, e.balance);
    }
  }

  /** Without multisig nothing can raise emergency mode: there is no proposal to execute. */
  lemma NoEmergencyWithoutMultisig(s: State, e: Event)
    requires StateOk(s) && s.rules.multisig.None? && !s.rules.emergencyMode
    ensures !Step(s, e).0.rules.emergencyMode
  {
  }

  lemma {:induction false} EmergencyNeedsMultisig(es: seq<Event>)
    ensures Run(es).rules.emergencyMode ==> Run(es).rules.multisig.Some?
  {
    if es != [] {
      var init, e := es[..|es| - 1], es[|es| - 1];
      EmergencyNeedsMultisig(init);
      RunKeeps(init);
      if Run(init).rules.multisig.Some? {
        StepRatchets(Run(init), e);
      } else {
        NoEmergencyWithoutMultisig(Run(init), e);
      }
    }
  }

  /** Emergency mode once set is never cleared, in any run: the call that would clear it is refused under multisig, and
      without multisig the mode is never set. */
  lemma {:induction false} EmergencyIsForever(es: seq<Event>, k: nat)
    requires k <= |es| && Run(es[..k]).rules.emergencyMode
    ensures Run(es).rules.emergencyMode
  {
    if k == |es| {
      assert es[..k] == es;
    } else {
      Prefixes(es, k);
      EmergencyIsForever(es[..|es| - 1], k);
      EmergencyNeedsMultisig(es[..|es| - 1]);
      OnlyExecutionGoverns(es[..|es| - 1], es[|es| - 1]);
    }
  }

  lemma {:induction false} MultisigIsForever(es: seq<Event>, k: nat)
    requires k <= |es| && Run(es[..k]).rules.multisig.Some?
    ensures Run(es).rules.multisig.Some?
    ensures Run(es[..k]).rules.emergencyMode ==> Run(es).rules.emergencyMode
  {
    if k == |es| {
      assert es[..k] == es;
    } else {
      Prefixes(es, k);
      MultisigIsForever(es[..|es| - 1], k);
      OnlyExecutionGoverns(es[..|es| - 1], es[|es| - 1]);
    }
  }
}
