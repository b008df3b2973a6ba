/** The contract behind its entry points (contracts/access_control/src/lib.rs): a failed call is undone, and
    `execute_proposal` is reached only through a creation or an approval. */
module GovernanceEntryPoints {
  import opened Prelude
  import opened GovernanceTypes
  import opened GovernanceSpec
  import opened GovernanceLedger
  import opened GovernanceSafety

  // ---------------------------------------------------------------- committed calls

  /** The calls of a run that were not undone. */
  function Committed(es: seq<Event>): seq<Event> {
    if es == [] then []
    else
      var init, e := es[..|es| - 1], es[|es| - 1];
      Committed(init) + if Step(AtomicRun(init), e).1.Ok? then [e] else []
  }

  /** A run behind the entry points is a run of the module over its committed calls, so whatever holds after every
      run of the module holds behind the entry points too. */
  lemma {:induction false} AtomicRunIsARun(es: seq<Event>)
    ensures AtomicRun(es) == Run(Committed(es))
  {
    if es != [] {
      var init, e := es[..|es| - 1], es[|es| - 1];
      AtomicRunIsARun(init);
      var c := Committed(es);
      assert c != Committed(init) ==> c[..|c| - 1] == Committed(init);
    }
  }

  /** Execution safety behind the entry points. */
  lemma EntryPointsExecuteSafely(es: seq<Event>, id: u64)
    requires es != [] && Flips(AtomicRun(es[..|es| - 1]).book, AtomicRun(es).book, id)
    ensures var p, c, now := AtomicRun(es).book.proposals[id], Committed(es), es[|es| - 1].now;
      && Distinct(p.approvals)
      && (forall a :: a in p.approvals ==> a !in p.rejections && VotedInRun(c, id, a))
      && CreatedInRun(c, p)
      && InWindow(p, now)
  {
    var init, e, c := es[..|es| - 1], es[|es| - 1], Committed(es);
    AtomicRunIsARun(init);
    AtomicRunIsARun(es);
    assert c == Committed(init) + [e];
    assert c[..|c| - 1] == Committed(init);
    ExecutionSafety(c, id);
  }

  // ---------------------------------------------------------------- who executes

  predicate HasVoted(p: Proposal, a: Address) {
    a in p.approvals || a in p.rejections
  }

  /** `e` is an approval of `id` by a governor who had not voted, cast in the window, whose action succeeds. */
  predicate DecidingVote(s: State, e: Event, id: u64)
    requires id in s.book.proposals
  {
    var p := s.book.proposals[id];
    && e.call.Approve? && e.call.id == id
    && IsGovernor(s.rules, e.call.caller) && !HasVoted(p, e.call.caller)
    && !p.executed
    && InWindow(p.(approvals := p.approvals + [e.call.caller]), e.now)
    && RunAction(s.rules, p.action, e.balance).1.Ok?
  }

  lemma ExecuteSucceedsExactly(s: State, now: u64, id: u64, balance: Option<i128>)
    requires StateOk(s) && id in s.book.proposals
    ensures var p, (t, r) := s.book.proposals[id], ExecuteProposal(s, now, id, balance);
      && (r.Ok? <==> !p.executed && InWindow(p, now) && RunAction(s.rules, p.action, balance).1.Ok?)
      && (r.Ok? ==> Executed(t.book, id))
  {
    ExecuteKeeps(s, now, id, balance);
  }

  lemma WithApprovalOk(s: State, a: Address, id: u64)
    requires StateOk(s) && id in s.book.proposals && !s.book.proposals[id].executed
    requires !HasVoted(s.book.proposals[id], a)
    ensures StateOk(WithApproval(s, a, id))
  {
    var p := s.book.proposals[id];
    DistinctSnoc(p.approvals, a);
    VoteKeeps(s.book, id, p.(approvals := p.approvals + [a]));
  }

  lemma ApprovalExecutesExactly(s: State, e: Event, id: u64)
    requires StateOk(s) && id in s.book.proposals && e.call.Approve?
    ensures Flips(s.book, AtomicStep(s, e).book, id) <==> DecidingVote(s, e, id)
  {
    var a, v := e.call.caller, e.call.id;
    if v in s.book.proposals && !s.book.proposals[v].executed && !HasVoted(s.book.proposals[v], a) {
      WithApprovalOk(s, a, v);
      ExecuteSucceedsExactly(WithApproval(s, a, v), e.now, v, e.balance);
      ExecuteCases(WithApproval(s, a, v), e.now, v, e.balance);
    }
  }

  /** No other entry point executes a proposal that is already stored. */
  lemma OthersExecuteNothingStored(s: State, e: Event, id: u64)
    requires StateOk(s) && id in s.book.proposals && !e.call.Approve? && !e.call.Execute?
    ensures !Flips(s.book, AtomicStep(s, e).book, id)
  {
    if !IsDirect(e.call) {
      match e.call
      case Create(a, action) =>
        CreateCases(s, e.now, a, action, e.balance);
        ExecuteCases(WithNew(s, e.now, a, action), e.now, s.book.counter, e.balance);
      case Reject(a, v) => RejectCases(s, e.now, a, v);
      case Cleanup => ExpireAllKeeps(s.book, e.now, s.book.pending);
      case _ =>
    }
  }

  /** Behind the entry points a stored proposal is executed exactly by a deciding vote: reaching the threshold before
      the time-lock ends executes nothing, and when it ends a vote is still needed from someone who has not voted. */
  lemma StoredProposalsNeedADecidingVote(es: seq<Event>, e: Event, id: u64)
    requires !e.call.Execute? && id in AtomicRun(es).book.proposals
    ensures Flips(AtomicRun(es).book, AtomicStep(AtomicRun(es), e).book, id) <==> DecidingVote(AtomicRun(es), e, id)
  {
    AtomicRunKeeps(es);
    if e.call.Approve? {
      ApprovalExecutesExactly(AtomicRun(es), e, id);
    } else {
      OthersExecuteNothingStored(AtomicRun(es), e, id);
    }
  }

  // ---------------------------------------------------------------- stranded proposals

  /** Every admin in `admins` has voted on `id`, and it is not executed. */
  ghost predicate Exhausted(s: State, id: u64, admins: seq<Address>) {
    && id < s.book.counter
    && (id in s.book.proposals ==>
          !s.book.proposals[id].executed && forall a :: a in admins ==> HasVoted(s.book.proposals[id], a))
  }

  /** No vote on `id` is lost between the books `b` and `c`. */
  ghost predicate KeepsVotes(b: Book, c: Book, id: u64)
    requires id in b.proposals
  {
    && c.counter >= b.counter
    && (id in c.proposals ==> forall a :: HasVoted(b.proposals[id], a) ==> HasVoted(c.proposals[id], a))
  }

  lemma CreationKeepsVotes(s: State, e: Event, id: u64)
    requires StateOk(s) && id in s.book.proposals && e.call.Create?
    ensures KeepsVotes(s.book, Step(s, e).0.book, id)
  {
    var a, action := e.call.caller, e.call.action;
    CreateCases(s, e.now, a, action, e.balance);
    ExecuteCases(WithNew(s, e.now, a, action), e.now, s.book.counter, e.balance);
  }

  lemma ApprovalKeepsVotes(s: State, e: Event, id: u64)
    requires StateOk(s) && id in s.book.proposals && e.call.Approve?
    ensures KeepsVotes(s.book, Step(s, e).0.book, id)
  {
    var a, v := e.call.caller, e.call.id;
    ApproveCases(s, e.now, a, v, e.balance);
    if v in s.book.proposals {
      ExecuteCases(WithApproval(s, a, v), e.now, v, e.balance);
    }
  }

  lemma VotesAreKept(s: State, e: Event, id: u64)
    requires StateOk(s) && id in s.book.proposals && !e.call.Execute?
    ensures KeepsVotes(s.book, AtomicStep(s, e).book, id)
  {
    match e.call
    case Create(_, _) => CreationKeepsVotes(s, e, id);
    case Approve(_, _) => ApprovalKeepsVotes(s, e, id);
    case Reject(a, v) => RejectCases(s, e.now, a, v);
    case Cleanup => ExpireAllKeeps(s.book, e.now, s.book.pending);
    case _ =>
  }

  /** Once every admin has voted on a proposal that was not executed then, be it only that its time-lock still ran,
      no entry point ever executes it unless somebody else becomes an admin, however many approvals it has. */
  lemma {:induction false} AllVotedTooEarly(es: seq<Event>, k: nat, id: u64, admins: seq<Address>)
    requires k <= |es| && forall i :: k <= i < |es| ==> !es[i].call.Execute?
    requires forall i :: k <= i < |es| ==> NoNewcomer(AtomicRun(es[..i]), admins)
    requires Exhausted(AtomicRun(es[..k]), id, admins)
    ensures Exhausted(AtomicRun(es), id, admins)
  {
    if k == |es| {
      assert es[..k] == es;
    } else {
      var init, e := es[..|es| - 1], es[|es| - 1];
      Prefixes(es, k);
      forall i | k <= i < |init| ensures !init[i].call.Execute? && NoNewcomer(AtomicRun(init[..i]), admins) {
        assert init[i] == es[i] && init[..i] == es[..i];
      }
      AllVotedTooEarly(init, k, id, admins);
      assert NoNewcomer(AtomicRun(init), admins);
      AtomicRunIsARun(init);
      AtomicRunKeeps(init);
      if id in AtomicRun(init).book.proposals {
        StoredProposalsNeedADecidingVote(init, e, id);
        VotesAreKept(AtomicRun(init), e, id);
      } else {
        StepIsLegal(AtomicRun(init), e, id);
      }
    }
  }

  const TWO_ADMINS := MultiSigConfig([1, 2], 1, 2, 2, ONE_DAY, 50, SEVEN_DAYS)
  const TWO_ADMIN_RULES := NO_RULES.(initialized := true, multisig := Some(TWO_ADMINS),
                                     roles := map[1 := Admin, 2 := Admin])

  lemma TwoAdminsStart(t: u64)
    ensures AtomicStep(EMPTY, Event(t, InitMultisig([1, 2], 1, None), None)) == State(TWO_ADMIN_RULES, NO_BOOK)
  {
    assert InitialMultisig([1, 2], 1) == TWO_ADMINS;
    assert GrantAdmin(map[], [1, 2]) == map[1 := Admin, 2 := Admin];
  }

  function PauseProposal(t: u64): Proposal
    requires t + SEVEN_DAYS <= U64_MAX
  {
    Proposal(0, 1, ProposalAction.Pause, Critical, [1], [], false, t, t + SEVEN_DAYS, Some(t + ONE_DAY), 2)
  }

  lemma PauseIsProposed(t: u64)
    requires t + SEVEN_DAYS <= U64_MAX
    ensures AtomicStep(State(TWO_ADMIN_RULES, NO_BOOK), Event(t, Create(1, ProposalAction.Pause), None))
         == State(TWO_ADMIN_RULES, Enqueue(NO_BOOK, PauseProposal(t)))
  {
    assert NewProposal(TWO_ADMINS, t, 0, 1, ProposalAction.Pause) == PauseProposal(t);
  }

  lemma SecondSignature(t: u64, u: u64)
    requires t <= u < t + ONE_DAY && t + SEVEN_DAYS <= U64_MAX
    ensures var s := State(TWO_ADMIN_RULES, Enqueue(NO_BOOK, PauseProposal(t)));
      AtomicStep(s, Event(u, Approve(2, 0), None))
      == s.(book := Vote(s.book, 0, PauseProposal(t).(approvals := [1, 2])))
  {
    assert [1] + [2] == [1, 2];
    assert PauseProposal(t).(approvals := [1] + [2]) == PauseProposal(t).(approvals := [1, 2]);
  }

  /** It happens with two admins and one required signature: a pause is critical and needs both, and when both have
      signed before the day is over it has all the approvals it needs and can never be executed by these two. */
  lemma BothSignTooEarly(t: u64, u: u64)
    requires t <= u < t + ONE_DAY && t + SEVEN_DAYS <= U64_MAX
    ensures var es := [Event(t, InitMultisig([1, 2], 1, None), None), Event(t, Create(1, ProposalAction.Pause), None),
                       Event(u, Approve(2, 0), None)];
      var s := AtomicRun(es);
      && NoNewcomer(s, [1, 2]) && Exhausted(s, 0, [1, 2]) && 0 in s.book.proposals
      && |s.book.proposals[0].approvals| >= s.book.proposals[0].requiredSignatures
  {
    var e0, e1, e2 := Event(t, InitMultisig([1, 2], 1, None), None), Event(t, Create(1, ProposalAction.Pause), None),
                      Event(u, Approve(2, 0), None);
    AtomicRunSnoc([], e0);
    AtomicRunSnoc([e0], e1);
    AtomicRunSnoc([e0, e1], e2);
    assert [] + [e0] == [e0] && [e0] + [e1] == [e0, e1] && [e0, e1] + [e2] == [e0, e1, e2];
    TwoAdminsStart(t);
    PauseIsProposed(t);
    SecondSignature(t, u);
  }

  lemma AtomicRunSnoc(es: seq<Event>, e: Event)
    ensures AtomicRun(es + [e]) == AtomicStep(AtomicRun(es), e)
  {
    assert (es + [e])[..|es|] == es;
  }

  ghost predicate NoNewcomer(s: State, admins: seq<Address>) {
    s.rules.multisig.Some? && forall a :: a in s.rules.multisig.value.admins ==> a in admins
  }
}
