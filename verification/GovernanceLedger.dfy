/** The proposal map, the pending list, the statistics and the id counter agree in every reachable state. */
module GovernanceLedger {
  import opened Prelude
  import opened GovernanceTypes
  import opened GovernanceSpec

  ghost predicate ProposalOk(p: Proposal, id: u64) {
    && p.id == id
    && p.proposalType == p.action.ClassifyType()
    && (p.timeLockUntil.Some? <==> p.proposalType.RequiresTimeLock())
    && Distinct(p.approvals) && Distinct(p.rejections)
    && (forall a :: a in p.approvals ==> a !in p.rejections)
  }

  ghost predicate BookOk(b: Book) {
    && Distinct(b.pending)
    && (forall id :: id in b.pending ==> id in b.proposals)
    && (forall id :: id in b.proposals ==> id < b.counter && ProposalOk(b.proposals[id], id))
    && (forall id :: id in b.proposals && !b.proposals[id].executed ==> id in b.pending)
    && b.stats.pendingCount == |b.pending|
    && b.stats.totalCreated == b.counter
    && Unaccounted(b) >= 0
  }

  /** Created proposals the statistics do not account for: the cancelled ones, which have no counter. */
  ghost function Unaccounted(b: Book): int {
    b.stats.totalCreated - b.stats.totalExecuted - b.stats.totalRejected - b.stats.totalExpired - b.stats.pendingCount
  }

  ghost predicate StateOk(s: State) {
    && BookOk(s.book)
    && (!s.rules.initialized ==> s == EMPTY)
    && (s.rules.multisig.Some? ==> s.rules.initialized && s.rules.transfer.None?)
    && (s.rules.multisig.None? ==> s.book.proposals == map[])
  }

  // ---------------------------------------------------------------- operations on the book

  lemma DropKeeps(b: Book, id: u64, stats: ProposalStats)
    requires BookOk(b) && id in b.pending
    requires stats.pendingCount == b.stats.pendingCount && stats.totalCreated == b.stats.totalCreated
    requires Unaccounted(Drop(b, id, stats)) >= 0
    ensures BookOk(Drop(b, id, stats))
  {
    WithoutKeepsDistinct(b.pending, id);
    WithoutMembers(b.pending, id);
  }

  lemma ExpireOneKeeps(b: Book, id: u64)
    requires BookOk(b) && id in b.proposals && !b.proposals[id].executed
    ensures ExpireOne(b, id).1.Ok?
    ensures BookOk(ExpireOne(b, id).0)
    ensures Unaccounted(ExpireOne(b, id).0) == Unaccounted(b)
  {
    assert id in b.pending;
    DropKeeps(b, id, b.stats.(totalExpired := b.stats.totalExpired + 1));
  }

  lemma {:induction false} ExpireAllKeeps(b: Book, now: u64, ids: seq<u64>)
    requires BookOk(b)
    ensures var (t, r) := ExpireAll(b, now, ids);
      && r.Ok? && BookOk(t) && Unaccounted(t) == Unaccounted(b)
      && t.counter == b.counter
      && t.stats == b.stats.(totalExpired := t.stats.totalExpired, pendingCount := t.stats.pendingCount)
      && (forall id :: id in t.proposals ==> id in b.proposals && t.proposals[id] == b.proposals[id])
      && (forall id :: id in b.proposals && b.proposals[id].executed ==> id in t.proposals)
      && (forall id :: id in t.pending ==> id in b.pending)
  {
    if ids != [] {
      var last := |ids| - 1;
      ExpireAllKeeps(b, now, ids[..last]);
      var b1 := ExpireAll(b, now, ids[..last]).0;
      if IsExpired(b1, now, ids[last]) {
        ExpireOneKeeps(b1, ids[last]);
        WithoutMembers(b1.pending, ids[last]);
      }
    }
  }

  lemma MarkKeeps(b: Book, id: u64)
    requires BookOk(b) && id in b.proposals
    ensures BookOk(MarkExecuted(b, id)) && Unaccounted(MarkExecuted(b, id)) == Unaccounted(b)
  {
  }

  lemma RecordKeeps(b: Book, id: u64)
    requires BookOk(b) && id in b.pending && b.proposals[id].executed
    ensures b.stats.totalExecuted < U64_MAX
    ensures BookOk(RecordExecution(b, id)) && Unaccounted(RecordExecution(b, id)) == Unaccounted(b)
  {
    WithoutKeepsDistinct(b.pending, id);
    WithoutMembers(b.pending, id);
  }

  lemma EnqueueKeeps(b: Book, p: Proposal)
    requires BookOk(b) && ProposalOk(p, b.counter) && !p.executed
    requires b.counter < U64_MAX && b.stats.pendingCount < U32_MAX
    ensures BookOk(Enqueue(b, p)) && Unaccounted(Enqueue(b, p)) == Unaccounted(b)
  {
    assert b.counter !in b.proposals;
    DistinctSnoc(b.pending, b.counter);
  }

  /** Recording one more vote keeps the book. */
  lemma VoteKeeps(b: Book, id: u64, p: Proposal)
    requires BookOk(b) && id in b.pending && ProposalOk(p, id) && !p.executed
    ensures BookOk(Vote(b, id, p)) && Unaccounted(Vote(b, id, p)) == Unaccounted(b)
  {
  }

  // ---------------------------------------------------------------- operations on the state

  lemma RunActionKeepsMode(g: Rules, action: ProposalAction, balance: Option<i128>)
    requires g.multisig.Some?
    ensures var (h, r) := RunAction(g, action, balance);
      && h.multisig.Some? && h.initialized == g.initialized && h.transfer == g.transfer
      && !r.Trap? && (!r.Ok? ==> h == g)
  {
  }

  lemma ReportExpiredKeeps(s: State, id: u64)
    requires StateOk(s) && id in s.book.proposals && !s.book.proposals[id].executed
    ensures StateOk(ReportExpired(s, id).0) && ReportExpired(s, id).1 == Err(ProposalExpired)
    ensures Unaccounted(ReportExpired(s, id).0.book) == Unaccounted(s.book)
  {
    ExpireOneKeeps(s.book, id);
  }

  lemma ExecuteKeeps(s: State, now: u64, id: u64, balance: Option<i128>)
    requires StateOk(s)
    ensures var (t, r) := ExecuteProposal(s, now, id, balance);
            StateOk(t) && Unaccounted(t.book) == Unaccounted(s.book) && !r.Trap?
  {
    if id in s.book.proposals && !s.book.proposals[id].executed {
      var p := s.book.proposals[id];
      if now > p.expiry {
        ReportExpiredKeeps(s, id);
      } else {
        assert id in s.book.pending;
        MarkKeeps(s.book, id);
        RunActionKeepsMode(s.rules, p.action, balance);
        RecordKeeps(MarkExecuted(s.book, id), id);
      }
    }
  }

  lemma NewProposalOk(c: MultiSigConfig, now: u64, id: u64, proposer: Address, action: ProposalAction)
    requires now + c.proposalExpiryDuration <= U64_MAX
    requires action.ClassifyType().RequiresTimeLock() ==> now + c.timeLockDuration <= U64_MAX
    ensures ProposalOk(NewProposal(c, now, id, proposer, action), id)
  {
  }

  /** The three states `create_proposal` can end in. */
  lemma CreateCases(s: State, now: u64, proposer: Address, action: ProposalAction, balance: Option<i128>)
    ensures var (t, r) := CreateProposal(s, now, proposer, action, balance);
      || (t == s && (r.Trap? ==>
            && s.rules.multisig.Some?
            && s.book.stats.pendingCount < U32_MAX
            && (|| CreationOverflows(s.book, s.rules.multisig.value, now, action)
                || ExecuteProposal(WithNew(s, now, proposer, action), now, s.book.counter, balance).1.Trap?)))
      || (&& IsGovernor(s.rules, proposer) && s.rules.multisig.Some?
          && !CreationOverflows(s.book, s.rules.multisig.value, now, action)
          && var s1 := WithNew(s, now, proposer, action);
             || (t == s1 && r.Ok?)
             || (t == ExecuteProposal(s1, now, s.book.counter, balance).0 && !r.Trap?))
  {
  }

  ghost function WithNew(s: State, now: u64, proposer: Address, action: ProposalAction): State {
    if s.rules.multisig.None? || CreationOverflows(s.book, s.rules.multisig.value, now, action) then s
    else s.(book := Enqueue(s.book, NewProposal(s.rules.multisig.value, now, s.book.counter, proposer, action)))
  }

  lemma WithNewKeeps(s: State, now: u64, proposer: Address, action: ProposalAction)
    requires StateOk(s)
    ensures StateOk(WithNew(s, now, proposer, action))
    ensures Unaccounted(WithNew(s, now, proposer, action).book) == Unaccounted(s.book)
  {
    if s.rules.multisig.Some? && !CreationOverflows(s.book, s.rules.multisig.value, now, action) {
      NewProposalOk(s.rules.multisig.value, now, s.book.counter, proposer, action);
      EnqueueKeeps(s.book, NewProposal(s.rules.multisig.value, now, s.book.counter, proposer, action));
    }
  }

  lemma CreateKeeps(s: State, now: u64, proposer: Address, action: ProposalAction, balance: Option<i128>)
    requires StateOk(s)
    ensures var (t, r) := CreateProposal(s, now, proposer, action, balance);
      && StateOk(t) && Unaccounted(t.book) == Unaccounted(s.book)
      && (r.Trap? ==> s.rules.multisig.Some? && CreationOverflows(s.book, s.rules.multisig.value, now, action)
                      && s.book.stats.pendingCount < U32_MAX)
  {
    CreateCases(s, now, proposer, action, balance);
    WithNewKeeps(s, now, proposer, action);
    ExecuteKeeps(WithNew(s, now, proposer, action), now, s.book.counter, balance);
  }

  lemma ApproveKeeps(s: State, now: u64, a: Address, id: u64, balance: Option<i128>)
    requires StateOk(s)
    ensures var (t, r) := ApproveProposal(s, now, a, id, balance);
            StateOk(t) && Unaccounted(t.book) == Unaccounted(s.book) && !r.Trap?
  {
    if id in s.book.proposals && !s.book.proposals[id].executed {
      var p := s.book.proposals[id];
      if now > p.expiry {
        ReportExpiredKeeps(s, id);
      } else if a !in p.approvals && a !in p.rejections {
        var p1 := p.(approvals := p.approvals + [a]);
        DistinctSnoc(p.approvals, a);
        VoteKeeps(s.book, id, p1);
        ExecuteKeeps(s.(book := Vote(s.book, id, p1)), now, id, balance);
      }
    }
  }

  ghost function WithRejection(s: State, a: Address, id: u64): State
    requires id in s.book.proposals
  {
    var p := s.book.proposals[id];
    s.(book := Vote(s.book, id, p.(rejections := p.rejections + [a])))
  }

  /** The states `reject_proposal` can end in. */
  lemma RejectCases(s: State, now: u64, a: Address, id: u64)
    ensures var (t, r) := RejectProposal(s, now, a, id);
      || (t == s && !r.Trap?)
      || (t == s && id in s.book.proposals && !s.book.proposals[id].executed
          && (s.book.stats.totalRejected == U64_MAX || s.book.stats.totalExpired == U64_MAX))
      || (&& id in s.book.proposals && !s.book.proposals[id].executed
          && var p := s.book.proposals[id];
             || (t, r) == ReportExpired(s, id)
             || (&& s.book.stats.totalRejected < U64_MAX
                 && t == s.(book := Drop(s.book, id, s.book.stats.(totalRejected := s.book.stats.totalRejected + 1)))
                 && r == Err(ProposalRejected))
             || (a !in p.approvals && a !in p.rejections && t == WithRejection(s, a, id) && r.Ok?))
  {
  }

  lemma RejectKeeps(s: State, now: u64, a: Address, id: u64)
    requires StateOk(s)
    ensures var (t, r) := RejectProposal(s, now, a, id);
            StateOk(t) && Unaccounted(t.book) == Unaccounted(s.book) && !r.Trap?
  {
    RejectCases(s, now, a, id);
    if id in s.book.proposals && !s.book.proposals[id].executed {
      var p := s.book.proposals[id];
      assert id in s.book.pending;
      ReportExpiredKeeps(s, id);
      DropKeeps(s.book, id, s.book.stats.(totalRejected := s.book.stats.totalRejected + 1));
      if a !in p.approvals && a !in p.rejections {
        DistinctSnoc(p.rejections, a);
        VoteKeeps(s.book, id, p.(rejections := p.rejections + [a]));
      }
    }
  }

  predicate IsCancellation(s: State, e: Event) {
    e.call.Cancel? && Step(s, e).1.Ok?
  }

  lemma CancelKeeps(s: State, a: Address, id: u64)
    requires StateOk(s)
    ensures var (t, r) := CancelProposal(s, a, id);
      StateOk(t) && Unaccounted(t.book) == Unaccounted(s.book) + (if r.Ok? then 1 else 0) && !r.Trap?
  {
    if CancelProposal(s, a, id).1.Ok? {
      assert id in s.book.pending;
      DropKeeps(s.book, id, s.book.stats);
    }
  }

  /** Direct administration cannot start an admin transfer, or change what is guarded, under multisig. */
  lemma DirectKeeps(g: Rules, e: Event)
    requires IsDirect(e.call)
    requires !g.initialized ==> g == NO_RULES
    requires g.multisig.Some? ==> g.initialized && g.transfer.None?
    ensures var (h, r) := DirectStep(g, e);
      && h.multisig == g.multisig && h.initialized == g.initialized
      && (h.multisig.Some? ==> h.transfer.None? && h.config == g.config && h.paused == g.paused
                               && h.emergencyMode == g.emergencyMode)
      && (!g.initialized ==> h == g)
      && (r.Trap? ==> e.call.ProposeTransfer?)
      && (!r.Ok? ==> h == g)
  {
  }

  lemma StepKeeps(s: State, e: Event)
    requires StateOk(s)
    ensures var (t, r) := Step(s, e);
      && StateOk(t)
      && Unaccounted(t.book) == Unaccounted(s.book) + (if IsCancellation(s, e) then 1 else 0)
      && (r.Trap? ==> e.call.Create? || e.call.InitMultisig? || e.call.ProposeTransfer?)
  {
    if IsDirect(e.call) {
      DirectKeeps(s.rules, e);
    } else {
      match e.call
      case Init(_, _) =>
      case InitMultisig(_, _, _) =>
      case Create(a, action) => CreateKeeps(s, e.now, a, action, e.balance);
      case Approve(a, id) => ApproveKeeps(s, e.now, a, id, e.balance);
      case Execute(id) => ExecuteKeeps(s, e.now, id, e.balance);
      case Reject(a, id) => RejectKeeps(s, e.now, a, id);
      case Cancel(a, id) => CancelKeeps(s, a, id);
      case Cleanup => ExpireAllKeeps(s.book, e.now, s.book.pending);
    }
  }

  // ---------------------------------------------------------------- every run

  function Cancellations(es: seq<Event>): nat {
    if es == [] then 0
    else
      var init := es[..|es| - 1];
      Cancellations(init) + if IsCancellation(Run(init), es[|es| - 1]) then 1 else 0
  }

  lemma {:induction false} RunKeeps(es: seq<Event>)
    ensures StateOk(Run(es))
    ensures Unaccounted(Run(es).book) == Cancellations(es)
  {
    if es != [] {
      var init := es[..|es| - 1];
      RunKeeps(init);
      StepKeeps(Run(init), es[|es| - 1]);
    }
  }

  /** The proposal map, the pending list, the statistics and the id counter agree after every run. */
  lemma ProposalBookkeeping(es: seq<Event>)
    ensures var b := Run(es).book;
      && Distinct(b.pending)
      && (forall id :: id in b.pending ==> id in b.proposals)
      && (forall id :: id in b.proposals && !b.proposals[id].executed ==> id in b.pending)
      && b.stats.pendingCount == |b.pending|
      && b.stats.totalCreated == b.counter
      && b.stats.totalCreated == b.stats.totalExecuted + b.stats.totalRejected + b.stats.totalExpired
                               + Cancellations(es) + b.stats.pendingCount
  {
    RunKeeps(es);
  }

  /** No statistic ever overflows: voting, executing, cancelling and cleaning up never trap, and creating a
      proposal traps only when the clock plus a configured duration, or the id counter, overflows. */
  lemma OnlyCreationTraps(es: seq<Event>, e: Event)
    requires Step(Run(es), e).1.Trap?
    ensures e.call.Create? || e.call.InitMultisig? || e.call.ProposeTransfer?
    ensures e.call.Create? ==>
      var s := Run(es);
      && s.rules.multisig.Some?
      && var c := s.rules.multisig.value;
         (|| e.now + c.proposalExpiryDuration > U64_MAX
          || (e.call.action.ClassifyType().RequiresTimeLock() && e.now + c.timeLockDuration > U64_MAX)
          || s.book.counter == U64_MAX)
  {
    RunKeeps(es);
    StepKeeps(Run(es), e);
    if e.call.Create? {
      CreateKeeps(Run(es), e.now, e.call.caller, e.call.action, e.balance);
    }
  }

  // ---------------------------------------------------------------- cleanup

  function LiveIds(b: Book, now: u64, ids: seq<u64>): seq<u64> {
    if ids == [] then []
    else
      var last := |ids| - 1;
      LiveIds(b, now, ids[..last]) + if IsExpired(b, now, ids[last]) then [] else [ids[last]]
  }

  /** What the cleanup loop has achieved once it is past the ids `done`. */
  ghost predicate Swept(b: Book, now: u64, done: seq<u64>, rest: seq<u64>, t: Book, r: Outcome<nat>) {
    && (forall id :: id in t.proposals <==> id in b.proposals && !(id in done && IsExpired(b, now, id)))
    && (forall id :: id in t.proposals ==> t.proposals[id] == b.proposals[id])
    && t.pending == LiveIds(b, now, done) + rest
    && (forall id :: id in LiveIds(b, now, done) ==> id in done)
    && |LiveIds(b, now, done)| <= |done|
    && r == Outcome.Ok(|done| - |LiveIds(b, now, done)|)
    && t.stats.totalExpired == b.stats.totalExpired + |done| - |LiveIds(b, now, done)|
  }

  lemma SweepOne(b: Book, now: u64, init: seq<u64>, id: u64, rest: seq<u64>, t: Book, r: Outcome<nat>)
    requires Swept(b, now, init, [id] + rest, t, r) && id !in init && id !in rest
    ensures IsExpired(t, now, id) <==> IsExpired(b, now, id)
    ensures !IsExpired(t, now, id) ==> Swept(b, now, init + [id], rest, t, r)
    ensures IsExpired(t, now, id) && t.stats.totalExpired < U64_MAX ==>
              Swept(b, now, init + [id], rest, ExpireOne(t, id).0, Outcome.Ok(r.value + 1))
  {
    assert (init + [id])[..|init|] == init;
    WithoutAround(LiveIds(b, now, init), id, rest);
    assert LiveIds(b, now, init) + ([id] + rest) == LiveIds(b, now, init) + [id] + rest;
  }

  lemma {:induction false} ExpireAllSweeps(b: Book, now: u64, done: seq<u64>, rest: seq<u64>)
    requires BookOk(b) && b.pending == done + rest
    ensures Swept(b, now, done, rest, ExpireAll(b, now, done).0, ExpireAll(b, now, done).1)
  {
    if done != [] {
      var last := |done| - 1;
      var id, init := done[last], done[..last];
      assert done == init + [id] && b.pending == init + ([id] + rest);
      DistinctAround(init, id, rest);
      ExpireAllSweeps(b, now, init, [id] + rest);
      SweepNext(b, now, init, id, rest);
    }
  }

  lemma SweepNext(b: Book, now: u64, init: seq<u64>, id: u64, rest: seq<u64>)
    requires BookOk(b) && id !in init && id !in rest
    requires Swept(b, now, init, [id] + rest, ExpireAll(b, now, init).0, ExpireAll(b, now, init).1)
    ensures Swept(b, now, init + [id], rest, ExpireAll(b, now, init + [id]).0, ExpireAll(b, now, init + [id]).1)
  {
    var (t, r) := ExpireAll(b, now, init);
    SweepHasRoom(b, now, init, id);
    ExpireAllSnoc(b, now, init, id);
    SweepOne(b, now, init, id, rest, t, r);
  }

  lemma ExpireAllSnoc(b: Book, now: u64, init: seq<u64>, id: u64)
    ensures var (b1, r1) := ExpireAll(b, now, init);
      r1.Ok? && (IsExpired(b1, now, id) ==> b1.stats.totalExpired < U64_MAX) ==>
        ExpireAll(b, now, init + [id])
        == if IsExpired(b1, now, id) then (ExpireOne(b1, id).0, Outcome.Ok(r1.value + 1)) else (b1, r1)
  {
    assert (init + [id])[..|init|] == init;
  }

  lemma SweepHasRoom(b: Book, now: u64, init: seq<u64>, id: u64)
    requires BookOk(b)
    ensures var b1 := ExpireAll(b, now, init).0;
      IsExpired(b1, now, id) ==> b1.stats.totalExpired < U64_MAX
  {
    ExpireAllKeeps(b, now, init);
    var b1 := ExpireAll(b, now, init).0;
    if IsExpired(b1, now, id) {
      ExpireOneKeeps(b1, id);
    }
  }

  lemma DistinctAround(a: seq<u64>, x: u64, c: seq<u64>)
    requires Distinct(a + ([x] + c))
    ensures x !in a && x !in c
  {
    var s := a + ([x] + c);
    assert s[|a|] == x;
    forall j | 0 <= j < |a| ensures a[j] != x {
      assert s[j] != s[|a|];
    }
    forall j | 0 <= j < |c| ensures c[j] != x {
      assert s[|a|] != s[|a| + 1 + j];
    }
  }

  lemma {:induction false} WithoutAround(a: seq<u64>, x: u64, c: seq<u64>)
    requires x !in a && x !in c
    ensures Without(a + ([x] + c), x) == a + c
  {
    if a == [] {
      assert a + ([x] + c) == [x] + c && ([x] + c)[1..] == c;
      WithoutAbsent(c, x);
      assert a + c == c;
    } else {
      assert (a + ([x] + c))[1..] == a[1..] + ([x] + c);
      WithoutAround(a[1..], x, c);
      assert a + c == [a[0]] + (a[1..] + c);
    }
  }

  /** `t` is `s` without the expired unexecuted proposals, the others in their old order, and `r` counts the drops. */
  ghost predicate Cleaned(s: State, now: u64, t: State, r: Outcome<nat>) {
    && t.rules == s.rules
    && t.book.counter == s.book.counter
    && (forall id :: id in t.book.proposals <==> id in s.book.proposals && !IsExpired(s.book, now, id))
    && (forall id :: id in t.book.proposals ==> t.book.proposals[id] == s.book.proposals[id])
    && t.book.pending == LiveIds(s.book, now, s.book.pending)
    && r == Outcome.Ok(|s.book.pending| - |t.book.pending|)
    && t.book.stats.pendingCount == |t.book.pending|
    && t.book.stats == s.book.stats.(totalExpired := t.book.stats.totalExpired,
                                     pendingCount := t.book.stats.pendingCount)
    && t.book.stats.totalExpired == s.book.stats.totalExpired + |s.book.pending| - |t.book.pending|
  }

  lemma CleanupCleans(s: State, now: u64)
    requires StateOk(s)
    ensures Cleaned(s, now, CleanupExpired(s, now).0, CleanupExpired(s, now).1)
  {
    var b := s.book;
    assert b.pending == b.pending + [];
    ExpireAllSweeps(b, now, b.pending, []);
    ExpireAllKeeps(b, now, b.pending);
    assert forall id :: IsExpired(b, now, id) ==> id in b.pending;
  }

  /** Cleanup drops exactly the expired unexecuted proposals, keeps the order of the others and counts the drops. */
  lemma CleanupIsExact(es: seq<Event>, now: u64)
    ensures Cleaned(Run(es), now, CleanupExpired(Run(es), now).0, CleanupExpired(Run(es), now).1)
    ensures var s, t := Run(es).book, CleanupExpired(Run(es), now).0.book;
      forall id :: id in t.proposals <==>
        id in s.proposals && (now <= s.proposals[id].expiry || s.proposals[id].executed)
  {
    RunKeeps(es);
    CleanupCleans(Run(es), now);
  }

  // ---------------------------------------------------------------- the contract's entry points

  ghost predicate AtomicOk(s: State) {
    && StateOk(s)
    && (forall id :: id in s.book.pending ==> !s.book.proposals[id].executed)
    && s.book.stats.totalRejected == 0
  }

  lemma ExecuteKeepsAtomic(s: State, now: u64, id: u64, balance: Option<i128>)
    requires AtomicOk(s) && ExecuteProposal(s, now, id, balance).1.Ok?
    ensures AtomicOk(ExecuteProposal(s, now, id, balance).0)
  {
    ExecuteKeeps(s, now, id, balance);
    WithoutMembers(s.book.pending, id);
  }

  lemma CreateKeepsAtomic(s: State, now: u64, a: Address, action: ProposalAction, balance: Option<i128>)
    requires AtomicOk(s) && CreateProposal(s, now, a, action, balance).1.Ok?
    ensures AtomicOk(CreateProposal(s, now, a, action, balance).0)
  {
    var p := NewProposal(s.rules.multisig.value, now, s.book.counter, a, action);
    NewProposalOk(s.rules.multisig.value, now, s.book.counter, a, action);
    EnqueueKeeps(s.book, p);
    var s1 := s.(book := Enqueue(s.book, p));
    assert AtomicOk(s1);
    if p.timeLockUntil.None? && |p.approvals| >= p.requiredSignatures {
      ExecuteKeepsAtomic(s1, now, s.book.counter, balance);
    }
  }

  lemma ApproveKeepsAtomic(s: State, now: u64, a: Address, id: u64, balance: Option<i128>)
    requires AtomicOk(s) && ApproveProposal(s, now, a, id, balance).1.Ok?
    ensures AtomicOk(ApproveProposal(s, now, a, id, balance).0)
  {
    var p := s.book.proposals[id];
    var p1 := p.(approvals := p.approvals + [a]);
    DistinctSnoc(p.approvals, a);
    VoteKeeps(s.book, id, p1);
    var s1 := s.(book := Vote(s.book, id, p1));
    assert AtomicOk(s1);
    if ReadyAt(p1, now) {
      ExecuteKeepsAtomic(s1, now, id, balance);
    }
  }

  lemma AtomicStepKeeps(s: State, e: Event)
    requires AtomicOk(s)
    ensures AtomicOk(AtomicStep(s, e))
  {
    StepKeeps(s, e);
    if !IsDirect(e.call) && Step(s, e).1.Ok? {
      match e.call
      case Create(a, action) => CreateKeepsAtomic(s, e.now, a, action, e.balance);
      case Approve(a, id) => ApproveKeepsAtomic(s, e.now, a, id, e.balance);
      case Execute(id) => ExecuteKeepsAtomic(s, e.now, id, e.balance);
      case Cancel(a, id) => WithoutMembers(s.book.pending, id);
      case Cleanup => ExpireAllKeeps(s.book, e.now, s.book.pending);
      case _ =>
    }
  }

  lemma {:induction false} AtomicRunKeeps(es: seq<Event>)
    ensures AtomicOk(AtomicRun(es))
  {
    if es != [] {
      AtomicRunKeeps(es[..|es| - 1]);
      AtomicStepKeeps(AtomicRun(es[..|es| - 1]), es[|es| - 1]);
    }
  }

  /** Behind the entry points, where a failed call is undone, the pending list is exactly the unexecuted
      proposals; and since crossing the rejection threshold reports an error, no rejection ever takes effect. */
  lemma AtomicBookkeeping(es: seq<Event>)
    ensures var b := AtomicRun(es).book;
      && Distinct(b.pending)
      && (forall id :: id in b.pending <==> id in b.proposals && !b.proposals[id].executed)
      && b.stats.pendingCount == |b.pending|
      && b.stats.totalRejected == 0
  {
    AtomicRunKeeps(es);
  }
}
