/** When the multisig configuration can still be changed through the contract's entry points. */
module GovernanceOpenness {
  import opened Prelude
  import opened GovernanceTypes
  import opened GovernanceSpec
  import opened GovernanceLedger
  import opened GovernanceSafety
  import opened GovernanceEntryPoints
  import opened GovernanceConfig

  function AdminSet(c: MultiSigConfig): set<Address> {
    set a | a in c.admins
  }

  /** The admins of `c` who have not voted on `p`. */
  function Undecided(c: MultiSigConfig, p: Proposal): set<Address> {
    set a | a in c.admins && !HasVoted(p, a)
  }

  /** Executing `action` under `c` leaves another configuration. */
  predicate Rewrites(c: MultiSigConfig, action: ProposalAction) {
    match action
    case UpdateMultisigConfig(d) => d.Validate() && d != c
    case AddAdmin(a) => a !in c.admins
    case RemoveAdmin(a) => |c.admins| > c.emergencyThreshold && a in c.admins
    case _ => false
  }

  /** The open proposal `p` would change the configuration, has not expired, is not locked beyond its expiry, and the
      admins who have not voted, of whom there is one, can make up its threshold. */
  predicate CanPass(c: MultiSigConfig, p: Proposal, now: u64) {
    && !p.executed && Rewrites(c, p.action)
    && now <= p.expiry && (p.timeLockUntil.Some? ==> p.timeLockUntil.value <= p.expiry)
    && Undecided(c, p) != {} && |p.approvals| + |Undecided(c, p)| >= p.requiredSignatures
  }

  /** Under `c` a new critical proposal can be made and passed: there are two admins, and as many different ones as
      the critical threshold asks for; the time-lock does not outlast the expiry; and the expiry fits the clock. */
  predicate Governable(c: MultiSigConfig, now: u64) {
    && |AdminSet(c)| >= 2 && |AdminSet(c)| >= c.criticalThreshold
    && c.timeLockDuration <= c.proposalExpiryDuration && now + c.proposalExpiryDuration <= U64_MAX
    && c.maxPendingProposals > 0
  }

  ghost predicate Open(s: State, now: u64) {
    && s.rules.multisig.Some?
    && var c := s.rules.multisig.value;
       || (Governable(c, now) && s.book.counter < U64_MAX)
       || exists id :: id in s.book.proposals && CanPass(c, s.book.proposals[id], now)
  }

  /** Entry-point calls at or after `now`, under a clock that does not run back. */
  ghost predicate Continues(more: seq<Event>, now: u64) {
    && (forall i :: 0 <= i < |more| ==> !more[i].call.Execute? && now <= more[i].now)
    && (forall i, j :: 0 <= i < j < |more| ==> more[i].now <= more[j].now)
  }

  lemma RewritesExactly(g: Rules, action: ProposalAction, balance: Option<i128>)
    requires g.multisig.Some?
    ensures var (h, r) := RunAction(g, action, balance);
      && (h.multisig != g.multisig <==> Rewrites(g.multisig.value, action))
      && (Rewrites(g.multisig.value, action) ==> r.Ok?)
  {
    var c := g.multisig.value;
    match action
    case AddAdmin(a) => assert |c.admins + [a]| != |c.admins|;
    case RemoveAdmin(a) =>
      WithoutMembers(c.admins, a);
      if a !in c.admins {
        WithoutAbsent(c.admins, a);
      }
    case _ =>
  }

  // ---------------------------------------------------------------- closed stays closed

  /** A vote that decides on a rewriting proposal needed a proposal that could pass. */
  lemma DecidedCouldPass(s: State, e: Event, id: u64, now: u64)
    requires s.rules.multisig.Some? && id in s.book.proposals && now <= e.now
    requires DecidingVote(s, e, id) && Rewrites(s.rules.multisig.value, s.book.proposals[id].action)
    ensures CanPass(s.rules.multisig.value, s.book.proposals[id], now)
  {
    var undecided := Undecided(s.rules.multisig.value, s.book.proposals[id]);
    assert e.call.caller in undecided;
    assert |undecided - {e.call.caller}| == |undecided| - 1;
  }

  /** What a creation executes at once is not time-locked. */
  lemma CreationExecutesUnlocked(s: State, e: Event, id: u64)
    requires StateOk(s) && e.call.Create? && id !in s.book.proposals
    requires Executed(Step(s, e).0.book, id)
    ensures !Step(s, e).0.book.proposals[id].action.ClassifyType().RequiresTimeLock()
  {
    var a, action := e.call.caller, e.call.action;
    CreateCases(s, e.now, a, action, e.balance);
    ExecuteCases(WithNew(s, e.now, a, action), e.now, s.book.counter, e.balance);
  }

  lemma ClosedKeepsConfiguration(s: State, e: Event, now: u64)
    requires StateOk(s) && s.rules.multisig.Some? && !Open(s, now) && now <= e.now && !e.call.Execute?
    ensures AtomicStep(s, e).rules.multisig == s.rules.multisig
  {
    var t := Step(s, e).0;
    if AtomicStep(s, e) == t && t.rules.multisig != s.rules.multisig {
      StepRatchets(s, e);
      var id :| Flips(s.book, t.book, id)
             && GovernedOf(t.rules) == GovernedOf(RunAction(s.rules, t.book.proposals[id].action, e.balance).0);
      StepIsLegal(s, e, id);
      RewritesExactly(s.rules, t.book.proposals[id].action, e.balance);
      if id in s.book.proposals {
        if e.call.Approve? {
          ApprovalExecutesExactly(s, e, id);
          DecidedCouldPass(s, e, id, now);
        } else {
          OthersExecuteNothingStored(s, e, id);
        }
      } else {
        CreationExecutesUnlocked(s, e, id);
        OnlyTimeLockedActionsTouchMultisig(s.rules, t.book.proposals[id].action, e.balance);
      }
    }
  }

  /** `q` is `p` with at most one more vote, by an admin who had not voted. */
  ghost predicate OneVoteMore(c: MultiSigConfig, p: Proposal, q: Proposal) {
    || q == p || q.executed
    || exists a :: a in Undecided(c, p)
         && (q == p.(approvals := p.approvals + [a]) || q == p.(rejections := p.rejections + [a]))
  }

  lemma ApprovalAddsOneVote(s: State, e: Event, id: u64)
    requires StateOk(s) && s.rules.multisig.Some? && e.call.Approve?
    requires id in s.book.proposals && id in AtomicStep(s, e).book.proposals
    ensures OneVoteMore(s.rules.multisig.value, s.book.proposals[id], AtomicStep(s, e).book.proposals[id])
  {
    var a, v := e.call.caller, e.call.id;
    if v in s.book.proposals && AtomicStep(s, e) != s {
      ExecuteCases(WithApproval(s, a, v), e.now, v, e.balance);
      if v == id {
        assert a in Undecided(s.rules.multisig.value, s.book.proposals[id]);
      }
    }
  }

  lemma OthersAddOneVote(s: State, e: Event, id: u64)
    requires StateOk(s) && s.rules.multisig.Some? && !e.call.Execute? && !e.call.Approve?
    requires id in s.book.proposals && id in AtomicStep(s, e).book.proposals
    ensures OneVoteMore(s.rules.multisig.value, s.book.proposals[id], AtomicStep(s, e).book.proposals[id])
  {
    if !IsDirect(e.call) {
      match e.call
      case Create(a, action) =>
        CreateCases(s, e.now, a, action, e.balance);
        ExecuteCases(WithNew(s, e.now, a, action), e.now, s.book.counter, e.balance);
      case Reject(a, v) =>
        if v == id && AtomicStep(s, e) != s {
          assert a in Undecided(s.rules.multisig.value, s.book.proposals[id]);
        }
      case Cleanup => ExpireAllKeeps(s.book, e.now, s.book.pending);
      case _ =>
    }
  }

  lemma VotingNeverHelps(c: MultiSigConfig, p: Proposal, q: Proposal, now: u64, later: u64)
    requires OneVoteMore(c, p, q) && now <= later && CanPass(c, q, later)
    ensures CanPass(c, p, now)
  {
    if q != p {
      var a :| a in Undecided(c, p)
            && (q == p.(approvals := p.approvals + [a]) || q == p.(rejections := p.rejections + [a]));
      assert Undecided(c, q) == Undecided(c, p) - {a};
      assert |Undecided(c, q)| == |Undecided(c, p)| - 1;
    }
  }

  /** A new proposal can pass only if the configuration is governable. */
  lemma NewCanPassOnlyIfGovernable(s: State, e: Event, id: u64)
    requires StateOk(s) && s.rules.multisig.Some? && !e.call.Execute?
    requires id !in s.book.proposals && id in AtomicStep(s, e).book.proposals
    requires CanPass(s.rules.multisig.value, AtomicStep(s, e).book.proposals[id], e.now)
    ensures Governable(s.rules.multisig.value, e.now) && s.book.counter < U64_MAX
  {
    StepIsLegal(s, e, id);
    var a, action, c := e.call.caller, e.call.action, s.rules.multisig.value;
    CreateCases(s, e.now, a, action, e.balance);
    ExecuteCases(WithNew(s, e.now, a, action), e.now, s.book.counter, e.balance);
    var p := NewProposal(c, e.now, id, a, action);
    assert AtomicStep(s, e).book.proposals[id] == p;
    assert Undecided(c, p) == AdminSet(c) - {a};
  }

  lemma ClosedStep(s: State, e: Event, now: u64)
    requires StateOk(s) && s.rules.multisig.Some? && !Open(s, now) && now <= e.now && !e.call.Execute?
    ensures AtomicStep(s, e).rules.multisig == s.rules.multisig && !Open(AtomicStep(s, e), e.now)
  {
    var c, t := s.rules.multisig.value, AtomicStep(s, e);
    ClosedKeepsConfiguration(s, e, now);
    StepIsLegal(s, e, 0);
    forall id | id in t.book.proposals ensures !CanPass(c, t.book.proposals[id], e.now) {
      if CanPass(c, t.book.proposals[id], e.now) {
        if id !in s.book.proposals {
          NewCanPassOnlyIfGovernable(s, e, id);
        } else {
          if e.call.Approve? {
            ApprovalAddsOneVote(s, e, id);
          } else {
            OthersAddOneVote(s, e, id);
          }
          VotingNeverHelps(c, s.book.proposals[id], t.book.proposals[id], now, e.now);
        }
      }
    }
  }

  lemma {:induction false} ClosedForever(es: seq<Event>, more: seq<Event>, now: u64)
    requires AtomicRun(es).rules.multisig.Some? && !Open(AtomicRun(es), now) && Continues(more, now)
    ensures AtomicRun(es + more).rules.multisig == AtomicRun(es).rules.multisig
    ensures !Open(AtomicRun(es + more), if more == [] then now else more[|more| - 1].now)
  {
    if more == [] {
      assert es + more == es;
    } else {
      var init, e := more[..|more| - 1], more[|more| - 1];
      ClosedForever(es, init, now);
      assert es + more == es + init + [e];
      AtomicRunSnoc(es + init, e);
      AtomicRunKeeps(es + init);
      ClosedStep(AtomicRun(es + init), e, if init == [] then now else init[|init| - 1].now);
    }
  }

  // ---------------------------------------------------------------- open can be used

  lemma ApprovalActs(s: State, a: Address, id: u64, t: u64)
    requires StateOk(s) && s.rules.multisig.Some? && a in s.rules.multisig.value.admins
    requires id in s.book.proposals && !s.book.proposals[id].executed && t <= s.book.proposals[id].expiry
    requires !HasVoted(s.book.proposals[id], a) && Rewrites(s.rules.multisig.value, s.book.proposals[id].action)
    ensures var p := s.book.proposals[id];
      var u := AtomicStep(s, Event(t, Approve(a, id), None));
      if ReadyAt(p.(approvals := p.approvals + [a]), t) then u.rules == RunAction(s.rules, p.action, None).0
      else u == WithApproval(s, a, id)
  {
    var s1 := WithApproval(s, a, id);
    WithApprovalOk(s, a, id);
    RewritesExactly(s.rules, s.book.proposals[id].action, None);
    ExecuteKeeps(s1, t, id, None);
  }

  /** At `t`, in its window, `voters` have not voted on the rewriting proposal `id` and can make up its threshold. */
  ghost predicate MayPass(s: State, id: u64, t: u64, voters: seq<Address>) {
    && s.rules.multisig.Some? && id in s.book.proposals
    && var c, p := s.rules.multisig.value, s.book.proposals[id];
       && !p.executed && Rewrites(c, p.action) && t <= p.expiry
       && (p.timeLockUntil.Some? ==> p.timeLockUntil.value <= t)
       && Distinct(voters) && (forall a :: a in voters ==> a in c.admins && !HasVoted(p, a))
       && voters != [] && |p.approvals| + |voters| >= p.requiredSignatures
  }

  lemma NextMayPass(s: State, id: u64, t: u64, voters: seq<Address>)
    requires MayPass(s, id, t, voters)
    requires |s.book.proposals[id].approvals| + 1 < s.book.proposals[id].requiredSignatures
    ensures MayPass(WithApproval(s, voters[0], id), id, t, voters[1..])
  {
    var rest := voters[1..];
    forall i, j | 0 <= i < j < |rest| ensures rest[i] != rest[j] {
      assert voters[i + 1] != voters[j + 1];
    }
    forall i | 0 <= i < |rest| ensures rest[i] != voters[0] && rest[i] in voters {
      assert voters[i + 1] != voters[0];
    }
  }

  /** The votes of `voters`, cast at `t`, until the proposal is executed. */
  lemma {:induction false} VotesPass(es: seq<Event>, id: u64, t: u64, voters: seq<Address>) returns (more: seq<Event>)
    requires MayPass(AtomicRun(es), id, t, voters)
    ensures AtomicRun(es + more).rules.multisig != AtomicRun(es).rules.multisig
    ensures forall i :: 0 <= i < |more| ==> more[i].call.Approve? && more[i].now == t
    decreases |voters|
  {
    var s, a := AtomicRun(es), voters[0];
    var e := Event(t, Approve(a, id), None);
    AtomicRunKeeps(es);
    AtomicRunSnoc(es, e);
    ApprovalActs(s, a, id, t);
    if |s.book.proposals[id].approvals| + 1 >= s.book.proposals[id].requiredSignatures {
      RewritesExactly(s.rules, s.book.proposals[id].action, None);
      more := [e];
    } else {
      NextMayPass(s, id, t, voters);
      var later := VotesPass(es + [e], id, t, voters[1..]);
      more := [e] + later;
      assert es + more == es + [e] + later;
    }
  }

  lemma PassableChanges(es: seq<Event>, now: u64, id: u64) returns (more: seq<Event>)
    requires AtomicRun(es).rules.multisig.Some? && id in AtomicRun(es).book.proposals
    requires CanPass(AtomicRun(es).rules.multisig.value, AtomicRun(es).book.proposals[id], now)
    ensures Continues(more, now) && AtomicRun(es + more).rules.multisig != AtomicRun(es).rules.multisig
  {
    var c, p := AtomicRun(es).rules.multisig.value, AtomicRun(es).book.proposals[id];
    AscendingLists(Undecided(c, p));
    var t: u64 := if p.timeLockUntil.Some? then Max(now, p.timeLockUntil.value) else now;
    more := VotesPass(es, id, t, Ascending(Undecided(c, p)));
  }

  /** Every proposer withdraws, at `now`, what is still pending. */
  lemma {:induction false} ClearPending(es: seq<Event>, now: u64) returns (more: seq<Event>)
    ensures var s, t := AtomicRun(es), AtomicRun(es + more);
      t.rules == s.rules && t.book.counter == s.book.counter && t.book.pending == []
    ensures forall i :: 0 <= i < |more| ==> more[i].call.Cancel? && more[i].now == now
    decreases |AtomicRun(es).book.pending|
  {
    var s := AtomicRun(es);
    AtomicRunKeeps(es);
    if s.book.pending == [] {
      more := [];
      assert es + more == es;
    } else {
      var id := s.book.pending[0];
      var e := Event(now, Cancel(s.book.proposals[id].proposer, id), None);
      AtomicRunSnoc(es, e);
      WithoutKeepsDistinct(s.book.pending, id);
      var rest := ClearPending(es + [e], now);
      more := [e] + rest;
      assert es + more == es + [e] + rest;
    }
  }

  /** A valid configuration with the admins of `c` that is not `c`. */
  function Another(c: MultiSigConfig): MultiSigConfig {
    MultiSigConfig(c.admins, 1, 1, 1, 1, if c.maxPendingProposals == 1 then 2 else 1, 1)
  }

  lemma CreationActs(s: State, now: u64, a: Address)
    requires StateOk(s) && s.rules.multisig.Some? && a in s.rules.multisig.value.admins
    requires Governable(s.rules.multisig.value, now) && s.book.counter < U64_MAX && s.book.pending == []
    ensures var c := s.rules.multisig.value;
      AtomicStep(s, Event(now, Create(a, UpdateMultisigConfig(Another(c))), None))
      == s.(book := Enqueue(s.book, NewProposal(c, now, s.book.counter, a, UpdateMultisigConfig(Another(c)))))
  {
  }

  lemma NewCanPass(c: MultiSigConfig, now: u64, id: u64, a: Address)
    requires Governable(c, now) && a in c.admins
    ensures CanPass(c, NewProposal(c, now, id, a, UpdateMultisigConfig(Another(c))), now)
  {
    var p := NewProposal(c, now, id, a, UpdateMultisigConfig(Another(c)));
    assert Undecided(c, p) == AdminSet(c) - {a};
  }

  /** With nothing pending, an admin proposes another configuration, and the others pass it. */
  lemma GovernableChangesFromClear(es: seq<Event>, now: u64) returns (more: seq<Event>)
    requires var s := AtomicRun(es);
      && s.rules.multisig.Some? && Governable(s.rules.multisig.value, now)
      && s.book.counter < U64_MAX && s.book.pending == []
    ensures Continues(more, now) && AtomicRun(es + more).rules.multisig != AtomicRun(es).rules.multisig
  {
    var s := AtomicRun(es);
    var c := s.rules.multisig.value;
    assert AdminSet(c) != {};
    var a :| a in AdminSet(c);
    var e := Event(now, Create(a, UpdateMultisigConfig(Another(c))), None);
    AtomicRunKeeps(es);
    CreationActs(s, now, a);
    AtomicRunSnoc(es, e);
    NewCanPass(c, now, s.book.counter, a);
    var votes := PassableChanges(es + [e], now, s.book.counter);
    more := [e] + votes;
    assert es + more == es + [e] + votes;
  }

  lemma GovernableChanges(es: seq<Event>, now: u64) returns (more: seq<Event>)
    requires AtomicRun(es).rules.multisig.Some? && Governable(AtomicRun(es).rules.multisig.value, now)
    requires AtomicRun(es).book.counter < U64_MAX
    ensures Continues(more, now) && AtomicRun(es + more).rules.multisig != AtomicRun(es).rules.multisig
  {
    var cleared := ClearPending(es, now);
    var rest := GovernableChangesFromClear(es + cleared, now);
    more := cleared + rest;
    assert es + more == es + cleared + rest;
  }

  /** The multisig configuration can still change exactly while governance is open: from any reachable state, some
      calls of the entry points change it if and only if a new critical proposal can be made and passed, or one that
      would change it is already stored and can still pass. A sole admin, fewer different admins than the critical
      threshold, a time-lock that outlasts the expiry, or an expiry beyond the clock close it for good. */
  lemma ConfigurationCanChangeExactly(es: seq<Event>, now: u64)
    requires AtomicRun(es).rules.multisig.Some?
    ensures (exists more :: Continues(more, now) && AtomicRun(es + more).rules.multisig != AtomicRun(es).rules.multisig)
       <==> Open(AtomicRun(es), now)
  {
    if Open(AtomicRun(es), now) {
      var c := AtomicRun(es).rules.multisig.value;
      if Governable(c, now) && AtomicRun(es).book.counter < U64_MAX {
        var more := GovernableChanges(es, now);
      } else {
        var id :| id in AtomicRun(es).book.proposals && CanPass(c, AtomicRun(es).book.proposals[id], now);
        var more := PassableChanges(es, now, id);
      }
    } else {
      forall more | Continues(more, now)
        ensures AtomicRun(es + more).rules.multisig == AtomicRun(es).rules.multisig
      {
        ClosedForever(es, more, now);
      }
    }
  }
}
