/** Conservation of fractional shares, exact dividends and the frozen owner, over every run of the hub. */
module FractionProofs {
  import opened Prelude
  import opened HubTypes
  import opened FractionSpec
  import opened HubSpec
  import opened LedgerSums
  import Up = UpgradeSpec

  /** The shares add up to the whole, in positive multiples of the smallest fraction. */
  ghost predicate SharesOk(info: FractionInfo, shares: Ledger) {
    && info.totalShares > 1
    && info.totalShares % info.minFractionSize == 0
    && Total(shares) == info.totalShares
    && (forall a :: a in shares ==> shares[a] > 0 && shares[a] % info.minFractionSize == 0)
  }

  ghost predicate FractionsOk(h: Hub) {
    && h.fr.shares.Keys == h.fr.info.Keys
    && h.fr.rewards.Keys <= h.fr.info.Keys
    && (forall id :: id in h.fr.info ==>
          && SharesOk(h.fr.info[id], h.fr.shares[id])
          && id in h.tokens && h.tokens[id].user == h.fr.info[id].createdBy)
  }

  // ---------------------------------------------------------------- moving shares

  lemma DebitShares(info: FractionInfo, shares: Ledger, from: Address, amount: positive128)
    requires SharesOk(info, shares) && from in shares && amount <= shares[from] && amount % info.minFractionSize == 0
    ensures var d := Debit(shares, from, amount);
      && Total(d) == info.totalShares - amount
      && (forall a :: a in d ==> d[a] > 0 && d[a] % info.minFractionSize == 0)
      && (forall a :: Balance(d, a) == Balance(shares, a) - (if a == from then amount else 0))
    ensures shares[from] - amount > 0 ==> shares[from] - amount >= info.minFractionSize
  {
    MultiplesCombine(shares[from], amount, info.minFractionSize);
    TotalAfterRemoval(shares, from);
    if amount < shares[from] {
      TotalAfterUpdate(shares, from, shares[from] - amount);
      MultiplesCombine(shares[from] - amount, amount, info.minFractionSize);
    }
  }

  lemma CreditShares(info: FractionInfo, d: Ledger, to: Address, amount: positive128)
    requires info.totalShares > 1 && info.totalShares % info.minFractionSize == 0
    requires Total(d) == info.totalShares - amount && amount % info.minFractionSize == 0
    requires forall a :: a in d ==> d[a] > 0 && d[a] % info.minFractionSize == 0
    ensures Balance(d, to) + amount <= I128_MAX
    ensures SharesOk(info, d[to := Balance(d, to) + amount])
  {
    TotalAfterUpdate(d, to, 0);
    MultiplesCombine(Balance(d, to), amount, info.minFractionSize);
    TotalAfterUpdate(d, to, Balance(d, to) + amount);
  }

  /** Moving a legal amount never meets the guards against small remainders and overflow, keeps the total and the
      divisibility, and changes exactly the two balances, or none when a holder pays itself. */
  lemma MoveShares(info: FractionInfo, shares: Ledger, from: Address, to: Address, amount: positive128)
    requires SharesOk(info, shares) && from in shares && amount <= shares[from] && amount % info.minFractionSize == 0
    ensures !(0 < shares[from] - amount < info.minFractionSize)
    ensures Balance(Debit(shares, from, amount), to) + amount <= I128_MAX
    ensures SharesOk(info, Move(shares, from, to, amount))
    ensures forall a :: Balance(Move(shares, from, to, amount), a)
                     == Balance(shares, a) - (if a == from then amount else 0) + (if a == to then amount else 0)
  {
    DebitShares(info, shares, from, amount);
    CreditShares(info, Debit(shares, from, amount), to, amount);
  }

  // ---------------------------------------------------------------- the invariant

  lemma SplitOk(totalShares: positive128, minSize: positive128, user: Address, now: u64)
    requires totalShares > 1 && totalShares % minSize == 0
    ensures SharesOk(FractionInfo(totalShares, minSize, now, user), map[user := totalShares])
  {
    var m: Ledger := map[];
    TotalAfterUpdate(m, user, totalShares);
    assert m[user := totalShares] == map[user := totalShares];
  }

  lemma MoveKeeps(h: Hub, id: TokenId, from: Address, to: Address, amount: i128)
    requires FractionsOk(h)
    ensures FractionsOk(TransferFraction(h, id, from, to, amount).0)
  {
    var (k, r) := TransferFraction(h, id, from, to, amount);
    if r.Ok? {
      MoveShares(h.fr.info[id], h.fr.shares[id], from, to, amount);
      assert k.fr.shares.Keys == h.fr.shares.Keys;
    }
  }

  lemma FractionalizeKeeps(h: Hub, now: u64, id: TokenId, totalShares: i128, minSize: i128)
    requires FractionsOk(h)
    ensures FractionsOk(Fractionalize(h, now, id, totalShares, minSize).0)
  {
    var (k, r) := Fractionalize(h, now, id, totalShares, minSize);
    if r.Ok? {
      SplitOk(totalShares, minSize, h.tokens[id].user, now);
      assert k.fr.shares.Keys == k.fr.info.Keys;
    }
  }

  lemma RecombineKeeps(h: Hub, id: TokenId, holder: Address)
    requires FractionsOk(h)
    ensures FractionsOk(Recombine(h, id, holder).0)
  {
    var (k, r) := Recombine(h, id, holder);
    if r.Ok? {
      assert k.fr.info.Keys == h.fr.info.Keys - {id};
      assert k.fr.shares.Keys == h.fr.shares.Keys - {id};
      assert k.fr.rewards.Keys == h.fr.rewards.Keys - {id};
    }
  }

  lemma DistributeKeeps(h: Hub, now: u64, id: TokenId, amount: i128)
    requires FractionsOk(h)
    ensures FractionsOk(Distribute(h, now, id, amount).0)
  {
  }

  /** A call outside this component leaves the fractions alone and, unless it transfers an unfractionalized token,
      the owners too. */
  ghost predicate OutsideStep(h: Hub, k: Hub) {
    && k.fr == h.fr
    && (forall id :: id in h.fr.info && id in h.tokens ==> id in k.tokens && k.tokens[id].user == h.tokens[id].user)
  }

  lemma {:induction false} BatchIsOutside(h: Hub, now: u64, admin: Address, ids: seq<TokenId>,
                                          versionLabel: Option<string>, newExpiry: Option<u64>)
    ensures OutsideStep(h, Up.BatchLoop(h, now, admin, ids, versionLabel, newExpiry).0)
  {
    if ids != [] {
      BatchIsOutside(h, now, admin, ids[..|ids| - 1], versionLabel, newExpiry);
    }
  }

  lemma VersionsAreOutside(h: Hub, e: Event)
    requires IsVersionCall(e.call)
    ensures OutsideStep(h, Step(h, e))
  {
    match e.call
    case DoBatch(a, ids, l, x) => BatchIsOutside(h, e.now, a, ids, l, x);
    case _ =>
  }

  lemma RenewalsAreOutside(h: Hub, e: Event)
    requires IsRenewalCall(e.call)
    ensures OutsideStep(h, Step(h, e))
  {
  }

  lemma OthersAreOutside(h: Hub, e: Event)
    requires !IsFractionCall(e.call)
    ensures OutsideStep(h, Step(h, e))
  {
    if IsVersionCall(e.call) {
      VersionsAreOutside(h, e);
    } else if IsRenewalCall(e.call) {
      RenewalsAreOutside(h, e);
    }
  }

  lemma StepKeeps(h: Hub, e: Event)
    requires FractionsOk(h)
    ensures FractionsOk(Step(h, e))
  {
    match e.call
    case DoFractionalize(id, n, m) => FractionalizeKeeps(h, e.now, id, n, m);
    case DoMoveFraction(id, from, to, amount) => MoveKeeps(h, id, from, to, amount);
    case DoRecombine(id, holder) => RecombineKeeps(h, id, holder);
    case DoDistribute(id, amount) => DistributeKeeps(h, e.now, id, amount);
    case _ => OthersAreOutside(h, e);
  }

  /** In every run, the shares of a fractionalized token add up to its total, each holder has a positive multiple of
      the smallest fraction, and the token still belongs to whoever fractionalized it. */
  lemma {:induction false} SharesAreConserved(es: seq<Event>)
    ensures FractionsOk(Run(es))
  {
    if es != [] {
      SharesAreConserved(es[..|es| - 1]);
      StepKeeps(Run(es[..|es| - 1]), es[|es| - 1]);
    }
  }

  // ---------------------------------------------------------------- what each operation guarantees

  /** A transfer of shares succeeds exactly for a positive multiple of the smallest fraction that the sender holds:
      the code's guards against small remainders and overflow never fire. */
  lemma TransferSucceedsExactly(es: seq<Event>, id: TokenId, from: Address, to: Address, amount: i128)
    ensures var h := Run(es);
      var (k, r) := TransferFraction(h, id, from, to, amount);
      && (r.Ok? <==>
            && id in h.fr.info && amount > 0 && amount % h.fr.info[id].minFractionSize == 0
            && id in h.fr.shares && from in h.fr.shares[id] && amount <= h.fr.shares[id][from])
      && (r.Ok? ==>
            && id in k.fr.shares
            && forall a :: Balance(k.fr.shares[id], a) == Balance(h.fr.shares[id], a)
                             - (if a == from then amount else 0) + (if a == to then amount else 0))
  {
    var h := Run(es);
    SharesAreConserved(es);
    if id in h.fr.info && amount > 0 && amount % h.fr.info[id].minFractionSize == 0 {
      MultiplesCombine(amount, 0, h.fr.info[id].minFractionSize);
      if from in h.fr.shares[id] && amount <= h.fr.shares[id][from] {
        MoveShares(h.fr.info[id], h.fr.shares[id], from, to, amount);
      }
    }
  }

  /** Recombination succeeds exactly for a sole holder, and hands the token to that holder. */
  lemma RecombinesExactlyForTheSoleHolder(es: seq<Event>, id: TokenId, holder: Address)
    ensures var h := Run(es);
      var (k, r) := Recombine(h, id, holder);
      && (r.Ok? <==> id in h.fr.shares && h.fr.shares[id].Keys == {holder})
      && (r.Ok? ==> id in k.tokens && k.tokens[id].user == holder
                    && id !in k.fr.info && id !in k.fr.shares && id !in k.fr.rewards)
  {
    var h := Run(es);
    SharesAreConserved(es);
    if id in h.fr.shares && holder in h.fr.shares[id] {
      SoleHolder(h.fr.shares[id], holder);
    }
  }

  /** While a token is fractionalized no single call of the hub changes its owner or how it is split; only its sole
      holder ends that state, and becomes the owner. Batches and sales are single calls: HubEntryPoints. */
  lemma FractionalOwnerIsFrozen(es: seq<Event>, e: Event, id: TokenId)
    requires id in Run(es).fr.info
    ensures var h, k := Run(es), Step(Run(es), e);
      && id in h.tokens && id in k.tokens && id in h.fr.shares
      && (|| (id in k.fr.info && k.fr.info[id] == h.fr.info[id] && k.tokens[id].user == h.tokens[id].user)
          || (&& e.call.DoRecombine? && e.call.id == id && h.fr.shares[id].Keys == {e.call.holder}
              && k.tokens[id].user == e.call.holder))
  {
    SharesAreConserved(es);
    if !IsFractionCall(e.call) {
      OthersAreOutside(Run(es), e);
    } else if e.call.DoRecombine? {
      RecombinesExactlyForTheSoleHolder(es, e.call.id, e.call.holder);
    }
  }

  /** `e` hands the token to a new owner: a permitted transfer, or recombination by the sole holder. */
  predicate HandsOver(h: Hub, e: Event, id: TokenId)
    requires id in h.tokens
  {
    var movable := !e.w.blocked && id !in h.fr.info && h.tokens[id].status == Active;
    match e.call
    case DoTransfer(t, _) => t == id && movable
    case DoTransferFrom(t, owner, _, amount, refusal) =>
      t == id && movable && amount > 0 && owner == h.tokens[id].user && refusal.None?
    case DoRecombine(t, holder) => t == id && id in h.fr.shares && h.fr.shares[id].Keys == {holder}
    case _ => false
  }

  function Receiver(c: Call): Address
    requires c.DoTransfer? || c.DoTransferFrom? || c.DoRecombine?
  {
    match c
    case DoTransfer(_, user) => user
    case DoTransferFrom(_, _, user, _, _) => user
    case DoRecombine(_, holder) => holder
  }

  lemma TransfersHandOver(h: Hub, e: Event, id: TokenId)
    requires id in h.tokens && (e.call.DoTransfer? || e.call.DoTransferFrom?)
    ensures id in Step(h, e).tokens
    ensures Step(h, e).tokens[id].user == if HandsOver(h, e, id) then Receiver(e.call) else h.tokens[id].user
  {
  }

  lemma VersionsKeepOwner(h: Hub, e: Event, id: TokenId)
    requires id in h.tokens && IsVersionCall(e.call)
    ensures id in Step(h, e).tokens && Step(h, e).tokens[id].user == h.tokens[id].user
  {
    match e.call
    case DoBatch(a, ids, l, x) => BatchKeepsOwner(h, e.now, a, ids, l, x, id);
    case _ =>
  }

  lemma {:induction false} BatchKeepsOwner(h: Hub, now: u64, admin: Address, ids: seq<TokenId>,
                                           versionLabel: Option<string>, newExpiry: Option<u64>, id: TokenId)
    requires id in h.tokens
    ensures var k := Up.BatchLoop(h, now, admin, ids, versionLabel, newExpiry).0;
      id in k.tokens && k.tokens[id].user == h.tokens[id].user
  {
    if ids != [] {
      BatchKeepsOwner(h, now, admin, ids[..|ids| - 1], versionLabel, newExpiry, id);
    }
  }

  lemma OthersKeepOwner(h: Hub, e: Event, id: TokenId)
    requires id in h.tokens && !IsVersionCall(e.call)
    requires !e.call.DoTransfer? && !e.call.DoTransferFrom? && !e.call.DoRecombine?
    ensures id in Step(h, e).tokens && Step(h, e).tokens[id].user == h.tokens[id].user
  {
  }

  /** In every reachable state and for every single call of the hub, a token's owner afterwards is the receiver of a
      permitted transfer, the sole holder who recombines it, and otherwise the owner before. */
  lemma OwnersChangeExactly(es: seq<Event>, e: Event, id: TokenId)
    requires id in Run(es).tokens
    ensures var h, k := Run(es), Step(Run(es), e);
      id in k.tokens && k.tokens[id].user == if HandsOver(h, e, id) then Receiver(e.call) else h.tokens[id].user
  {
    if IsVersionCall(e.call) {
      VersionsKeepOwner(Run(es), e, id);
    } else if e.call.DoTransfer? || e.call.DoTransferFrom? {
      TransfersHandOver(Run(es), e, id);
    } else if e.call.DoRecombine? {
      RecombinesExactlyForTheSoleHolder(es, e.call.id, e.call.holder);
    } else {
      OthersKeepOwner(Run(es), e, id);
    }
  }

  // ---------------------------------------------------------------- dividends

  /** What a holder's portion of `amount` is, rounded down. */
  function FloorOf(shares: Ledger, a: Address, amount: nat, whole: positive128): nat {
    QuotientBound(amount * Balance(shares, a), whole);
    amount * Balance(shares, a) / whole
  }

  lemma {:induction false} PaymentsAreExact(rewards: Ledger, shares: Ledger, keys: seq<Address>, amount: i128,
                                            whole: positive128)
    requires amount > 0 && Distinct(keys) && forall k :: k in keys ==> k in shares
    ensures var r := PayHolders(rewards, shares, keys, amount, whole);
      r.Ok? ==>
        && r.value.distributed == Floors(shares, keys, amount, whole)
        && Total(r.value.rewards) == Total(rewards) + r.value.distributed
        && forall a :: Balance(r.value.rewards, a) == Balance(rewards, a)
                         + (if a in keys then FloorOf(shares, a, amount, whole) else 0)
  {
    if keys != [] {
      var init, x := keys[..|keys| - 1], keys[|keys| - 1];
      assert keys == init + [x];
      ElementsSnoc(init, x);
      PaymentsAreExact(rewards, shares, init, amount, whole);
      var r := PayHolders(rewards, shares, init, amount, whole);
      if PayHolders(rewards, shares, keys, amount, whole).Ok? {
        FirstTakesRest(r.value.rewards, x, FloorOf(shares, x, amount, whole));
      }
    }
  }

  /** One distribution of `amount` turns `before` into `after`: every holder gets its portion rounded down, the first
      holder in key order also gets what rounding left over, which is less than one unit per holder, and the sum of
      all pending rewards grows by exactly `amount`. */
  ghost predicate PaidOut(before: Ledger, after: Ledger, shares: Ledger, amount: nat, whole: positive128) {
    && shares.Keys != {}
    && (forall a :: a in Ascending(shares.Keys) ==> a in shares)
    && var keys := Ascending(shares.Keys);
       |keys| > 0
       && var leftover := amount - Floors(shares, keys, amount, whole);
          && 0 <= leftover < |keys|
          && Total(after) == Total(before) + amount
          && (forall a :: Balance(after, a) == Balance(before, a) + FloorOf(shares, a, amount, whole)
                                               + (if a == keys[0] then leftover else 0))
  }

  lemma PayAllIsExact(rewards: Ledger, shares: Ledger, amount: i128, whole: positive128)
    requires amount > 0 && shares != map[] && Total(shares) == whole
    requires PayAll(rewards, shares, amount, whole).Ok?
    ensures PaidOut(rewards, PayAll(rewards, shares, amount, whole).value, shares, amount, whole)
  {
    var keys := Ascending(shares.Keys);
    AscendingLists(shares.Keys);
    KeysAreHolders(shares);
    SumOfAllKeys(shares);
    PaymentsAreExact(rewards, shares, keys, amount, whole);
    RoundingLoss(shares, keys, amount, whole);
    var paid := PayHolders(rewards, shares, keys, amount, whole).value;
    LeftoverSettles(rewards, paid.rewards, PayAll(rewards, shares, amount, whole).value, shares, amount, whole);
  }

  /** From the rounded payments, `paid`, to the full distribution. */
  lemma LeftoverSettles(before: Ledger, paid: Ledger, after: Ledger, shares: Ledger, amount: nat, whole: positive128)
    requires shares != map[] && forall a :: a in Ascending(shares.Keys) <==> a in shares
    requires var keys := Ascending(shares.Keys);
      var leftover := amount - Floors(shares, keys, amount, whole);
      && 0 <= leftover < |keys|
      && Total(paid) == Total(before) + amount - leftover
      && (forall a :: Balance(paid, a) == Balance(before, a)
                        + (if a in keys then FloorOf(shares, a, amount, whole) else 0))
      && Balance(paid, keys[0]) + leftover <= I128_MAX
      && after == if leftover > 0 then paid[keys[0] := Balance(paid, keys[0]) + leftover] else paid
    ensures PaidOut(before, after, shares, amount, whole)
  {
    var keys := Ascending(shares.Keys);
    FirstTakesRest(paid, keys[0], amount - Floors(shares, keys, amount, whole));
    NoSharesNoFloor(shares, keys, amount, whole);
  }

  lemma FirstTakesRest(rewards: Ledger, first: Address, leftover: nat)
    requires Balance(rewards, first) + leftover <= I128_MAX
    ensures Total(rewards[first := Balance(rewards, first) + leftover]) == Total(rewards) + leftover
  {
    TotalAfterUpdate(rewards, first, Balance(rewards, first) + leftover);
  }

  lemma NoSharesNoFloor(shares: Ledger, keys: seq<Address>, amount: nat, whole: positive128)
    requires forall a :: a in shares ==> a in keys
    ensures forall a :: a !in keys ==> FloorOf(shares, a, amount, whole) == 0
  {
    forall a | a !in keys ensures FloorOf(shares, a, amount, whole) == 0 {
      QuotientUnique(0, whole, 0, 0);
    }
  }

  /** Dividend distribution is exact after every run. */
  lemma DividendsAreExact(es: seq<Event>, now: u64, id: TokenId, amount: i128)
    requires Distribute(Run(es), now, id, amount).1.Ok?
    ensures var h := Run(es);
      var k := Distribute(h, now, id, amount).0;
      && amount > 0 && id in h.fr.info && id in h.fr.shares && id in k.fr.rewards
      && PaidOut(LedgerOf(h.fr.rewards, id), k.fr.rewards[id], h.fr.shares[id], amount, h.fr.info[id].totalShares)
      && k == h.(fr := h.fr.(rewards := h.fr.rewards[id := k.fr.rewards[id]]))
  {
    var h := Run(es);
    SharesAreConserved(es);
    PayAllIsExact(LedgerOf(h.fr.rewards, id), h.fr.shares[id], amount, h.fr.info[id].totalShares);
  }

  // ---------------------------------------------------------------- voting power

  lemma {:induction false} HoldersListFloors(shares: Ledger, keys: seq<Address>, whole: positive128)
    requires forall k :: k in keys ==> k in shares && shares[k] <= whole
    ensures var r := HoldersOf(shares, keys, whole);
      r.Ok? ==>
        && |r.value| == |keys|
        && PowerSum(r.value) == Floors(shares, keys, 10_000, whole)
        && forall i :: 0 <= i < |keys| ==>
             && r.value[i].holder == keys[i] && r.value[i].shares == shares[keys[i]]
             && r.value[i].votingPowerBps <= 10_000
  {
    if keys != [] {
      var init, x := keys[..|keys| - 1], keys[|keys| - 1];
      HoldersListFloors(shares, init, whole);
      PowerWithinScale(shares[x], whole);
      var hs, r := HoldersOf(shares, init, whole), HoldersOf(shares, keys, whole);
      if r.Ok? {
        assert r.value[..|init|] == hs.value;
      }
    }
  }

  /** A part of the whole has between 0 and 10000 basis points of it, so narrowing them to 32 bits loses nothing. */
  lemma PowerWithinScale(share: nat, whole: positive128)
    requires share <= whole
    ensures 0 <= share * 10_000 / whole <= 10_000
    ensures share * 10_000 / whole % 0x1_0000_0000 == share * 10_000 / whole == 10_000 * share / whole
  {
    QuotientMonotone(share * 10_000, whole * 10_000, whole);
    QuotientUnique(whole * 10_000, whole, 10_000, 0);
  }

  function PowerSum(hs: seq<FractionHolder>): nat {
    if hs == [] then 0 else PowerSum(hs[..|hs| - 1]) + hs[|hs| - 1].votingPowerBps
  }

  lemma BalanceWithinTotal(m: Ledger)
    ensures forall a :: a in m ==> m[a] <= Total(m)
  {
    forall a | a in m ensures m[a] <= Total(m) {
      TotalAfterUpdate(m, a, 0);
    }
  }

  /** The voting powers `get_fraction_holders` lists, one entry per holder in key order, add up to 10000 basis points
      but for less than one point per holder. */
  lemma VotingPowerAddsUp(es: seq<Event>, id: TokenId)
    requires id in Run(es).fr.info
    ensures var h := Run(es);
      && id in h.fr.shares && (forall a :: a in Ascending(h.fr.shares[id].Keys) ==> a in h.fr.shares[id])
      && var r := HoldersOf(h.fr.shares[id], Ascending(h.fr.shares[id].Keys), h.fr.info[id].totalShares);
         r.Ok? ==> |r.value| == |h.fr.shares[id]| && PowerSum(r.value) <= 10_000 < PowerSum(r.value) + |r.value|
  {
    var h := Run(es);
    SharesAreConserved(es);
    var shares, whole := h.fr.shares[id], h.fr.info[id].totalShares;
    AscendingLists(shares.Keys);
    SumOfAllKeys(shares);
    BalanceWithinTotal(shares);
    HoldersListFloors(shares, Ascending(shares.Keys), whole);
    RoundingLoss(shares, Ascending(shares.Keys), 10_000, whole);
  }
}
