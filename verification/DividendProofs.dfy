/** When a dividend distribution succeeds, and what all of them together leave pending. */
module DividendProofs {
  import opened Prelude
  import opened HubTypes
  import opened FractionSpec
  import opened HubSpec
  import opened LedgerSums
  import opened FractionProofs

  // ---------------------------------------------------------------- success

  /** Neither the product for a holder's portion nor its new balance overflows. */
  predicate Payable(rewards: Ledger, shares: Ledger, a: Address, amount: nat, whole: positive128) {
    && amount * Balance(shares, a) <= I128_MAX
    && Balance(rewards, a) + FloorOf(shares, a, amount, whole) <= I128_MAX
  }

  /** The payment loop succeeds exactly if every holder on the list can be paid: its running total never overflows. */
  lemma {:induction false} PaymentsSucceedExactly(rewards: Ledger, shares: Ledger, keys: seq<Address>, amount: i128,
                                                  whole: positive128)
    requires amount > 0 && Distinct(keys) && forall k :: k in keys ==> k in shares
    requires Floors(shares, keys, amount, whole) <= I128_MAX
    ensures PayHolders(rewards, shares, keys, amount, whole).Ok?
       <==> forall k :: k in keys ==> Payable(rewards, shares, k, amount, whole)
  {
    if keys != [] {
      var init, x := keys[..|keys| - 1], keys[|keys| - 1];
      assert keys == init + [x];
      ElementsSnoc(init, x);
      QuotientRemainder(amount * shares[x], whole);
      PaymentsSucceedExactly(rewards, shares, init, amount, whole);
      PaymentsAreExact(rewards, shares, init, amount, whole);
      PaymentStep(rewards, shares, init, x, amount, whole);
    }
  }

  lemma PaymentStep(rewards: Ledger, shares: Ledger, init: seq<Address>, x: Address, amount: i128, whole: positive128)
    requires amount > 0 && x in shares && x !in init && forall k :: k in init ==> k in shares
    requires Floors(shares, init + [x], amount, whole) <= I128_MAX
    requires var r := PayHolders(rewards, shares, init, amount, whole);
      r.Ok? ==> r.value.distributed == Floors(shares, init, amount, whole)
                && Balance(r.value.rewards, x) == Balance(rewards, x)
    ensures PayHolders(rewards, shares, init + [x], amount, whole).Ok?
       <==> PayHolders(rewards, shares, init, amount, whole).Ok? && Payable(rewards, shares, x, amount, whole)
  {
    assert (init + [x])[..|init|] == init;
    QuotientRemainder(amount * shares[x], whole);
  }

  /** Every holder can be paid, and the first one also what rounding leaves over. */
  ghost predicate Affordable(rewards: Ledger, shares: Ledger, amount: nat, whole: positive128)
    requires shares != map[] && forall a :: a in Ascending(shares.Keys) <==> a in shares
    requires |Ascending(shares.Keys)| > 0
  {
    var keys := Ascending(shares.Keys);
    && (forall k :: k in shares ==> Payable(rewards, shares, k, amount, whole))
    && Balance(rewards, keys[0]) + FloorOf(shares, keys[0], amount, whole)
       + (amount - Floors(shares, keys, amount, whole)) <= I128_MAX
  }

  lemma PayAllSucceedsExactly(rewards: Ledger, shares: Ledger, amount: i128, whole: positive128)
    requires amount > 0 && shares != map[] && Total(shares) == whole
    ensures |Ascending(shares.Keys)| > 0 && forall a :: a in Ascending(shares.Keys) <==> a in shares
    ensures PayAll(rewards, shares, amount, whole).Ok? <==> Affordable(rewards, shares, amount, whole)
  {
    var keys := Ascending(shares.Keys);
    AscendingLists(shares.Keys);
    KeysAreHolders(shares);
    SumOfAllKeys(shares);
    RoundingLoss(shares, keys, amount, whole);
    PaymentsSucceedExactly(rewards, shares, keys, amount, whole);
    PaymentsAreExact(rewards, shares, keys, amount, whole);
  }

  lemma NoSharesNoTotal(shares: Ledger)
    ensures Total(shares) > 0 ==> shares != map[]
  {
  }

  /** In every reachable state a distribution succeeds exactly for a positive amount, when there is an administrator,
      on a fractionalized token, and when no holder's portion or new balance overflows. */
  lemma DistributionSucceedsExactly(es: seq<Event>, now: u64, id: TokenId, amount: i128)
    ensures var h := Run(es);
      (id in h.fr.info ==>
         id in h.fr.shares && h.fr.shares[id] != map[] && |Ascending(h.fr.shares[id].Keys)| > 0
         && forall a :: a in Ascending(h.fr.shares[id].Keys) <==> a in h.fr.shares[id])
    ensures var h := Run(es);
      Distribute(h, now, id, amount).1.Ok? <==>
        && amount > 0 && h.admin.Some? && id in h.fr.info
        && Affordable(LedgerOf(h.fr.rewards, id), h.fr.shares[id], amount, h.fr.info[id].totalShares)
  {
    var h := Run(es);
    SharesAreConserved(es);
    if id in h.fr.info {
      var shares := h.fr.shares[id];
      NoSharesNoTotal(shares);
      AscendingLists(shares.Keys);
      if amount > 0 {
        PayAllSucceedsExactly(LedgerOf(h.fr.rewards, id), shares, amount, h.fr.info[id].totalShares);
      }
    }
  }

  // ---------------------------------------------------------------- conservation over runs

  /** What was distributed to the holders of `id` since the token was last split. */
  function Distributed(es: seq<Event>, id: TokenId): nat {
    if es == [] then 0
    else
      var init, e := es[..|es| - 1], es[|es| - 1];
      match e.call
      case DoDistribute(d, amount) =>
        if d == id && amount > 0 && Distribute(Run(init), e.now, id, amount).1.Ok? then Distributed(init, id) + amount
        else Distributed(init, id)
      case DoRecombine(r, holder) =>
        if r == id && Recombine(Run(init), id, holder).1.Ok? then 0 else Distributed(init, id)
      case _ => Distributed(init, id)
  }

  lemma OthersKeepRewards(h: Hub, e: Event)
    requires !e.call.DoDistribute? && !e.call.DoRecombine?
    ensures Step(h, e).fr.rewards == h.fr.rewards
  {
    if !IsFractionCall(e.call) {
      OthersAreOutside(h, e);
    }
  }

  /** Between `h` and `k` the pending rewards of `id` grow by `amount`, and nothing else changes. */
  ghost predicate AddsRewards(h: Hub, k: Hub, id: TokenId, amount: int) {
    && k == h.(fr := h.fr.(rewards := k.fr.rewards))
    && Total(LedgerOf(k.fr.rewards, id)) == Total(LedgerOf(h.fr.rewards, id)) + amount
    && (forall j :: j != id ==> LedgerOf(k.fr.rewards, j) == LedgerOf(h.fr.rewards, j))
  }

  lemma DistributionTotals(es: seq<Event>, now: u64, id: TokenId, amount: i128)
    requires Distribute(Run(es), now, id, amount).1.Ok?
    ensures amount > 0 && AddsRewards(Run(es), Distribute(Run(es), now, id, amount).0, id, amount)
  {
    DividendsAreExact(es, now, id, amount);
  }

  lemma DistributionStep(h: Hub, e: Event)
    requires e.call.DoDistribute?
    ensures var (k, r) := Distribute(h, e.now, e.call.id, e.call.amount);
      Step(h, e) == k && (!r.Ok? ==> k == h)
  {
  }

  lemma RecombinationDiscards(h: Hub, e: Event, id: TokenId)
    requires e.call.DoRecombine?
    ensures var k := Step(h, e);
      if e.call.id == id && Recombine(h, id, e.call.holder).1.Ok?
      then id !in k.fr.rewards && id !in k.fr.info && Total(LedgerOf(k.fr.rewards, id)) == 0
      else LedgerOf(k.fr.rewards, id) == LedgerOf(h.fr.rewards, id) && (id in k.fr.info <==> id in h.fr.info)
  {
  }

  /** After every run the pending rewards of a token's holders add up to everything distributed since it was split: a
      distribution adds exactly its amount, a recombination discards exactly what is pending, no other call of the hub
      touches them, and a token that is not split has none. */
  lemma {:induction false} RewardsAreConserved(es: seq<Event>, id: TokenId)
    ensures Total(LedgerOf(Run(es).fr.rewards, id)) == Distributed(es, id)
    ensures id !in Run(es).fr.info ==> id !in Run(es).fr.rewards && Distributed(es, id) == 0
  {
    PendingIsDistributed(es, id);
    SharesAreConserved(es);
    NothingPending(Run(es), id);
  }

  lemma {:induction false} PendingIsDistributed(es: seq<Event>, id: TokenId)
    ensures Total(LedgerOf(Run(es).fr.rewards, id)) == Distributed(es, id)
  {
    if es == [] {
      NothingPending(Run(es), id);
    } else {
      var init, e := es[..|es| - 1], es[|es| - 1];
      PendingIsDistributed(init, id);
      if e.call.DoDistribute? {
        DistributionStep(Run(init), e);
        if Distribute(Run(init), e.now, e.call.id, e.call.amount).1.Ok? {
          DistributionTotals(init, e.now, e.call.id, e.call.amount);
        }
      } else if e.call.DoRecombine? {
        RecombinationDiscards(Run(init), e, id);
      } else {
        OthersKeepRewards(Run(init), e);
      }
    }
  }

  lemma NothingPending(h: Hub, id: TokenId)
    ensures id !in h.fr.rewards ==> Total(LedgerOf(h.fr.rewards, id)) == 0
  {
  }
}
