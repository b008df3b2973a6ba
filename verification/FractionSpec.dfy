/** Fractional ownership and dividends as functions on the hub's storage
    (contracts/manage_hub/src/fractionalization.rs). A failed invocation leaves no writes. */
module FractionSpec {
  import opened Prelude
  import opened HubTypes

  function Fractionalize(h: Hub, now: u64, id: TokenId, totalShares: i128, minSize: i128): (Hub, Result<()>) {
    if totalShares <= 1 then (h, Err(InvalidPaymentAmount))
    else if minSize <= 0 || minSize > totalShares then (h, Err(InvalidPaymentAmount))
    else if totalShares % minSize != 0 then (h, Err(InvalidPaymentAmount))
    else if id in h.fr.info then (h, Err(TokenFractionalized))
    else if id !in h.tokens then (h, Err(TokenNotFound))
    else if h.tokens[id].status != Active then (h, Err(TokenExpired))
    else
      var user := h.tokens[id].user;
      (h.(fr := h.fr.(info := h.fr.info[id := FractionInfo(totalShares, minSize, now, user)],
                      shares := h.fr.shares[id := map[user := totalShares]])),
       Ok(()))
  }

  /** The balances after `amount` shares move, as `transfer_fraction` computes them: sender first, then receiver. */
  function Move(shares: Ledger, from: Address, to: Address, amount: positive128): Ledger
    requires from in shares && amount <= shares[from]
    requires Balance(Debit(shares, from, amount), to) + amount <= I128_MAX
  {
    var debited := Debit(shares, from, amount);
    debited[to := Balance(debited, to) + amount]
  }

  function Debit(shares: Ledger, from: Address, amount: positive128): Ledger
    requires from in shares && amount <= shares[from]
  {
    if shares[from] == amount then shares - {from} else shares[from := shares[from] - amount]
  }

  function TransferFraction(h: Hub, id: TokenId, from: Address, to: Address, amount: i128): (Hub, Result<()>) {
    if id !in h.fr.info then (h, Err(TokenNotFound))
    else
      var minSize := h.fr.info[id].minFractionSize;
      if amount <= 0 then (h, Err(InvalidPaymentAmount))
      else if amount < minSize then (h, Err(InvalidPaymentAmount))
      else if amount % minSize != 0 then (h, Err(InvalidPaymentAmount))
      else if id !in h.fr.shares then (h, Err(TokenNotFound))
      else
        var shares := h.fr.shares[id];
        if from !in shares then (h, Err(Unauthorized))
        else if shares[from] < amount then (h, Err(InsufficientBalance))
        else
          var remaining := shares[from] - amount;
          if 0 < remaining < minSize then (h, Err(InvalidPaymentAmount))
          else if Balance(Debit(shares, from, amount), to) + amount > I128_MAX then (h, Err(TimestampOverflow))
          else (h.(fr := h.fr.(shares := h.fr.shares[id := Move(shares, from, to, amount)])), Ok(()))
  }

  function Recombine(h: Hub, id: TokenId, holder: Address): (Hub, Result<()>) {
    if id !in h.fr.info then (h, Err(TokenNotFound))
    else if id !in h.fr.shares then (h, Err(TokenNotFound))
    else if holder !in h.fr.shares[id] then (h, Err(Unauthorized))
    else if h.fr.shares[id][holder] != h.fr.info[id].totalShares then (h, Err(Unauthorized))
    else if id !in h.tokens then (h, Err(TokenNotFound))
    else
      (h.(tokens := h.tokens[id := h.tokens[id].(user := holder)],
          fr := Fractions(h.fr.info - {id}, h.fr.shares - {id}, h.fr.rewards - {id})),
       Ok(()))
  }

  /** `amount * share / totalShares` with the checked multiplication. */
  function Portion(amount: i128, share: amount128, totalShares: positive128): Result<amount128>
    requires amount > 0
  {
    if amount * share > I128_MAX then Err(TimestampOverflow)
    else
      QuotientBound(amount * share, totalShares);
      Ok(amount * share / totalShares)
  }

  datatype Payout = Payout(rewards: Ledger, distributed: amount128)

  /** The loop of `distribute_fraction_rewards` over the holders, in key order. */
  function PayHolders(rewards: Ledger, shares: Ledger, keys: seq<Address>, amount: i128,
                      totalShares: positive128): Result<Payout>
    requires amount > 0
    requires forall k :: k in keys ==> k in shares
  {
    if keys == [] then Ok(Payout(rewards, 0))
    else
      var last := |keys| - 1;
      var r := PayHolders(rewards, shares, keys[..last], amount, totalShares);
      if r.Err? then r
      else
        var p := Portion(amount, shares[keys[last]], totalShares);
        if p.Err? then Err(p.error)
        else if r.value.distributed + p.value > I128_MAX then Err(TimestampOverflow)
        else if Balance(r.value.rewards, keys[last]) + p.value > I128_MAX then Err(TimestampOverflow)
        else
          Ok(Payout(r.value.rewards[keys[last] := Balance(r.value.rewards, keys[last]) + p.value],
                    r.value.distributed + p.value))
  }

  lemma KeysAreHolders(shares: Ledger)
    ensures forall k :: k in Ascending(shares.Keys) ==> k in shares
    ensures |Ascending(shares.Keys)| == |shares|
  {
    AscendingLists(shares.Keys);
  }

  /** The rewards map one distribution leaves behind. */
  function PayAll(rewards: Ledger, shares: Ledger, amount: i128, totalShares: positive128): Result<Ledger>
    requires amount > 0 && shares != map[]
  {
    KeysAreHolders(shares);
    var keys := Ascending(shares.Keys);
    var r := PayHolders(rewards, shares, keys, amount, totalShares);
    if r.Err? then Err(r.error)
    else if amount - r.value.distributed <= 0 then Ok(r.value.rewards)
    else
      var remainder := amount - r.value.distributed;
      if Balance(r.value.rewards, keys[0]) + remainder > I128_MAX then Err(TimestampOverflow)
      else Ok(r.value.rewards[keys[0] := Balance(r.value.rewards, keys[0]) + remainder])
  }

  function Distribute(h: Hub, now: u64, id: TokenId, amount: i128): (Hub, Result<DividendDistribution>) {
    if amount <= 0 then (h, Err(InvalidPaymentAmount))
    else if h.admin.None? then (h, Err(AdminNotSet))
    else if id !in h.fr.info || id !in h.fr.shares then (h, Err(TokenNotFound))
    else if h.fr.shares[id] == map[] then (h, Err(Unauthorized))
    else
      var r := PayAll(LedgerOf(h.fr.rewards, id), h.fr.shares[id], amount, h.fr.info[id].totalShares);
      if r.Err? then (h, Err(r.error))
      else
        (h.(fr := h.fr.(rewards := h.fr.rewards[id := r.value])),
         Ok(DividendDistribution(amount, |h.fr.shares[id]|, now)))
  }

  /** The loop of `get_fraction_holders`. */
  function HoldersOf(shares: Ledger, keys: seq<Address>, totalShares: positive128): Result<seq<FractionHolder>>
    requires forall k :: k in keys ==> k in shares
  {
    if keys == [] then Ok([])
    else
      var last := |keys| - 1;
      var r := HoldersOf(shares, keys[..last], totalShares);
      if r.Err? then r
      else
        var share := shares[keys[last]];
        if share * 10_000 > I128_MAX then Err(TimestampOverflow)
        else Ok(r.value + [FractionHolder(keys[last], share, share * 10_000 / totalShares % 0x1_0000_0000)])
  }
}
