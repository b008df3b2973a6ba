/** The hub's compound entry points: batch issue, batch transfer and transfer with a royalty
    (contracts/manage_hub/src/membership_token.rs, batch.rs, royalty.rs). Each amounts to single calls, or to none. */
module HubEntryPoints {
  import opened Prelude
  import opened HubTypes
  import opened RenewalSpec
  import opened HubSpec
  import Fr = FractionProofs
  import UpP = UpgradeProofs

  /** `paused` is what the pause guard of that one token answers. */
  datatype TransferItem = TransferItem(id: TokenId, user: Address, paused: bool)

  datatype IssueItem = IssueItem(id: TokenId, user: Address, expiry: u64)

  // ---------------------------------------------------------------- operations

  /** The loop of `batch_transfer_tokens`; the first failure ends it. */
  function TransferEach(h: Hub, w: World, items: seq<TransferItem>): (Hub, Result<()>) {
    if items == [] then (h, Ok(()))
    else
      var last := items[|items| - 1];
      var (k, r) := TransferEach(h, w, items[..|items| - 1]);
      if r.Err? then (k, r) else TransferToken(k, w.(blocked := last.paused), last.id, last.user)
  }

  function BatchTransfer(h: Hub, w: World, items: seq<TransferItem>): (Hub, Result<()>) {
    if w.blocked then (h, Err(OperationsPaused))
    else
      var (k, r) := TransferEach(h, w, items);
      (if r.Ok? then k else h, r)
  }

  /** The loop of `batch_issue_tokens`. */
  function IssueEach(h: Hub, now: u64, w: World, items: seq<IssueItem>): (Hub, Result<()>) {
    if items == [] then (h, Ok(()))
    else
      var last := items[|items| - 1];
      var (k, r) := IssueEach(h, now, w, items[..|items| - 1]);
      if r.Err? then (k, r) else IssueToken(k, now, w, last.id, last.user, last.expiry)
  }

  function BatchIssue(h: Hub, now: u64, w: World, items: seq<IssueItem>): (Hub, Result<()>) {
    if w.blocked then (h, Err(OperationsPaused))
    else if h.admin.None? then (h, Err(AdminNotSet))
    else
      var (k, r) := IssueEach(h, now, w, items);
      (if r.Ok? then k else h, r)
  }

  /** What the royalties of one sale come to; None is an overflow, which ends the invocation. Nothing is stored. */
  function Royalties(price: i128, percentages: seq<u32>): Option<amount128> {
    if price <= 0 || percentages == [] then Some(0)
    else
      var r := Royalties(price, percentages[..|percentages| - 1]);
      var p := percentages[|percentages| - 1];
      if r.None? || price * p > I128_MAX then None
      else if r.value + price * p / 10_000 > I128_MAX then None
      else
        QuotientBound(price * p, 10_000);
        Some(r.value + price * p / 10_000)
  }

  datatype SaleResult = Done(result: Result<()>) | Trap

  /** `transfer_token_with_royalty`; `percentages` are the token's enabled royalties. */
  function SellToken(h: Hub, w: World, id: TokenId, user: Address, price: i128,
                     percentages: seq<u32>): (Hub, SaleResult) {
    var (k, r) := TransferToken(h, w, id, user);
    if r.Err? then (k, Done(r))
    else if Royalties(price, percentages).None? then (h, Trap)
    else (k, Done(r))
  }

  // ---------------------------------------------------------------- runs

  datatype EntryCall =
    | Single(call: Call)
    | TransferBatch(transfers: seq<TransferItem>)
    | IssueBatch(issues: seq<IssueItem>)
    | Sell(id: TokenId, user: Address, price: i128, percentages: seq<u32>)

  datatype EntryEvent = EntryEvent(now: u64, w: World, call: EntryCall)

  function EntryStep(h: Hub, e: EntryEvent): Hub {
    match e.call
    case Single(c) => Step(h, Event(e.now, e.w, c))
    case TransferBatch(items) => BatchTransfer(h, e.w, items).0
    case IssueBatch(items) => BatchIssue(h, e.now, e.w, items).0
    case Sell(id, user, price, percentages) => SellToken(h, e.w, id, user, price, percentages).0
  }

  function EntryRun(fs: seq<EntryEvent>): Hub {
    if fs == [] then EMPTY_HUB
    else EntryStep(EntryRun(fs[..|fs| - 1]), fs[|fs| - 1])
  }

  // ---------------------------------------------------------------- compound calls are single calls

  function TransferEvents(e: EntryEvent, items: seq<TransferItem>): seq<Event> {
    seq(|items|, i requires 0 <= i < |items| =>
      Event(e.now, e.w.(blocked := items[i].paused), DoTransfer(items[i].id, items[i].user)))
  }

  function IssueEvents(e: EntryEvent, items: seq<IssueItem>): seq<Event> {
    seq(|items|, i requires 0 <= i < |items| => Event(e.now, e.w, DoIssue(items[i].id, items[i].user, items[i].expiry)))
  }

  /** The single calls a compound one amounts to in state `h`. */
  function Singles(h: Hub, e: EntryEvent): seq<Event> {
    match e.call
    case Single(c) => [Event(e.now, e.w, c)]
    case TransferBatch(items) => if BatchTransfer(h, e.w, items).1.Ok? then TransferEvents(e, items) else []
    case IssueBatch(items) => if BatchIssue(h, e.now, e.w, items).1.Ok? then IssueEvents(e, items) else []
    case Sell(id, user, price, percentages) =>
      if SellToken(h, e.w, id, user, price, percentages).1 == Trap then []
      else [Event(e.now, e.w, DoTransfer(id, user))]
  }

  function Flattened(fs: seq<EntryEvent>): seq<Event> {
    if fs == [] then []
    else Flattened(fs[..|fs| - 1]) + Singles(EntryRun(fs[..|fs| - 1]), fs[|fs| - 1])
  }

  lemma {:induction false} TransfersAreRun(before: seq<Event>, e: EntryEvent, items: seq<TransferItem>)
    requires TransferEach(Run(before), e.w, items).1.Ok?
    ensures Run(before + TransferEvents(e, items)) == TransferEach(Run(before), e.w, items).0
  {
    if items == [] {
      assert before + TransferEvents(e, items) == before;
    } else {
      var init := items[..|items| - 1];
      TransfersAreRun(before, e, init);
      var all := TransferEvents(e, items);
      assert before + all == before + TransferEvents(e, init) + [all[|items| - 1]];
      UpP.RunSnoc(before + TransferEvents(e, init), all[|items| - 1]);
    }
  }

  lemma {:induction false} IssuesAreRun(before: seq<Event>, e: EntryEvent, items: seq<IssueItem>)
    requires IssueEach(Run(before), e.now, e.w, items).1.Ok?
    ensures Run(before + IssueEvents(e, items)) == IssueEach(Run(before), e.now, e.w, items).0
  {
    if items == [] {
      assert before + IssueEvents(e, items) == before;
    } else {
      var init := items[..|items| - 1];
      IssuesAreRun(before, e, init);
      var all := IssueEvents(e, items);
      assert before + all == before + IssueEvents(e, init) + [all[|items| - 1]];
      UpP.RunSnoc(before + IssueEvents(e, init), all[|items| - 1]);
    }
  }

  lemma SinglesAreRun(before: seq<Event>, e: EntryEvent)
    ensures Run(before + Singles(Run(before), e)) == EntryStep(Run(before), e)
  {
    assert before + [] == before;
    match e.call
    case Single(c) => UpP.RunSnoc(before, Event(e.now, e.w, c));
    case TransferBatch(items) =>
      if BatchTransfer(Run(before), e.w, items).1.Ok? {
        TransfersAreRun(before, e, items);
      }
    case IssueBatch(items) =>
      if BatchIssue(Run(before), e.now, e.w, items).1.Ok? {
        IssuesAreRun(before, e, items);
      }
    case Sell(id, user, _, _) => UpP.RunSnoc(before, Event(e.now, e.w, DoTransfer(id, user)));
  }

  /** A run with batches and sales is a run of single calls, so what holds after every run of those holds here too. */
  lemma {:induction false} EntryRunIsARun(fs: seq<EntryEvent>)
    ensures EntryRun(fs) == Run(Flattened(fs))
  {
    if fs != [] {
      var init := fs[..|fs| - 1];
      EntryRunIsARun(init);
      SinglesAreRun(Flattened(init), fs[|fs| - 1]);
    }
  }

  // ---------------------------------------------------------------- the frozen owner

  /** `id` is split in both hubs in the same way and belongs to the same account. */
  predicate SameSplit(h: Hub, k: Hub, id: TokenId) {
    && id in h.fr.info && id in k.fr.info && k.fr.info[id] == h.fr.info[id]
    && id in h.tokens && id in k.tokens && k.tokens[id].user == h.tokens[id].user
  }

  lemma {:induction false} NoRecombinationKeepsSplit(es: seq<Event>, more: seq<Event>, id: TokenId)
    requires id in Run(es).fr.info && forall i :: 0 <= i < |more| ==> !more[i].call.DoRecombine?
    ensures SameSplit(Run(es), Run(es + more), id)
  {
    if more == [] {
      assert es + more == es;
      Fr.SharesAreConserved(es);
    } else {
      var init, e := more[..|more| - 1], more[|more| - 1];
      NoRecombinationKeepsSplit(es, init, id);
      assert es + more == es + init + [e];
      UpP.RunSnoc(es + init, e);
      Fr.FractionalOwnerIsFrozen(es + init, e, id);
    }
  }

  /** `e` is the recombination of `id` by its sole holder, who becomes the owner. */
  predicate Recombines(h: Hub, e: EntryEvent, k: Hub, id: TokenId) {
    && e.call.Single? && e.call.call.DoRecombine? && e.call.call.id == id
    && id in h.fr.shares && h.fr.shares[id].Keys == {e.call.call.holder}
    && id in k.tokens && k.tokens[id].user == e.call.call.holder
  }

  lemma SingleFreezes(es: seq<Event>, e: EntryEvent, id: TokenId)
    requires e.call.Single? && id in Run(es).fr.info
    ensures SameSplit(Run(es), EntryStep(Run(es), e), id) || Recombines(Run(es), e, EntryStep(Run(es), e), id)
  {
    Fr.FractionalOwnerIsFrozen(es, Event(e.now, e.w, e.call.call), id);
  }

  lemma CompoundFreezes(es: seq<Event>, e: EntryEvent, id: TokenId)
    requires !e.call.Single? && id in Run(es).fr.info
    ensures SameSplit(Run(es), EntryStep(Run(es), e), id)
  {
    SinglesAreRun(es, e);
    NoRecombinationKeepsSplit(es, Singles(Run(es), e), id);
  }

  /** Over all entry points that touch tokens, batches and sales included: while a token is split its owner and its
      split stay as they are, until its sole holder recombines it and becomes the owner. */
  lemma EntryPointsFreezeTheOwner(fs: seq<EntryEvent>, e: EntryEvent, id: TokenId)
    requires id in EntryRun(fs).fr.info
    ensures var h, k := EntryRun(fs), EntryStep(EntryRun(fs), e);
      SameSplit(h, k, id) || Recombines(h, e, k, id)
  {
    EntryRunIsARun(fs);
    if e.call.Single? {
      SingleFreezes(Flattened(fs), e, id);
    } else {
      CompoundFreezes(Flattened(fs), e, id);
    }
  }

  /** A batch transfer is all or nothing, and a token listed once ends with the account listed for it. */
  lemma {:induction false} BatchTransferMoves(h: Hub, w: World, items: seq<TransferItem>, i: nat)
    requires i < |items| && TransferEach(h, w, items).1.Ok?
    requires forall j :: i < j < |items| ==> items[j].id != items[i].id
    ensures var k := TransferEach(h, w, items).0;
      items[i].id in k.tokens && k.tokens[items[i].id].user == items[i].user
  {
    if i < |items| - 1 {
      BatchTransferMoves(h, w, items[..|items| - 1], i);
      assert items[|items| - 1].id != items[i].id;
    }
  }
}
