/** What the metadata calls leave: when each of them succeeds, what a token's metadata and its entries in the index are
    afterwards, and that after any run they are those of the last calls that touched them. */
module MetadataEffects {
  import opened Prelude
  import opened MetadataSpec
  import opened MetadataProofs

  /** One successful change of the metadata of a token, by its owner at that time. */
  datatype Change =
    | Put(description: string, attributes: Attributes)
    | Merge(updates: Attributes)
    | Drop(keys: seq<string>)

  datatype Write = Write(time: u64, author: Address, change: Change)

  // ---------------------------------------------------------------- single calls

  ghost predicate Fits(description: string, attributes: Attributes) {
    && |description| <= 500 && |attributes| <= 20
    && (forall k :: k in attributes ==> FitsOne(k, attributes[k]))
  }

  ghost predicate FitsOne(name: string, value: MetadataValue) {
    |name| <= 50 && (value.Text? ==> |value.text| <= 200)
  }

  function VersionOf(s: Store, id: TokenId): nat {
    if id in s.metadata then s.metadata[id].version else 0
  }

  ghost predicate Settable(s: Store, id: TokenId, description: string, attributes: Attributes) {
    id in s.owners && VersionOf(s, id) < 0xFFFF_FFFF && Fits(description, attributes)
  }

  ghost predicate Updatable(s: Store, id: TokenId, updates: Attributes) {
    && id in s.owners && id in s.metadata && s.metadata[id].version < 0xFFFF_FFFF
    && (forall k :: k in updates ==> FitsOne(k, updates[k]))
    && Fits(s.metadata[id].description, s.metadata[id].attributes + updates)
  }

  ghost predicate Removable(s: Store, id: TokenId) {
    id in s.owners && id in s.metadata && s.metadata[id].version < 0xFFFF_FFFF
  }

  /** `name` is an attribute of `attributes` with the value `value`. */
  predicate Has(attributes: Attributes, name: string, value: MetadataValue) {
    name in attributes && attributes[name] == value
  }

  /** `b` is what the change makes of the description and attributes of `a`. */
  ghost predicate Changed(a: TokenMetadata, b: TokenMetadata, change: Change) {
    match change
    case Put(description, attributes) => b.description == description && b.attributes == attributes
    case Merge(updates) =>
      && b.description == a.description
      && (forall k, v :: Has(b.attributes, k, v) <==> Has(updates, k, v) || (k !in updates && Has(a.attributes, k, v)))
    case Drop(keys) =>
      && b.description == a.description
      && (forall k, v :: Has(b.attributes, k, v) <==> k !in keys && Has(a.attributes, k, v))
  }

  /** The entry of the update history for a change; removals leave none. */
  ghost predicate Recorded(before: seq<MetadataUpdate>, after: seq<MetadataUpdate>, m: TokenMetadata, w: Write) {
    match w.change
    case Put(_, given) => after == before + [MetadataUpdate(m.version, w.time, w.author, m.description, given)]
    case Merge(updates) => after == before + [MetadataUpdate(m.version, w.time, w.author, m.description, updates)]
    case Drop(_) => after == before
  }

  /** `t` differs from `s` by the change `w` of the metadata of `id`, and by what this means for the index. */
  ghost predicate Applied(s: Store, t: Store, id: TokenId, w: Write) {
    && t == s.(metadata := t.metadata, index := t.index, history := t.history)
    && id in t.metadata
    && var m := t.metadata[id];
    && (w.change.Put? || id in s.metadata)
    && m.version == VersionOf(s, id) + 1 && m.lastUpdated == w.time && m.updatedBy == w.author
    && Changed(if id in s.metadata then s.metadata[id] else m, m, w.change)
    && Recorded(HistoryOf(s, id), HistoryOf(t, id), m, w)
    && (forall x :: x != id ==> HistoryOf(t, x) == HistoryOf(s, x) && (x in t.metadata <==> x in s.metadata))
    && (forall x :: x != id && x in s.metadata ==> t.metadata[x] == s.metadata[x])
  }

  /** Queries list `id` for exactly its attributes in `t`, and every other token for the same as in `s`. */
  ghost predicate Reindexed(s: Store, t: Store, id: TokenId) {
    && id in t.metadata
    && (forall name, value :: id in Query(t, name, value) <==> Has(t.metadata[id].attributes, name, value))
    && (forall name, value, x :: x != id ==> (x in Query(t, name, value) <==> x in Query(s, name, value)))
  }

  lemma IndexFollows(s: Store, t: Store, id: TokenId, w: Write)
    requires IndexOk(s) && IndexOk(t) && Applied(s, t, id, w)
    ensures Reindexed(s, t, id)
  {
    forall name, value ensures id in Query(t, name, value) <==> Has(t.metadata[id].attributes, name, value) {
      assert id in Lookup(t.index, (name, value)) <==> Matches(t, id, (name, value));
    }
    forall name, value, x | x != id ensures x in Query(t, name, value) <==> x in Query(s, name, value) {
      assert x in Lookup(t.index, (name, value)) <==> Matches(t, x, (name, value));
      assert x in Lookup(s.index, (name, value)) <==> Matches(s, x, (name, value));
    }
  }

  lemma SetApplies(s: Store, now: u64, id: TokenId, description: string, attributes: Attributes)
    ensures var (t, r) := SetMetadata(s, now, id, description, attributes);
      && (r == Ok <==> Settable(s, id, description, attributes))
      && (r == Ok ==> Applied(s, t, id, Write(now, s.owners[id], Put(description, attributes))))
      && (r != Ok ==> t == s)
  {
  }

  /** Setting metadata succeeds exactly for an issued token, within the bounds of 500 characters of description, 20
      attributes, 50 characters of a name and 200 of a text, unless the version is used up; it leaves exactly the given
      description and attributes, and queries list the token for exactly these. */
  lemma SetLeaves(s: Store, now: u64, id: TokenId, description: string, attributes: Attributes)
    requires IndexOk(s)
    ensures var (t, r) := SetMetadata(s, now, id, description, attributes);
      && (r == Ok <==> Settable(s, id, description, attributes))
      && (r == Ok ==> Applied(s, t, id, Write(now, s.owners[id], Put(description, attributes))) && Reindexed(s, t, id))
      && (r != Ok ==> t == s)
  {
    var (t, r) := SetMetadata(s, now, id, description, attributes);
    SetApplies(s, now, id, description, attributes);
    SetKeeps(s, now, id, description, attributes);
    if r == Ok {
      IndexFollows(s, t, id, Write(now, s.owners[id], Put(description, attributes)));
    }
  }

  lemma FitsIsValid(description: string, attributes: Attributes)
    ensures ValidMetadata(description, attributes) <==> Fits(description, attributes)
    ensures ValidAttributes(attributes) <==> forall k :: k in attributes ==> FitsOne(k, attributes[k])
  {
    assert forall k :: k in attributes ==> (ValidAttribute(k, attributes[k]) <==> FitsOne(k, attributes[k]));
  }

  lemma UpdateSucceedsExactly(s: Store, now: u64, id: TokenId, updates: Attributes)
    ensures var (t, r) := UpdateMetadata(s, now, id, updates);
      && (r == Ok <==> Updatable(s, id, updates))
      && (r != Ok ==> t == s)
  {
    if id in s.owners && id in s.metadata {
      FitsIsValid("", updates);
      FitsIsValid(s.metadata[id].description, s.metadata[id].attributes + updates);
    }
  }

  lemma MergeChanges(a: TokenMetadata, b: TokenMetadata, updates: Attributes)
    requires b.description == a.description && b.attributes == a.attributes + updates
    ensures Changed(a, b, Merge(updates))
  {
  }

  lemma UpdateApplies(s: Store, now: u64, id: TokenId, updates: Attributes)
    ensures var (t, r) := UpdateMetadata(s, now, id, updates);
      && (r == Ok <==> Updatable(s, id, updates))
      && (r == Ok ==> Applied(s, t, id, Write(now, s.owners[id], Merge(updates))))
      && (r != Ok ==> t == s)
  {
    UpdateSucceedsExactly(s, now, id, updates);
    var (t, r) := UpdateMetadata(s, now, id, updates);
    if r == Ok {
      MergeChanges(s.metadata[id], t.metadata[id], updates);
    }
  }

  /** An update gives every attribute it names its new value and keeps the others and the description; queries list the
      token under the new values and no longer under the old. */
  lemma UpdateLeaves(s: Store, now: u64, id: TokenId, updates: Attributes)
    requires IndexOk(s)
    ensures var (t, r) := UpdateMetadata(s, now, id, updates);
      && (r == Ok <==> Updatable(s, id, updates))
      && (r == Ok ==> Applied(s, t, id, Write(now, s.owners[id], Merge(updates))) && Reindexed(s, t, id))
      && (r == Ok ==> forall k :: k in updates ==> id in Query(t, k, updates[k]))
      && (r == Ok ==> forall k, v :: k in updates && v != updates[k] ==> id !in Query(t, k, v))
      && (r != Ok ==> t == s)
  {
    var (t, r) := UpdateMetadata(s, now, id, updates);
    UpdateApplies(s, now, id, updates);
    UpdateKeeps(s, now, id, updates);
    if r == Ok {
      IndexFollows(s, t, id, Write(now, s.owners[id], Merge(updates)));
      forall k, v | k in updates ensures id in Query(t, k, v) <==> v == updates[k] {
        assert Has(t.metadata[id].attributes, k, v) <==> Has(updates, k, v);
      }
    }
  }

  lemma RemoveApplies(s: Store, now: u64, id: TokenId, keys: seq<string>)
    ensures var (t, r) := RemoveAttributes(s, now, id, keys);
      && (r == Ok <==> Removable(s, id))
      && (r == Ok ==> Applied(s, t, id, Write(now, s.owners[id], Drop(keys))))
      && (r != Ok ==> t == s)
  {
  }

  /** A removal takes away exactly the named attributes; no query under their names lists the token any more. */
  lemma RemoveLeaves(s: Store, now: u64, id: TokenId, keys: seq<string>)
    requires IndexOk(s)
    ensures var (t, r) := RemoveAttributes(s, now, id, keys);
      && (r == Ok <==> Removable(s, id))
      && (r == Ok ==> Applied(s, t, id, Write(now, s.owners[id], Drop(keys))) && Reindexed(s, t, id))
      && (r == Ok ==> forall k, v :: k in keys ==> id !in Query(t, k, v))
      && (r != Ok ==> t == s)
  {
    var (t, r) := RemoveAttributes(s, now, id, keys);
    RemoveApplies(s, now, id, keys);
    RemoveKeeps(s, now, id, keys);
    if r == Ok {
      IndexFollows(s, t, id, Write(now, s.owners[id], Drop(keys)));
      forall k, v | k in keys ensures id !in Query(t, k, v) {
        assert !Has(t.metadata[id].attributes, k, v);
      }
    }
  }

  // ---------------------------------------------------------------- batches

  /** The items for one token, in order. */
  function OfToken(items: seq<BatchItem>, id: TokenId): seq<BatchItem> {
    if items == [] then []
    else
      OfToken(items[..|items| - 1], id) + if items[|items| - 1].id == id then [items[|items| - 1]] else []
  }

  /** Item `i` can be written once those before it are: each of them for the same token takes one version. */
  ghost predicate ItemFits(s: Store, items: seq<BatchItem>, i: nat)
    requires i < |items|
  {
    var item := items[i];
    && item.id in s.owners && Fits(item.description, item.attributes)
    && VersionOf(s, item.id) + |OfToken(items[..i], item.id)| < 0xFFFF_FFFF
  }

  ghost predicate AllFit(s: Store, items: seq<BatchItem>) {
    forall i :: 0 <= i < |items| ==> ItemFits(s, items, i)
  }

  lemma AllFitSplits(s: Store, items: seq<BatchItem>)
    requires items != []
    ensures AllFit(s, items) <==> AllFit(s, items[..|items| - 1]) && ItemFits(s, items, |items| - 1)
  {
    var init := items[..|items| - 1];
    forall i | 0 <= i < |init| ensures ItemFits(s, init, i) <==> ItemFits(s, items, i) {
      assert init[..i] == items[..i];
    }
  }

  /** The writes of the batch loop to one token. */
  function ItemWrites(items: seq<BatchItem>, id: TokenId, time: u64, author: Address): seq<Write> {
    if items == [] then []
    else
      var last := items[|items| - 1];
      ItemWrites(items[..|items| - 1], id, time, author)
      + if last.id == id then [Write(time, author, Put(last.description, last.attributes))] else []
  }

  lemma {:induction false} SetEachSucceedsExactly(s: Store, now: u64, items: seq<BatchItem>)
    ensures var (t, r) := SetEach(s, now, items);
      && (r == Ok <==> AllFit(s, items))
      && t.owners == s.owners && t.admin == s.admin
      && (r == Ok ==> forall id :: VersionOf(t, id) == VersionOf(s, id) + |OfToken(items, id)|)
  {
    if items != [] {
      var init, last := items[..|items| - 1], items[|items| - 1];
      SetEachSucceedsExactly(s, now, init);
      AllFitSplits(s, items);
      SetApplies(SetEach(s, now, init).0, now, last.id, last.description, last.attributes);
    }
  }

  /** A batch succeeds exactly if there is an administrator and every item can be written in its turn; otherwise nothing
      is written. */
  lemma BatchSucceedsExactly(s: Store, now: u64, items: seq<BatchItem>)
    ensures var (t, r) := BatchSet(s, now, items);
      && (r == Ok <==> s.admin.Some? && AllFit(s, items))
      && (r == Ok ==> forall id :: VersionOf(t, id) == VersionOf(s, id) + |OfToken(items, id)|)
      && (r != Ok ==> t == s)
  {
    SetEachSucceedsExactly(s, now, items);
  }

  // ---------------------------------------------------------------- runs

  /** What the call `e` writes to the metadata of `id`, told from the stored records and the arguments. */
  ghost function WritesOf(s: Store, e: Event, id: TokenId): seq<Write> {
    if id !in s.owners then []
    else
      var author := s.owners[id];
      match e.call
      case DoSet(u, d, a) =>
        if u == id && s.admin.Some? && Settable(s, id, d, a) then [Write(e.now, author, Put(d, a))] else []
      case DoBatch(items) =>
        if s.admin.Some? && AllFit(s, items) then ItemWrites(items, id, e.now, author) else []
      case DoUpdate(u, updates) =>
        if u == id && Updatable(s, id, updates) then [Write(e.now, author, Merge(updates))] else []
      case DoRemove(u, keys) => if u == id && Removable(s, id) then [Write(e.now, author, Drop(keys))] else []
      case _ => []
  }

  ghost function Writes(es: seq<Event>, id: TokenId): seq<Write> {
    if es == [] then []
    else Writes(es[..|es| - 1], id) + WritesOf(Run(es[..|es| - 1]), es[|es| - 1], id)
  }

  /** The value the last change that decides about `name` gave it. */
  function LastValue(ws: seq<Write>, name: string): Option<MetadataValue> {
    if ws == [] then None
    else
      var earlier := LastValue(ws[..|ws| - 1], name);
      match ws[|ws| - 1].change
      case Put(_, attributes) => if name in attributes then Some(attributes[name]) else None
      case Merge(updates) => if name in updates then Some(updates[name]) else earlier
      case Drop(keys) => if name in keys then None else earlier
  }

  /** The description of the last change that gave one. */
  function LastDescription(ws: seq<Write>): Option<string> {
    if ws == [] then None
    else if ws[|ws| - 1].change.Put? then Some(ws[|ws| - 1].change.description)
    else LastDescription(ws[..|ws| - 1])
  }

  /** `log` has one entry for every change except removals, in order, each with the version the change led to. */
  ghost predicate Logs(log: seq<MetadataUpdate>, ws: seq<Write>) {
    if ws == [] then log == []
    else
      var w := ws[|ws| - 1];
      if w.change.Drop? then Logs(log, ws[..|ws| - 1])
      else
        && log != []
        && var entry := log[|log| - 1];
        && entry.version == |ws| && entry.timestamp == w.time && entry.updatedBy == w.author
        && Some(entry.description) == LastDescription(ws)
        && entry.changes == (if w.change.Put? then w.change.attributes else w.change.updates)
        && Logs(log[..|log| - 1], ws[..|ws| - 1])
  }

  /** The metadata and update history of `id` are those the changes `ws` amount to. */
  ghost predicate Current(s: Store, id: TokenId, ws: seq<Write>) {
    && (id in s.metadata <==> ws != [])
    && (id in s.metadata ==>
          var m, last := s.metadata[id], ws[|ws| - 1];
          && m.version == |ws| && m.lastUpdated == last.time && m.updatedBy == last.author
          && Some(m.description) == LastDescription(ws))
    && (forall name, value :: Has(AttributesOf(s, id), name, value) <==> LastValue(ws, name) == Some(value))
    && Logs(HistoryOf(s, id), ws)
  }

  lemma WriteAppends(s: Store, t: Store, id: TokenId, ws: seq<Write>, w: Write)
    requires Current(s, id, ws) && Applied(s, t, id, w)
    ensures Current(t, id, ws + [w])
  {
    var all := ws + [w];
    assert all[..|all| - 1] == ws && all[|all| - 1] == w;
    if !w.change.Drop? {
      var log := HistoryOf(t, id);
      assert log[..|log| - 1] == HistoryOf(s, id);
    }
    forall name, value ensures Has(AttributesOf(t, id), name, value) <==> LastValue(all, name) == Some(value) {
      assert Has(AttributesOf(s, id), name, value) <==> LastValue(ws, name) == Some(value);
    }
  }

  lemma OthersStayCurrent(s: Store, t: Store, other: TokenId, w: Write, id: TokenId, ws: seq<Write>)
    requires Current(s, id, ws) && Applied(s, t, other, w) && other != id
    ensures Current(t, id, ws)
  {
  }

  /** A call of `SetMetadata`, `UpdateMetadata` or `RemoveAttributes` on `u` keeps `id` current. */
  lemma CallWrites(s: Store, t: Store, u: TokenId, change: Change, now: u64, success: bool, id: TokenId, ws: seq<Write>)
    requires Current(s, id, ws)
    requires success ==> u in s.owners && Applied(s, t, u, Write(now, s.owners[u], change))
    requires !success ==> t == s
    ensures Current(t, id, ws + if success && u == id then [Write(now, s.owners[u], change)] else [])
  {
    assert ws + [] == ws;
    if success {
      if u == id {
        WriteAppends(s, t, id, ws, Write(now, s.owners[u], change));
      } else {
        OthersStayCurrent(s, t, u, Write(now, s.owners[u], change), id, ws);
      }
    }
  }

  lemma SetWrites(s: Store, now: u64, item: BatchItem, id: TokenId, ws: seq<Write>)
    requires Current(s, id, ws)
    ensures var (t, r) := SetMetadata(s, now, item.id, item.description, item.attributes);
      var change := Put(item.description, item.attributes);
      && (r == Ok <==> Settable(s, item.id, item.description, item.attributes))
      && Current(t, id, ws + if r == Ok && item.id == id then [Write(now, s.owners[id], change)] else [])
  {
    var (t, r) := SetMetadata(s, now, item.id, item.description, item.attributes);
    SetApplies(s, now, item.id, item.description, item.attributes);
    CallWrites(s, t, item.id, Put(item.description, item.attributes), now, r == Ok, id, ws);
  }

  /** The writes of a batch to `id`. */
  function BatchPart(s: Store, now: u64, items: seq<BatchItem>, id: TokenId): seq<Write> {
    if id in s.owners then ItemWrites(items, id, now, s.owners[id]) else []
  }

  /** The last item of a batch, after the writes `ws` to `id` by the items before. */
  lemma LastItemWrites(s: Store, now: u64, items: seq<BatchItem>, id: TokenId, ws: seq<Write>)
    requires items != [] && AllFit(s, items) && ItemFits(s, items, |items| - 1)
    requires Current(SetEach(s, now, items[..|items| - 1]).0, id, ws)
    ensures var last := items[|items| - 1];
      Current(SetEach(s, now, items).0, id,
              ws + if last.id == id then [Write(now, s.owners[id], Put(last.description, last.attributes))] else [])
  {
    var init, last := items[..|items| - 1], items[|items| - 1];
    AllFitSplits(s, items);
    SetEachSucceedsExactly(s, now, init);
    SetEachSucceedsExactly(s, now, items);
    SetWrites(SetEach(s, now, init).0, now, last, id, ws);
  }

  lemma {:induction false} BatchWrites(s: Store, now: u64, items: seq<BatchItem>, id: TokenId, ws: seq<Write>)
    requires Current(s, id, ws) && AllFit(s, items)
    ensures Current(SetEach(s, now, items).0, id, ws + BatchPart(s, now, items, id))
  {
    if items == [] {
      assert ws + [] == ws;
    } else {
      var init, last := items[..|items| - 1], items[|items| - 1];
      AllFitSplits(s, items);
      BatchWrites(s, now, init, id, ws);
      var earlier := BatchPart(s, now, init, id);
      LastItemWrites(s, now, items, id, ws + earlier);
      var one := if last.id == id then [Write(now, s.owners[id], Put(last.description, last.attributes))] else [];
      assert BatchPart(s, now, items, id) == earlier + one;
      assert ws + (earlier + one) == ws + earlier + one;
    }
  }

  lemma StepSetWrites(s: Store, e: Event, id: TokenId, ws: seq<Write>)
    requires Current(s, id, ws) && (e.call.DoSet? || e.call.DoBatch?)
    ensures Current(Step(s, e), id, ws + WritesOf(s, e, id))
  {
    assert ws + [] == ws;
    match e.call
    case DoSet(u, d, a) => SetWrites(s, e.now, BatchItem(u, d, a), id, ws);
    case DoBatch(items) =>
      BatchSucceedsExactly(s, e.now, items);
      if s.admin.Some? && AllFit(s, items) {
        BatchWrites(s, e.now, items, id, ws);
      }
  }

  lemma StepUpdateWrites(s: Store, e: Event, id: TokenId, ws: seq<Write>)
    requires Current(s, id, ws) && e.call.DoUpdate?
    ensures Current(Step(s, e), id, ws + WritesOf(s, e, id))
  {
    var u, updates := e.call.id, e.call.updates;
    UpdateApplies(s, e.now, u, updates);
    CallWrites(s, Step(s, e), u, Merge(updates), e.now, Updatable(s, u, updates), id, ws);
  }

  lemma StepRemoveWrites(s: Store, e: Event, id: TokenId, ws: seq<Write>)
    requires Current(s, id, ws) && e.call.DoRemove?
    ensures Current(Step(s, e), id, ws + WritesOf(s, e, id))
  {
    var u, keys := e.call.id, e.call.keys;
    RemoveApplies(s, e.now, u, keys);
    CallWrites(s, Step(s, e), u, Drop(keys), e.now, Removable(s, u), id, ws);
  }

  lemma StepWrites(s: Store, e: Event, id: TokenId, ws: seq<Write>)
    requires Current(s, id, ws)
    ensures Current(Step(s, e), id, ws + WritesOf(s, e, id))
  {
    if e.call.DoSet? || e.call.DoBatch? {
      StepSetWrites(s, e, id, ws);
    } else if e.call.DoUpdate? {
      StepUpdateWrites(s, e, id, ws);
    } else if e.call.DoRemove? {
      StepRemoveWrites(s, e, id, ws);
    } else {
      assert ws + [] == ws;
    }
  }

  /** After every run the metadata of a token is what its successful writes, taken in order, amount to: the description
      of the last set, every attribute with the value of the last write that decides about it, the number of writes as
      version, time and owner of the last write, and a history of all of them except removals. */
  lemma {:induction false} MetadataIsItsWrites(es: seq<Event>, id: TokenId)
    ensures Current(Run(es), id, Writes(es, id))
  {
    if es != [] {
      MetadataIsItsWrites(es[..|es| - 1], id);
      StepWrites(Run(es[..|es| - 1]), es[|es| - 1], id, Writes(es[..|es| - 1], id));
    }
  }

  /** After every run a query lists a token exactly if the last write deciding about the name gave it this value. */
  lemma QueriesListTheLastWrite(es: seq<Event>, id: TokenId, name: string, value: MetadataValue)
    ensures id in Query(Run(es), name, value) <==> LastValue(Writes(es, id), name) == Some(value)
  {
    QueryEqualsScan(es, name, value);
    MetadataIsItsWrites(es, id);
    assert Has(AttributesOf(Run(es), id), name, value) <==> LastValue(Writes(es, id), name) == Some(value);
  }

  /** A set or an update is found at once, a removal no longer, and tokens the call does not name are listed as
      before. */
  ghost predicate Shows(s: Store, t: Store, e: Event, name: string, value: MetadataValue) {
    match e.call
    case DoSet(id, d, a) =>
      if s.admin.Some? && Settable(s, id, d, a)
      then Reindexed(s, t, id) && (id in Query(t, name, value) <==> Has(a, name, value))
      else t == s
    case DoBatch(items) => (s.admin.Some? && AllFit(s, items)) || t == s
    case DoUpdate(id, updates) =>
      if Updatable(s, id, updates)
      then Reindexed(s, t, id)
           && (id in Query(t, name, value) <==>
                 if name in updates then value == updates[name] else id in Query(s, name, value))
      else t == s
    case DoRemove(id, keys) =>
      if Removable(s, id)
      then Reindexed(s, t, id) && (id in Query(t, name, value) <==> name !in keys && id in Query(s, name, value))
      else t == s
    case _ => t.metadata == s.metadata && Query(t, name, value) == Query(s, name, value)
  }

  /** A token's own answers, before and after a change. */
  lemma QueryFollowsChange(es: seq<Event>, id: TokenId, w: Write, t: Store, name: string, value: MetadataValue)
    requires Applied(Run(es), t, id, w) && Reindexed(Run(es), t, id)
    ensures match w.change
            case Put(_, a) => id in Query(t, name, value) <==> Has(a, name, value)
            case Merge(updates) =>
              id in Query(t, name, value) <==>
                if name in updates then value == updates[name] else id in Query(Run(es), name, value)
            case Drop(keys) => id in Query(t, name, value) <==> name !in keys && id in Query(Run(es), name, value)
  {
    QueryEqualsScan(es, name, value);
    assert id in Query(t, name, value) <==> Has(t.metadata[id].attributes, name, value);
  }

  lemma UpdateShows(es: seq<Event>, e: Event, name: string, value: MetadataValue)
    requires e.call.DoUpdate?
    ensures Shows(Run(es), Step(Run(es), e), e, name, value)
  {
    var s, id, updates := Run(es), e.call.id, e.call.updates;
    RunKeeps(es);
    UpdateLeaves(s, e.now, id, updates);
    if Updatable(s, id, updates) {
      QueryFollowsChange(es, id, Write(e.now, s.owners[id], Merge(updates)), Step(s, e), name, value);
    }
  }

  lemma RemovalShows(es: seq<Event>, e: Event, name: string, value: MetadataValue)
    requires e.call.DoRemove?
    ensures Shows(Run(es), Step(Run(es), e), e, name, value)
  {
    var s, id, keys := Run(es), e.call.id, e.call.keys;
    RunKeeps(es);
    RemoveLeaves(s, e.now, id, keys);
    if Removable(s, id) {
      QueryFollowsChange(es, id, Write(e.now, s.owners[id], Drop(keys)), Step(s, e), name, value);
    }
  }

  lemma SetShows(es: seq<Event>, e: Event, name: string, value: MetadataValue)
    requires !e.call.DoUpdate? && !e.call.DoRemove?
    ensures Shows(Run(es), Step(Run(es), e), e, name, value)
  {
    RunKeeps(es);
    match e.call
    case DoSet(id, d, a) => SetLeaves(Run(es), e.now, id, d, a);
    case DoBatch(items) => BatchSucceedsExactly(Run(es), e.now, items);
    case _ =>
  }

  /** In every reachable state, what one more call does to the answers of queries. */
  lemma CallsShowInQueries(es: seq<Event>, e: Event, name: string, value: MetadataValue)
    ensures Shows(Run(es), Run(es + [e]), e, name, value)
  {
    assert (es + [e])[..|es|] == es;
    if e.call.DoUpdate? {
      UpdateShows(es, e, name, value);
    } else if e.call.DoRemove? {
      RemovalShows(es, e, name, value);
    } else {
      SetShows(es, e, name, value);
    }
  }
}
