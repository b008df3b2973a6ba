/** The incrementally kept index equals a scan of all metadata. */
module MetadataProofs {
  import opened Prelude
  import opened MetadataSpec

  /** What a scan of all metadata would find. */
  ghost predicate Matches(s: Store, id: TokenId, key: IndexKey) {
    Hit(AttributesOf(s, id), key)
  }

  ghost predicate IndexOk(s: Store) {
    && (forall key :: key in s.index ==> s.index[key] != [])
    && (forall key :: Distinct(Lookup(s.index, key)))
    && (forall key, id :: id in Lookup(s.index, key) <==> Matches(s, id, key))
  }

  lemma UnindexedLists(index: Index, attributes: Attributes, id: TokenId, key: IndexKey)
    requires Distinct(Lookup(index, key))
    ensures var list := Lookup(Unindexed(index, attributes, id), key);
      && Distinct(list)
      && (forall x :: x in list <==> x in Lookup(index, key) && !(x == id && Hit(attributes, key)))
  {
    if key in index {
      WithoutMembers(index[key], id);
      WithoutKeepsDistinct(index[key], id);
    }
  }

  lemma IndexedLists(index: Index, attributes: Attributes, id: TokenId, key: IndexKey)
    requires Distinct(Lookup(index, key))
    ensures var list := Lookup(Indexed(index, attributes, id), key);
      && Distinct(list)
      && (forall x :: x in list <==> x in Lookup(index, key) || (x == id && Hit(attributes, key)))
  {
    if Hit(attributes, key) {
      assert key in attributes.Items;
    }
  }

  /** Replacing the attributes `old` of `id` by `new` in the index, entry by entry. */
  lemma ReindexLists(index: Index, removed: Attributes, added: Attributes, id: TokenId, key: IndexKey)
    requires Distinct(Lookup(index, key))
    ensures var list := Lookup(Indexed(Unindexed(index, removed, id), added, id), key);
      && Distinct(list)
      && (forall x :: x in list <==>
            (x in Lookup(index, key) && !(x == id && Hit(removed, key))) || (x == id && Hit(added, key)))
  {
    UnindexedLists(index, removed, id, key);
    IndexedLists(Unindexed(index, removed, id), added, id, key);
  }

  lemma NoEmptyEntries(index: Index, removed: Attributes, added: Attributes, id: TokenId)
    requires forall key :: key in index ==> index[key] != []
    ensures forall key :: key in Unindexed(index, removed, id) ==> Unindexed(index, removed, id)[key] != []
    ensures var j := Indexed(Unindexed(index, removed, id), added, id);
      forall key :: key in j ==> j[key] != []
  {
  }

  /** Exchanging the metadata of one token and the matching index entries keeps the two in step. */
  lemma ExchangeKeeps(s: Store, t: Store, id: TokenId, removed: Attributes, added: Attributes)
    requires IndexOk(s) && id in t.metadata
    requires t.metadata == s.metadata[id := t.metadata[id]]
    requires t.index == Indexed(Unindexed(s.index, removed, id), added, id)
    requires forall key :: Hit(t.metadata[id].attributes, key) <==>
               (Hit(AttributesOf(s, id), key) && !Hit(removed, key)) || Hit(added, key)
    ensures IndexOk(t)
  {
    NoEmptyEntries(s.index, removed, added, id);
    forall key
      ensures Distinct(Lookup(t.index, key))
      ensures forall x :: x in Lookup(t.index, key) <==> Matches(t, x, key)
    {
      ReindexLists(s.index, removed, added, id, key);
      forall x ensures x in Lookup(t.index, key) <==> Matches(t, x, key) {
        assert x in Lookup(s.index, key) <==> Matches(s, x, key);
        assert x != id ==> AttributesOf(t, x) == AttributesOf(s, x);
      }
    }
  }

  lemma SetKeeps(s: Store, now: u64, id: TokenId, description: string, attributes: Attributes)
    requires IndexOk(s)
    ensures IndexOk(SetMetadata(s, now, id, description, attributes).0)
  {
    var (t, r) := SetMetadata(s, now, id, description, attributes);
    if r == Ok {
      ExchangeKeeps(s, t, id, AttributesOf(s, id), attributes);
    }
  }

  lemma {:induction false} SetEachKeeps(s: Store, now: u64, items: seq<BatchItem>)
    requires IndexOk(s)
    ensures IndexOk(SetEach(s, now, items).0)
  {
    if items != [] {
      var last := items[|items| - 1];
      SetEachKeeps(s, now, items[..|items| - 1]);
      SetKeeps(SetEach(s, now, items[..|items| - 1]).0, now, last.id, last.description, last.attributes);
    }
  }

  lemma UpdateHits(before: Attributes, updates: Attributes, key: IndexKey)
    ensures Hit(before + updates, key) <==>
              (Hit(before, key) && !Hit(Restrict(before, updates.Keys), key)) || Hit(updates, key)
  {
  }

  lemma UpdateKeeps(s: Store, now: u64, id: TokenId, updates: Attributes)
    requires IndexOk(s)
    ensures IndexOk(UpdateMetadata(s, now, id, updates).0)
  {
    var (t, r) := UpdateMetadata(s, now, id, updates);
    if r == Ok {
      var before := s.metadata[id].attributes;
      forall key
        ensures Hit(t.metadata[id].attributes, key) <==>
                  (Hit(before, key) && !Hit(Restrict(before, updates.Keys), key)) || Hit(updates, key)
      {
        UpdateHits(before, updates, key);
      }
      ExchangeKeeps(s, t, id, Restrict(before, updates.Keys), updates);
    }
  }

  lemma RemoveKeeps(s: Store, now: u64, id: TokenId, keys: seq<string>)
    requires IndexOk(s)
    ensures IndexOk(RemoveAttributes(s, now, id, keys).0)
  {
    var (t, r) := RemoveAttributes(s, now, id, keys);
    if r == Ok {
      var removed := Restrict(s.metadata[id].attributes, set k | k in keys);
      var u := Unindexed(s.index, removed, id);
      assert Indexed(u, map[], id) == u;
      ExchangeKeeps(s, t, id, removed, map[]);
    }
  }

  lemma {:induction false} RunKeeps(es: seq<Event>)
    ensures IndexOk(Run(es))
  {
    if es != [] {
      var s, e := Run(es[..|es| - 1]), es[|es| - 1];
      RunKeeps(es[..|es| - 1]);
      match e.call
      case DoSet(id, d, attributes) => SetKeeps(s, e.now, id, d, attributes);
      case DoBatch(items) => SetEachKeeps(s, e.now, items);
      case DoUpdate(id, updates) => UpdateKeeps(s, e.now, id, updates);
      case DoRemove(id, keys) => RemoveKeeps(s, e.now, id, keys);
      case DoSetAdmin(_) =>
      case DoOwn(_, _) => SameMetadataKeeps(s, Step(s, e));
    }
  }

  lemma SameMetadataKeeps(s: Store, t: Store)
    requires IndexOk(s) && t.metadata == s.metadata && t.index == s.index
    ensures IndexOk(t)
  {
    forall key, id ensures id in Lookup(t.index, key) <==> Matches(t, id, key) {
      assert id in Lookup(s.index, key) <==> Matches(s, id, key);
    }
  }

  /** After every sequence of set, batch set, update and remove calls, a query lists, without duplicates, exactly the
      tokens whose current metadata maps the name to the value; and no empty list is stored. */
  lemma QueryEqualsScan(es: seq<Event>, name: string, value: MetadataValue)
    ensures var s := Run(es);
      && Distinct(Query(s, name, value))
      && (forall id :: id in Query(s, name, value) <==>
            id in s.metadata && name in s.metadata[id].attributes && s.metadata[id].attributes[name] == value)
      && ((name, value) in s.index ==> Query(s, name, value) != [])
  {
    RunKeeps(es);
    forall id ensures id in Query(Run(es), name, value) <==> Matches(Run(es), id, (name, value)) {
    }
  }

  // ---------------------------------------------------------------- versions and the update history

  /** The metadata of `id` was written once per history entry and once per `removals`, and each entry has the version it
      led to. */
  ghost predicate Versioned(s: Store, id: TokenId, removals: nat) {
    var history := HistoryOf(s, id);
    && (id !in s.metadata ==> history == [] && removals == 0)
    && (id in s.metadata ==> history != [] && s.metadata[id].version == |history| + removals)
    && (forall i :: 0 <= i < |history| ==> i + 1 <= history[i].version <= s.metadata[id].version)
    && (forall i, j :: 0 <= i < j < |history| ==> history[i].version < history[j].version)
  }

  /** `e` removes attributes of `id`. */
  predicate IsRemoval(s: Store, e: Event, id: TokenId) {
    e.call.DoRemove? && e.call.id == id && RemoveAttributes(s, e.now, id, e.call.keys).1 == Ok
  }

  function Removals(es: seq<Event>, id: TokenId): nat {
    if es == [] then 0
    else Removals(es[..|es| - 1], id) + if IsRemoval(Run(es[..|es| - 1]), es[|es| - 1], id) then 1 else 0
  }

  lemma SetVersions(s: Store, now: u64, item: BatchItem, id: TokenId, removals: nat)
    requires Versioned(s, id, removals)
    ensures Versioned(SetMetadata(s, now, item.id, item.description, item.attributes).0, id, removals)
  {
    var (t, r) := SetMetadata(s, now, item.id, item.description, item.attributes);
    if r == Ok && item.id == id {
      var history := HistoryOf(t, id);
      assert history[..|history| - 1] == HistoryOf(s, id);
    }
  }

  lemma {:induction false} SetEachVersions(s: Store, now: u64, items: seq<BatchItem>, id: TokenId, removals: nat)
    requires Versioned(s, id, removals)
    ensures Versioned(SetEach(s, now, items).0, id, removals)
  {
    if items != [] {
      var init := items[..|items| - 1];
      SetEachVersions(s, now, init, id, removals);
      SetVersions(SetEach(s, now, init).0, now, items[|items| - 1], id, removals);
    }
  }

  lemma UpdateVersions(s: Store, now: u64, u: TokenId, updates: Attributes, id: TokenId, removals: nat)
    requires Versioned(s, id, removals)
    ensures Versioned(UpdateMetadata(s, now, u, updates).0, id, removals)
  {
    var (t, r) := UpdateMetadata(s, now, u, updates);
    if r == Ok && u == id {
      var history := HistoryOf(t, id);
      assert history[..|history| - 1] == HistoryOf(s, id);
    }
  }

  lemma RemoveVersions(s: Store, now: u64, u: TokenId, keys: seq<string>, id: TokenId, removals: nat)
    requires Versioned(s, id, removals)
    ensures var (t, r) := RemoveAttributes(s, now, u, keys);
      Versioned(t, id, removals + if u == id && r == Ok then 1 else 0)
  {
  }

  lemma StepSetVersions(s: Store, e: Event, id: TokenId, removals: nat)
    requires (e.call.DoSet? || e.call.DoBatch?) && Versioned(s, id, removals)
    ensures Versioned(Step(s, e), id, removals)
  {
    match e.call
    case DoSet(u, d, attributes) => SetVersions(s, e.now, BatchItem(u, d, attributes), id, removals);
    case DoBatch(items) => SetEachVersions(s, e.now, items, id, removals);
  }

  lemma StepUpdateVersions(s: Store, e: Event, id: TokenId, removals: nat)
    requires e.call.DoUpdate? && Versioned(s, id, removals)
    ensures Versioned(Step(s, e), id, removals)
  {
    UpdateVersions(s, e.now, e.call.id, e.call.updates, id, removals);
  }

  lemma StepRemoveVersions(s: Store, e: Event, id: TokenId, removals: nat)
    requires e.call.DoRemove? && Versioned(s, id, removals)
    ensures Versioned(Step(s, e), id, removals + if IsRemoval(s, e, id) then 1 else 0)
  {
    RemoveVersions(s, e.now, e.call.id, e.call.keys, id, removals);
  }

  lemma StepVersions(s: Store, e: Event, id: TokenId, removals: nat)
    requires Versioned(s, id, removals)
    ensures Versioned(Step(s, e), id, removals + if IsRemoval(s, e, id) then 1 else 0)
  {
    if e.call.DoSet? || e.call.DoBatch? {
      StepSetVersions(s, e, id, removals);
    } else if e.call.DoUpdate? {
      StepUpdateVersions(s, e, id, removals);
    } else if e.call.DoRemove? {
      StepRemoveVersions(s, e, id, removals);
    }
  }

  /** After every run the version of a token's metadata is the number of its history entries plus the number of calls
      that removed attributes, which the history does not record; the entries carry strictly growing versions. */
  lemma {:induction false} VersionCountsWrites(es: seq<Event>, id: TokenId)
    ensures Versioned(Run(es), id, Removals(es, id))
  {
    if es != [] {
      VersionCountsWrites(es[..|es| - 1], id);
      StepVersions(Run(es[..|es| - 1]), es[|es| - 1], id, Removals(es[..|es| - 1], id));
    }
  }
}
