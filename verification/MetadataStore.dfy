/** Token metadata and its index kept in storage, entry by entry. Attribute maps are walked in an arbitrary order,
    so the result does not depend on the order in which the host enumerates map keys. */
module MetadataStore {
  import opened Prelude
  import opened MetadataSpec

  class Registry {
    var admin: Option<Address>
    var owners: map<TokenId, Address>
    var metadata: map<TokenId, TokenMetadata>
    var index: Index
    var history: map<TokenId, seq<MetadataUpdate>>

    function Contents(): Store
      reads this
    {
      Store(admin, owners, metadata, index, history)
    }

    constructor ()
      ensures Contents() == EMPTY
    {
      admin, owners, metadata, index, history := None, map[], map[], map[], map[];
    }

    method AddToIndex(key: string, value: MetadataValue, id: TokenId)
      modifies this`index
      ensures index == AddEntry(old(index), (key, value), id)
    {
      var ids := if (key, value) in index then index[(key, value)] else [];
      if id !in ids {
        index := index[(key, value) := ids + [id]];
      }
    }

    method RemoveFromIndex(key: string, value: MetadataValue, id: TokenId)
      modifies this`index
      ensures index == RemoveEntry(old(index), (key, value), id)
    {
      if (key, value) in index {
        var newIds := CopyWithout(index[(key, value)], id);
        if newIds == [] {
          index := index - {(key, value)};
        } else {
          index := index[(key, value) := newIds];
        }
      }
    }

    method RemoveAllFromIndex(attributes: Attributes, id: TokenId)
      modifies this`index
      ensures index == Unindexed(old(index), attributes, id)
    {
      var todo := attributes.Keys;
      NothingRemoved(index, attributes, id);
      while todo != {}
        invariant todo <= attributes.Keys
        invariant index == Unindexed(old(index), Restrict(attributes, attributes.Keys - todo), id)
      {
        var key :| key in todo;
        RemoveNext(old(index), attributes, attributes.Keys - todo, key, id);
        RemoveFromIndex(key, attributes[key], id);
        assert attributes.Keys - (todo - {key}) == attributes.Keys - todo + {key};
        todo := todo - {key};
      }
      assert Restrict(attributes, attributes.Keys - {}) == attributes;
    }

    method AddAllToIndex(attributes: Attributes, id: TokenId)
      modifies this`index
      ensures index == Indexed(old(index), attributes, id)
    {
      var todo := attributes.Keys;
      NothingAdded(index, attributes, id);
      while todo != {}
        invariant todo <= attributes.Keys
        invariant index == Indexed(old(index), Restrict(attributes, attributes.Keys - todo), id)
      {
        var key :| key in todo;
        AddNext(old(index), attributes, attributes.Keys - todo, key, id);
        AddToIndex(key, attributes[key], id);
        assert attributes.Keys - (todo - {key}) == attributes.Keys - todo + {key};
        todo := todo - {key};
      }
      assert Restrict(attributes, attributes.Keys - {}) == attributes;
    }

    method Reindex(id: TokenId, attributes: Attributes)
      modifies this`index
      ensures index == Indexed(Unindexed(old(index), AttributesOf(Contents(), id), id), attributes, id)
    {
      if id in metadata {
        RemoveAllFromIndex(metadata[id].attributes, id);
      } else {
        NothingRemoved(index, map[], id);
        assert Restrict(map[], {}) == map[];
      }
      AddAllToIndex(attributes, id);
    }

    /** Appends to the update history of `id`. */
    method RecordUpdate(id: TokenId, entry: MetadataUpdate)
      modifies this`history
      ensures history == old(history)[id := old(HistoryOf(Contents(), id)) + [entry]]
    {
      var updates := if id in history then history[id] else [];
      updates := updates + [entry];
      history := history[id := updates];
    }

    /** The writes of `internal_set_token_metadata`, once the metadata is valid. */
    method StoreMetadata(now: u64, id: TokenId, description: string, attributes: Attributes, version: u32)
      requires id in owners
      modifies this`metadata, this`index, this`history
      ensures Contents() == WriteMetadata(old(Contents()), now, id, description, attributes, version)
    {
      Reindex(id, attributes);
      metadata := metadata[id := TokenMetadata(description, attributes, version, now, owners[id])];
      RecordUpdate(id, MetadataUpdate(version, now, owners[id], description, attributes));
    }

    method SetTokenMetadata(now: u64, id: TokenId, description: string, attributes: Attributes) returns (r: Outcome)
      modifies this`metadata, this`index, this`history
      ensures (Contents(), r) == SetMetadata(old(Contents()), now, id, description, attributes)
    {
      if id !in owners { return Err(TokenNotFound); }
      var version := 1;
      if id in metadata {
        if metadata[id].version == U32_MAX { return Trap; }
        version := metadata[id].version + 1;
      }
      if !ValidMetadata(description, attributes) { return Err(MetadataValidationFailed); }
      StoreMetadata(now, id, description, attributes, version);
      return Ok;
    }

    method BatchSetTokenMetadata(now: u64, items: seq<BatchItem>) returns (r: Outcome)
      modifies this`metadata, this`index, this`history
      ensures (Contents(), r) == BatchSet(old(Contents()), now, items)
    {
      if admin.None? { return Err(AdminNotSet); }
      var savedMetadata, savedIndex, savedHistory := metadata, index, history;
      for i := 0 to |items|
        invariant (Contents(), Ok) == SetEach(old(Contents()), now, items[..i])
      {
        assert items[..i + 1][..i] == items[..i];
        r := SetTokenMetadata(now, items[i].id, items[i].description, items[i].attributes);
        if r != Ok {
          FailureEndsBatch(old(Contents()), now, items, i + 1);
          // the host discards the writes of a failed call
          metadata, index, history := savedMetadata, savedIndex, savedHistory;
          return;
        }
      }
      assert items[..|items|] == items;
      return Ok;
    }

    method ReplaceEntry(id: TokenId, before: Attributes, key: string, value: MetadataValue)
      modifies this`index
      ensures index == AddEntry(if key in before then RemoveEntry(old(index), (key, before[key]), id) else old(index),
                                (key, value), id)
    {
      if key in before {
        RemoveFromIndex(key, before[key], id);
      }
      AddToIndex(key, value, id);
    }

    /** One turn of the loop of `update_token_metadata`, when `done` have been replaced in the index `start`. */
    method ApplyOne(id: TokenId, before: Attributes, updates: Attributes, ghost done: set<string>, ghost start: Index,
                    key: string, attributes: Attributes) returns (next: Attributes)
      requires key in updates && key !in done
      requires index == Replaced(start, before, updates, done, id)
      requires attributes == before + Restrict(updates, done)
      modifies this`index
      ensures index == Replaced(start, before, updates, done + {key}, id)
      ensures next == before + Restrict(updates, done + {key})
    {
      ReplaceNext(start, before, updates, done, key, id);
      MergeNext(before, updates, done, key);
      ReplaceEntry(id, attributes, key, updates[key]);
      next := attributes[key := updates[key]];
    }

    /** The loop of `update_token_metadata`: it stops, with the index half changed, at an invalid attribute. */
    method ApplyUpdates(id: TokenId, before: Attributes, updates: Attributes)
      returns (attributes: Attributes, valid: bool)
      modifies this`index
      ensures valid <==> ValidAttributes(updates)
      ensures valid ==> attributes == before + Restrict(updates, updates.Keys)
      ensures valid ==> index == Replaced(old(index), before, updates, updates.Keys, id)
    {
      attributes, valid := before, true;
      var todo := updates.Keys;
      ghost var done: set<string> := {};
      NothingReplaced(index, before, updates, id);
      while todo != {}
        invariant done == updates.Keys - todo && todo <= updates.Keys
        invariant index == Replaced(old(index), before, updates, done, id)
        invariant attributes == before + Restrict(updates, done)
        invariant forall k :: k in done ==> ValidAttribute(k, updates[k])
      {
        var key :| key in todo;
        if !ValidAttribute(key, updates[key]) {
          valid := false;
          return;
        }
        attributes := ApplyOne(id, before, updates, done, old(index), key, attributes);
        todo, done := todo - {key}, done + {key};
      }
      assert done == updates.Keys;
    }

    method UpdateTokenMetadata(now: u64, id: TokenId, updates: Attributes) returns (r: Outcome)
      modifies this`metadata, this`index, this`history
      ensures (Contents(), r) == UpdateMetadata(old(Contents()), now, id, updates)
    {
      if id !in owners { return Err(TokenNotFound); }
      if id !in metadata { return Err(MetadataNotFound); }
      var m := metadata[id];
      var savedIndex := index;
      var attributes, valid := ApplyUpdates(id, m.attributes, updates);
      RestrictToAll(updates, updates.Keys);
      if !valid {
        index := savedIndex;  // the host discards the writes of a failed call
        return Err(MetadataValidationFailed);
      }
      if !ValidMetadata(m.description, attributes) {
        index := savedIndex;
        return Err(MetadataValidationFailed);
      }
      if m.version == U32_MAX {
        index := savedIndex;
        return Trap;
      }
      metadata := metadata[id := TokenMetadata(m.description, attributes, m.version + 1, now, owners[id])];
      RecordUpdate(id, MetadataUpdate(m.version + 1, now, owners[id], m.description, updates));
      return Ok;
    }

    method RemoveMetadataAttributes(now: u64, id: TokenId, keys: seq<string>) returns (r: Outcome)
      modifies this`metadata, this`index
      ensures (Contents(), r) == RemoveAttributes(old(Contents()), now, id, keys)
    {
      if id !in owners { return Err(TokenNotFound); }
      if id !in metadata { return Err(MetadataNotFound); }
      var m := metadata[id];
      var attributes, savedIndex := m.attributes, index;
      NothingRemoved(index, m.attributes, id);
      for i := 0 to |keys|
        invariant attributes == m.attributes - (set k | k in keys[..i]) && metadata == old(metadata)
        invariant index == Unindexed(old(index), Restrict(m.attributes, set k | k in keys[..i]), id)
      {
        ghost var done := set k | k in keys[..i];
        assert keys[..i + 1] == keys[..i] + [keys[i]];
        assert (set k | k in keys[..i] + [keys[i]]) == done + {keys[i]};
        if keys[i] in attributes {
          RemoveNext(old(index), m.attributes, done, keys[i], id);
          RemoveFromIndex(keys[i], attributes[keys[i]], id);
        } else {
          assert Restrict(m.attributes, done + {keys[i]}) == Restrict(m.attributes, done);
        }
        attributes := attributes - {keys[i]};
      }
      assert keys[..|keys|] == keys;
      if m.version == U32_MAX {
        index := savedIndex;
        return Trap;
      }
      metadata := metadata[id := TokenMetadata(m.description, attributes, m.version + 1, now, owners[id])];
      return Ok;
    }
  }

  lemma NothingRemoved(index: Index, attributes: Attributes, id: TokenId)
    ensures Unindexed(index, Restrict(attributes, {}), id) == index
    ensures Unindexed(index, Restrict(attributes, attributes.Keys - attributes.Keys), id) == index
  {
  }

  lemma NothingAdded(index: Index, attributes: Attributes, id: TokenId)
    ensures Indexed(index, Restrict(attributes, {}), id) == index
    ensures Indexed(index, Restrict(attributes, attributes.Keys - attributes.Keys), id) == index
  {
  }

  lemma HitRestrict(attributes: Attributes, done: set<string>, k: string, key: IndexKey)
    requires k in attributes && k !in done
    ensures Hit(Restrict(attributes, done + {k}), key)
       <==> Hit(Restrict(attributes, done), key) || key == (k, attributes[k])
    ensures key.0 == k ==> !Hit(Restrict(attributes, done), key)
  {
  }

  lemma IndexedAt(index: Index, attributes: Attributes, id: TokenId, key: IndexKey)
    ensures key in Indexed(index, attributes, id) <==> key in index || Hit(attributes, key)
    ensures key in Indexed(index, attributes, id) ==>
              Indexed(index, attributes, id)[key]
              == Lookup(index, key) + if Hit(attributes, key) && id !in Lookup(index, key) then [id] else []
  {
    assert key in attributes.Items <==> Hit(attributes, key);
  }

  lemma UnindexedAt(index: Index, attributes: Attributes, id: TokenId, key: IndexKey)
    ensures key in Unindexed(index, attributes, id)
       <==> key in index && !(Hit(attributes, key) && Without(index[key], id) == [])
    ensures key in Unindexed(index, attributes, id) ==>
              Unindexed(index, attributes, id)[key]
              == if Hit(attributes, key) then Without(index[key], id) else index[key]
  {
  }

  /** Taking one more attribute out of the index. */
  lemma RemoveNext(index: Index, attributes: Attributes, done: set<string>, key: string, id: TokenId)
    requires key in attributes && key !in done
    ensures RemoveEntry(Unindexed(index, Restrict(attributes, done), id), (key, attributes[key]), id)
         == Unindexed(index, Restrict(attributes, done + {key}), id)
  {
    var l := RemoveEntry(Unindexed(index, Restrict(attributes, done), id), (key, attributes[key]), id);
    var r := Unindexed(index, Restrict(attributes, done + {key}), id);
    forall k: IndexKey ensures k in l <==> k in r ensures k in l ==> l[k] == r[k] {
      UnindexedAt(index, Restrict(attributes, done), id, k);
      UnindexedAt(index, Restrict(attributes, done + {key}), id, k);
      HitRestrict(attributes, done, key, k);
    }
  }

  lemma AddNext(index: Index, attributes: Attributes, done: set<string>, key: string, id: TokenId)
    requires key in attributes && key !in done
    ensures AddEntry(Indexed(index, Restrict(attributes, done), id), (key, attributes[key]), id)
         == Indexed(index, Restrict(attributes, done + {key}), id)
  {
    var l := AddEntry(Indexed(index, Restrict(attributes, done), id), (key, attributes[key]), id);
    var r := Indexed(index, Restrict(attributes, done + {key}), id);
    IndexedAt(index, Restrict(attributes, done), id, (key, attributes[key]));
    forall k: IndexKey ensures k in l <==> k in r ensures k in l ==> l[k] == r[k] {
      IndexedAt(index, Restrict(attributes, done), id, k);
      IndexedAt(index, Restrict(attributes, done + {key}), id, k);
      HitRestrict(attributes, done, key, k);
    }
  }

  /** Removing an entry commutes with having listed other attributes. */
  lemma RemoveBehindAdditions(index: Index, added: Attributes, key: IndexKey, id: TokenId)
    requires key.0 !in added
    ensures RemoveEntry(Indexed(index, added, id), key, id) == Indexed(RemoveEntry(index, key, id), added, id)
  {
    var l := RemoveEntry(Indexed(index, added, id), key, id);
    var r := Indexed(RemoveEntry(index, key, id), added, id);
    IndexedAt(index, added, id, key);
    forall k: IndexKey ensures k in l <==> k in r ensures k in l ==> l[k] == r[k] {
      IndexedAt(index, added, id, k);
      IndexedAt(RemoveEntry(index, key, id), added, id, k);
    }
  }

  /** The index once the attributes in `done` have been replaced by their updates. */
  ghost function Replaced(index: Index, before: Attributes, updates: Attributes, done: set<string>,
                          id: TokenId): Index {
    Indexed(Unindexed(index, Restrict(before, done), id), Restrict(updates, done), id)
  }

  lemma MergeNext(before: Attributes, updates: Attributes, done: set<string>, key: string)
    requires key in updates && key !in done
    ensures var merged := before + Restrict(updates, done);
      && merged[key := updates[key]] == before + Restrict(updates, done + {key})
      && (key in merged <==> key in before)
      && (key in before ==> merged[key] == before[key])
  {
  }

  lemma RestrictToAll(attributes: Attributes, keys: set<string>)
    requires attributes.Keys <= keys
    ensures Restrict(attributes, keys) == attributes
  {
  }

  lemma NothingReplaced(index: Index, before: Attributes, updates: Attributes, id: TokenId)
    ensures Replaced(index, before, updates, {}, id) == index
    ensures before + Restrict(updates, {}) == before
  {
    NothingRemoved(index, before, id);
    NothingAdded(index, updates, id);
  }

  lemma ReplaceNext(index: Index, attributes: Attributes, updates: Attributes, done: set<string>, key: string,
                    id: TokenId)
    requires key in updates && key !in done
    ensures var before := Replaced(index, attributes, updates, done, id);
      var removed := if key in attributes then RemoveEntry(before, (key, attributes[key]), id) else before;
      AddEntry(removed, (key, updates[key]), id) == Replaced(index, attributes, updates, done + {key}, id)
  {
    var u := Unindexed(index, Restrict(attributes, done), id);
    if key in attributes {
      RemoveNext(index, attributes, done, key, id);
      RemoveBehindAdditions(u, Restrict(updates, done), (key, attributes[key]), id);
    } else {
      assert Restrict(attributes, done + {key}) == Restrict(attributes, done);
    }
    AddNext(Unindexed(index, Restrict(attributes, done + {key}), id), updates, done, key, id);
  }

  lemma {:induction false} FailureEndsBatch(s: Store, now: u64, items: seq<BatchItem>, k: nat)
    requires k <= |items| && SetEach(s, now, items[..k]).1 != Ok
    ensures SetEach(s, now, items).1 == SetEach(s, now, items[..k]).1
    decreases |items| - k
  {
    if k < |items| {
      assert items[..k + 1][..k] == items[..k];
      FailureEndsBatch(s, now, items, k + 1);
    } else {
      assert items[..k] == items;
    }
  }
}
