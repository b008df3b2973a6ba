/** Token metadata and its inverted index, each operation as one closed form
    (contracts/manage_hub/src/membership_token.rs, contracts/common_types/src/types.rs). */
module MetadataSpec {
  import opened Prelude

  type TokenId = nat

  datatype MetadataValue = Text(text: string) | Number(number: i128) | Boolean(flag: bool) | Timestamp(time: u64)

  type Attributes = map<string, MetadataValue>

  /** An index entry is found under an attribute name and an exact value. */
  type IndexKey = (string, MetadataValue)

  type Index = map<IndexKey, seq<TokenId>>

  datatype TokenMetadata = TokenMetadata(
    description: string, attributes: Attributes, version: u32, lastUpdated: u64, updatedBy: Address)

  datatype MetadataUpdate = MetadataUpdate(
    version: u32, timestamp: u64, updatedBy: Address, description: string, changes: Attributes)

  datatype Error = AdminNotSet | TokenNotFound | MetadataNotFound | MetadataValidationFailed

  datatype Outcome = Ok | Err(error: Error) | Trap

  /** `owners` gives the owner of every issued token. */
  datatype Store = Store(admin: Option<Address>, owners: map<TokenId, Address>,
                         metadata: map<TokenId, TokenMetadata>, index: Index,
                         history: map<TokenId, seq<MetadataUpdate>>)

  const EMPTY := Store(None, map[], map[], map[], map[])

  // ---------------------------------------------------------------- validation

  predicate ValidAttribute(key: string, value: MetadataValue) {
    |key| <= 50 && (value.Text? ==> |value.text| <= 200)
  }

  predicate ValidAttributes(attributes: Attributes) {
    forall k :: k in attributes ==> ValidAttribute(k, attributes[k])
  }

  predicate ValidMetadata(description: string, attributes: Attributes) {
    && |description| <= 500
    && |attributes| <= 20
    && ValidAttributes(attributes)
  }

  // ---------------------------------------------------------------- the index

  function Lookup(index: Index, key: IndexKey): seq<TokenId> {
    if key in index then index[key] else []
  }

  predicate Hit(attributes: Attributes, key: IndexKey) {
    key.0 in attributes && attributes[key.0] == key.1
  }

  /** `remove_from_metadata_index` for one entry. */
  function RemoveEntry(index: Index, key: IndexKey, id: TokenId): Index {
    if key !in index then index
    else if Without(index[key], id) == [] then index - {key}
    else index[key := Without(index[key], id)]
  }

  /** `add_to_metadata_index` for one entry. */
  function AddEntry(index: Index, key: IndexKey, id: TokenId): Index {
    if id in Lookup(index, key) then index else index[key := Lookup(index, key) + [id]]
  }

  /** The index once `id` is gone from the entries of all of `attributes`. */
  function Unindexed(index: Index, attributes: Attributes, id: TokenId): Index {
    map key | key in index && !(Hit(attributes, key) && Without(index[key], id) == [])
      :: if Hit(attributes, key) then Without(index[key], id) else index[key]
  }

  /** The index once `id` is listed under all of `attributes`. */
  function Indexed(index: Index, attributes: Attributes, id: TokenId): Index {
    map key | key in index.Keys + attributes.Items
      :: if Hit(attributes, key) && id !in Lookup(index, key) then Lookup(index, key) + [id] else Lookup(index, key)
  }

  function Restrict(attributes: Attributes, keys: set<string>): Attributes {
    map k | k in attributes && k in keys :: attributes[k]
  }

  function AttributesOf(s: Store, id: TokenId): Attributes {
    if id in s.metadata then s.metadata[id].attributes else map[]
  }

  function HistoryOf(s: Store, id: TokenId): seq<MetadataUpdate> {
    if id in s.history then s.history[id] else []
  }

  // ---------------------------------------------------------------- operations

  /** The writes of `internal_set_token_metadata`. */
  function WriteMetadata(s: Store, now: u64, id: TokenId, description: string, attributes: Attributes,
                         version: u32): Store
    requires id in s.owners
  {
    s.(metadata := s.metadata[id := TokenMetadata(description, attributes, version, now, s.owners[id])],
       index := Indexed(Unindexed(s.index, AttributesOf(s, id), id), attributes, id),
       history := s.history[id := HistoryOf(s, id)
                                  + [MetadataUpdate(version, now, s.owners[id], description, attributes)]])
  }

  /** `internal_set_token_metadata`. */
  function SetMetadata(s: Store, now: u64, id: TokenId, description: string, attributes: Attributes): (Store, Outcome) {
    if id !in s.owners then (s, Err(TokenNotFound))
    else if id in s.metadata && s.metadata[id].version == U32_MAX then (s, Trap)
    else if !ValidMetadata(description, attributes) then (s, Err(MetadataValidationFailed))
    else
      var version := if id in s.metadata then s.metadata[id].version + 1 else 1;
      (WriteMetadata(s, now, id, description, attributes, version), Ok)
  }

  datatype BatchItem = BatchItem(id: TokenId, description: string, attributes: Attributes)

  /** The loop of `batch_set_token_metadata`; the first failure ends it. */
  function SetEach(s: Store, now: u64, items: seq<BatchItem>): (Store, Outcome) {
    if items == [] then (s, Ok)
    else
      var last := items[|items| - 1];
      var (s1, r) := SetEach(s, now, items[..|items| - 1]);
      if r != Ok then (s1, r) else SetMetadata(s1, now, last.id, last.description, last.attributes)
  }

  function BatchSet(s: Store, now: u64, items: seq<BatchItem>): (Store, Outcome) {
    if s.admin.None? then (s, Err(AdminNotSet))
    else
      var (s1, r) := SetEach(s, now, items);
      if r == Ok then (s1, Ok) else (s, r)
  }

  function UpdateMetadata(s: Store, now: u64, id: TokenId, updates: Attributes): (Store, Outcome) {
    if id !in s.owners then (s, Err(TokenNotFound))
    else if id !in s.metadata then (s, Err(MetadataNotFound))
    else
      var m := s.metadata[id];
      var attributes := m.attributes + updates;
      if !ValidAttributes(updates) || !ValidMetadata(m.description, attributes)
      then (s, Err(MetadataValidationFailed))
      else if m.version == U32_MAX then (s, Trap)
      else
        (s.(metadata := s.metadata[id := TokenMetadata(m.description, attributes, m.version + 1, now, s.owners[id])],
            index := Indexed(Unindexed(s.index, Restrict(m.attributes, updates.Keys), id), updates, id),
            history := s.history[id := HistoryOf(s, id)
                                       + [MetadataUpdate(m.version + 1, now, s.owners[id], m.description, updates)]]),
         Ok)
  }

  function RemoveAttributes(s: Store, now: u64, id: TokenId, keys: seq<string>): (Store, Outcome) {
    if id !in s.owners then (s, Err(TokenNotFound))
    else if id !in s.metadata then (s, Err(MetadataNotFound))
    else
      var m := s.metadata[id];
      var gone := set k | k in keys;
      if m.version == U32_MAX then (s, Trap)
      else
        (s.(metadata := s.metadata[id := TokenMetadata(m.description, m.attributes - gone, m.version + 1, now,
                                                       s.owners[id])],
            index := Unindexed(s.index, Restrict(m.attributes, gone), id)),
         Ok)
  }

  function Query(s: Store, key: string, value: MetadataValue): seq<TokenId> {
    Lookup(s.index, (key, value))
  }

  // ---------------------------------------------------------------- runs

  datatype Call =
    | DoSetAdmin(user: Address)
    | DoOwn(id: TokenId, user: Address)
    | DoSet(id: TokenId, description: string, attributes: Attributes)
    | DoBatch(items: seq<BatchItem>)
    | DoUpdate(id: TokenId, updates: Attributes)
    | DoRemove(id: TokenId, keys: seq<string>)

  datatype Event = Event(now: u64, call: Call)

  function Step(s: Store, e: Event): Store {
    match e.call
    case DoSetAdmin(a) => s.(admin := Some(a))
    case DoOwn(id, user) => s.(owners := s.owners[id := user])
    case DoSet(id, d, attributes) => if s.admin.None? then s else SetMetadata(s, e.now, id, d, attributes).0
    case DoBatch(items) => BatchSet(s, e.now, items).0
    case DoUpdate(id, updates) => UpdateMetadata(s, e.now, id, updates).0
    case DoRemove(id, keys) => RemoveAttributes(s, e.now, id, keys).0
  }

  function Run(es: seq<Event>): Store {
    if es == [] then EMPTY
    else Step(Run(es[..|es| - 1]), es[|es| - 1])
  }
}
