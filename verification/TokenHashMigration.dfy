/** Hashing stored refresh tokens in place, page by page
    (backend/src/migrations/HashRefreshTokensAtRest1790000000000.ts). */
module TokenHashMigration {
  import opened Prelude

  /** Row ids are UUIDs; only their order matters. The cursor starts at the smallest one, the nil UUID. */
  const NIL_ID: nat := 0

  type Table = map<nat, string>

  /** `isHashedRefreshToken`: 64 lower-case hexadecimal digits. */
  predicate IsHashed(token: string) {
    |token| == 64 && forall i :: 0 <= i < |token| ==> '0' <= token[i] <= '9' || 'a' <= token[i] <= 'f'
  }

  /** What the loop does to one token. */
  function Hashed(token: string, hash: string -> string): string {
    if IsHashed(token) then token else hash(token)
  }

  /** The final cast of the column to varchar(64). */
  function Cut(token: string): string {
    if |token| > 64 then token[..64] else token
  }

  /** The table after the migration, said row by row. */
  function Migrated(rows: Table, hash: string -> string): Table {
    map id | id in rows :: Cut(if id > NIL_ID then Hashed(rows[id], hash) else rows[id])
  }

  function Above(rows: Table, cursor: nat): set<nat> {
    set id | id in rows && id > cursor
  }

  // ---------------------------------------------------------------- pages

  lemma {:induction false} AscendingIsUnique(a: seq<nat>, s: set<nat>)
    requires forall i, j :: 0 <= i < j < |a| ==> a[i] < a[j]
    requires forall x :: x in a <==> x in s
    ensures a == Ascending(s)
  {
    if a != [] {
      assert a[0] in s;
      var m := MinOf(s);
      assert m in a;
      assert m == a[0];
      forall x ensures x in a[1..] <==> x in s - {m} {
        assert x in a <==> x == a[0] || x in a[1..];
      }
      AscendingIsUnique(a[1..], s - {m});
    } else {
      assert forall x :: x in s ==> x in a;
      assert s == {};
    }
  }

  /** Behind the last id of a page come exactly the ids after the page. */
  lemma NextPage(rows: Table, cursor: nat, k: nat)
    requires 0 < k <= |Ascending(Above(rows, cursor))|
    ensures var a := Ascending(Above(rows, cursor));
      && a[k - 1] > cursor && a[k..] == Ascending(Above(rows, a[k - 1]))
  {
    var s := Above(rows, cursor);
    var a := Ascending(s);
    AscendingLists(s);
    assert a[k - 1] in s;
    forall x ensures x in a[k..] <==> x in Above(rows, a[k - 1]) {
      if x in a[k..] {
        var i :| k <= i < |a| && a[i] == x;
        assert x in s;
      }
      if x in Above(rows, a[k - 1]) {
        assert x in a;
        var i :| 0 <= i < |a| && a[i] == x;
        assert i >= k;
      }
    }
    AscendingIsUnique(a[k..], Above(rows, a[k - 1]));
  }

  // ---------------------------------------------------------------- the migration

  class RefreshTokens {
    var rows: Table

    constructor (initial: Table)
      ensures rows == initial
    {
      rows := initial;
    }

    /** SELECT ... WHERE id > cursor ORDER BY id LIMIT n. */
    method SelectPage(cursor: nat, limit: nat) returns (page: seq<(nat, string)>)
      ensures var ids := Ascending(Above(rows, cursor));
        && |page| == Min(limit, |ids|)
        && forall i :: 0 <= i < |page| ==> page[i].0 == ids[i] && page[i].0 in rows && page[i].1 == rows[page[i].0]
    {
      var ids := Ascending(Above(rows, cursor));
      AscendingLists(Above(rows, cursor));
      page := [];
      for i := 0 to Min(limit, |ids|)
        invariant |page| == i
        invariant forall j :: 0 <= j < i ==> page[j].0 == ids[j] && page[j].0 in rows && page[j].1 == rows[page[j].0]
      {
        assert ids[i] in Above(rows, cursor);
        page := page + [(ids[i], rows[ids[i]])];
      }
    }

    /** The body of the page loop: hash the tokens of `page` that are not hashed yet. */
    method RewritePage(page: seq<(nat, string)>, ghost cursor: nat, hash: string -> string)
      requires var ids := Ascending(Above(rows, cursor));
        && 0 < |page| <= |ids|
        && forall i :: 0 <= i < |page| ==> page[i].0 == ids[i] && page[i].0 in rows && page[i].1 == rows[page[i].0]
      modifies this
      ensures Rewritten(old(rows), rows, cursor, page, hash)
    {
      DistinctRows(rows, cursor, page);
      for i := 0 to |page|
        invariant RewrittenUpTo(old(rows), rows, page, i, hash)
      {
        RewriteNext(old(rows), rows, page, i, hash);
        if !IsHashed(page[i].1) {
          rows := rows[page[i].0 := hash(page[i].1)];
        }
      }
    }

    method ProcessPage(ghost start: Table, ghost visited: seq<nat>, cursor: nat, page: seq<(nat, string)>,
                       hash: string -> string) returns (ghost read: seq<nat>)
      requires Progress(start, rows, visited, cursor, hash)
      requires var ids := Ascending(Above(rows, cursor));
        && 0 < |page| <= |ids|
        && forall i :: 0 <= i < |page| ==> page[i].0 == ids[i] && page[i].0 in rows && page[i].1 == rows[page[i].0]
      modifies this
      ensures Progress(start, rows, read, page[|page| - 1].0, hash)
      ensures |Ascending(Above(rows, page[|page| - 1].0))| == old(|Ascending(Above(rows, cursor))|) - |page|
    {
      ghost var before := rows;
      read := visited + Ascending(Above(rows, cursor))[..|page|];
      RewritePage(page, cursor, hash);
      PageAdvances(start, before, rows, visited, cursor, page, hash);
    }

    /** The page loop of `up`. */
    method HashPages(hash: string -> string, pageSize: nat) returns (ghost visited: seq<nat>, ghost last: nat)
      requires pageSize > 0
      modifies this
      ensures Progress(old(rows), rows, visited, last, hash) && Ascending(Above(rows, last)) == []
    {
      visited := [];
      var cursor := NIL_ID;
      ghost var start := rows;
      assert visited + Ascending(Above(rows, cursor)) == Ascending(Above(rows, cursor));
      while true
        invariant Progress(start, rows, visited, cursor, hash)
        decreases |Ascending(Above(rows, cursor))|
      {
        var page := SelectPage(cursor, pageSize);
        if |page| == 0 { break; }
        visited := ProcessPage(start, visited, cursor, page, hash);
        cursor := page[|page| - 1].0;
        if |page| < pageSize { break; }
      }
      last := cursor;
    }

    /** `up`, for any page size. `visited` lists the rows in the order in which they were read. */
    method Up(hash: string -> string, pageSize: nat) returns (ghost visited: seq<nat>)
      requires pageSize > 0
      modifies this
      ensures rows == Migrated(old(rows), hash)
      ensures visited == Ascending(Above(old(rows), NIL_ID)) && Distinct(visited)
    {
      ghost var last: nat;
      visited, last := HashPages(hash, pageSize);
      NothingAhead(old(rows), rows, visited, last, hash);
      rows := map id | id in rows :: Cut(rows[id]);
    }
  }

  /** The rows read so far, in order, are those up to the cursor; they are hashed and the others are as at the start. */
  ghost predicate Progress(start: Table, rows: Table, visited: seq<nat>, cursor: nat, hash: string -> string) {
    && rows.Keys == start.Keys
    && visited + Ascending(Above(rows, cursor)) == Ascending(Above(start, NIL_ID))
    && (forall id :: id in rows ==> rows[id] == if id in visited then Hashed(start[id], hash) else start[id])
  }

  /** `after` is `before` with the first ids above the cursor, those of `page`, hashed. */
  ghost predicate Rewritten(before: Table, after: Table, cursor: nat, page: seq<(nat, string)>,
                            hash: string -> string) {
    var ids := Ascending(Above(before, cursor));
    && after.Keys == before.Keys
    && 0 < |page| <= |ids|
    && (forall i :: 0 <= i < |page| ==> page[i].0 == ids[i] && page[i].0 in before && page[i].1 == before[page[i].0])
    && (forall i :: 0 <= i < |page| ==> after[page[i].0] == Hashed(page[i].1, hash))
    && (forall id :: id in before && (forall i :: 0 <= i < |page| ==> page[i].0 != id) ==> after[id] == before[id])
  }

  ghost predicate RowsAreDistinct(page: seq<(nat, string)>) {
    forall i, j :: 0 <= i < j < |page| ==> page[i].0 != page[j].0
  }

  lemma DistinctRows(rows: Table, cursor: nat, page: seq<(nat, string)>)
    requires |page| <= |Ascending(Above(rows, cursor))|
    requires forall i :: 0 <= i < |page| ==> page[i].0 == Ascending(Above(rows, cursor))[i]
    ensures RowsAreDistinct(page)
  {
    AscendingLists(Above(rows, cursor));
  }

  ghost predicate ReadFrom(rows: Table, page: seq<(nat, string)>) {
    forall j :: 0 <= j < |page| ==> page[j].0 in rows && page[j].1 == rows[page[j].0]
  }

  /** `after` is `before` with the rows of the first `i` entries of `page` hashed. */
  ghost predicate RewrittenUpTo(before: Table, after: Table, page: seq<(nat, string)>, i: nat, hash: string -> string) {
    && after.Keys == before.Keys && ReadFrom(before, page) && RowsAreDistinct(page)
    && (forall j :: 0 <= j < |page| ==>
          after[page[j].0] == if j < i then Hashed(page[j].1, hash) else page[j].1)
    && (forall id :: id in before && (forall j :: 0 <= j < |page| ==> page[j].0 != id) ==> after[id] == before[id])
  }

  lemma RewriteNext(before: Table, after: Table, page: seq<(nat, string)>, i: nat, hash: string -> string)
    requires i < |page| && RewrittenUpTo(before, after, page, i, hash)
    ensures RewrittenUpTo(before, after[page[i].0 := Hashed(page[i].1, hash)], page, i + 1, hash)
    ensures IsHashed(page[i].1) ==> after[page[i].0 := Hashed(page[i].1, hash)] == after
  {
  }

  /** The rows read with the page, and those still ahead, are those ahead before it. */
  lemma PageLeaves(before: Table, after: Table, visited: seq<nat>, cursor: nat, k: nat)
    requires after.Keys == before.Keys && 0 < k <= |Ascending(Above(before, cursor))|
    ensures var ids := Ascending(Above(before, cursor));
      && Ascending(Above(after, ids[k - 1])) == ids[k..]
      && visited + ids[..k] + Ascending(Above(after, ids[k - 1])) == visited + ids
  {
    var ids := Ascending(Above(before, cursor));
    NextPage(before, cursor, k);
    SameKeysAbove(before, after, ids[k - 1]);
    assert visited + ids[..k] + ids[k..] == visited + ids;
  }

  lemma PageAdvances(start: Table, before: Table, after: Table, visited: seq<nat>, cursor: nat,
                     page: seq<(nat, string)>, hash: string -> string)
    requires Progress(start, before, visited, cursor, hash) && Rewritten(before, after, cursor, page, hash)
    ensures var ids := Ascending(Above(before, cursor));
      && Progress(start, after, visited + ids[..|page|], page[|page| - 1].0, hash)
      && |Ascending(Above(after, page[|page| - 1].0))| == |ids| - |page|
  {
    var ids := Ascending(Above(before, cursor));
    PageLeaves(before, after, visited, cursor, |page|);
    PageRows(start, before, after, visited, cursor, page, hash);
  }

  lemma PageRows(start: Table, before: Table, after: Table, visited: seq<nat>, cursor: nat,
                 page: seq<(nat, string)>, hash: string -> string)
    requires Progress(start, before, visited, cursor, hash) && Rewritten(before, after, cursor, page, hash)
    ensures var read := visited + Ascending(Above(before, cursor))[..|page|];
      forall id :: id in after ==> after[id] == if id in read then Hashed(start[id], hash) else start[id]
  {
    forall id | id in after
      ensures after[id] == if id in visited + Ascending(Above(before, cursor))[..|page|]
                           then Hashed(start[id], hash) else start[id]
    {
      PageRow(start, before, after, visited, cursor, page, hash, id);
    }
  }

  lemma SameKeysAbove(a: Table, c: Table, cursor: nat)
    requires a.Keys == c.Keys
    ensures Above(a, cursor) == Above(c, cursor)
  {
  }

  lemma PageRow(start: Table, before: Table, after: Table, visited: seq<nat>, cursor: nat,
                page: seq<(nat, string)>, hash: string -> string, id: nat)
    requires Progress(start, before, visited, cursor, hash) && Rewritten(before, after, cursor, page, hash)
    requires id in after
    ensures var ids := Ascending(Above(before, cursor));
      after[id] == if id in visited || id in ids[..|page|] then Hashed(start[id], hash) else start[id]
  {
    var ids := Ascending(Above(before, cursor));
    PageIsFresh(start, before, visited, cursor, hash, id);
    if id in ids[..|page|] {
      var i :| 0 <= i < |page| && ids[i] == id;
      assert page[i].0 == id;
    } else {
      forall i | 0 <= i < |page| ensures page[i].0 != id {
        assert ids[i] == ids[..|page|][i];
      }
    }
  }

  /** No row is read twice. */
  lemma PageIsFresh(start: Table, rows: Table, visited: seq<nat>, cursor: nat, hash: string -> string, id: nat)
    requires Progress(start, rows, visited, cursor, hash)
    ensures id in Ascending(Above(rows, cursor)) ==> id !in visited
  {
    var ahead := Ascending(Above(rows, cursor));
    AscendingLists(Above(start, NIL_ID));
    if id in ahead {
      var j :| 0 <= j < |ahead| && ahead[j] == id;
      forall i | 0 <= i < |visited| ensures visited[i] != id {
        assert (visited + ahead)[i] != (visited + ahead)[|visited| + j];
      }
    }
  }

  lemma NothingAhead(start: Table, rows: Table, visited: seq<nat>, cursor: nat, hash: string -> string)
    requires Progress(start, rows, visited, cursor, hash) && Ascending(Above(rows, cursor)) == []
    ensures (map id | id in rows :: Cut(rows[id])) == Migrated(start, hash)
    ensures visited == Ascending(Above(start, NIL_ID)) && Distinct(visited)
  {
    AscendingLists(Above(start, NIL_ID));
    assert visited == visited + Ascending(Above(rows, cursor));
    forall id | id in rows ensures id in visited <==> id > NIL_ID {
      assert id in Above(start, NIL_ID) <==> id > NIL_ID;
    }
  }

  // ---------------------------------------------------------------- what the migration is for

  /** A token counts as hashed exactly if it is 64 digits out of these sixteen. */
  lemma HashedMeansHexadecimal(token: string)
    ensures IsHashed(token) <==> |token| == 64 && forall c :: c in token ==> c in "0123456789abcdef"
  {
    forall i | 0 <= i < |token|
      ensures token[i] in "0123456789abcdef" <==> '0' <= token[i] <= '9' || 'a' <= token[i] <= 'f'
    {
      DigitIsListed(token[i]);
    }
    forall c | IsHashed(token) && c in token ensures c in "0123456789abcdef" {
      var i :| 0 <= i < |token| && token[i] == c;
    }
    forall i | 0 <= i < |token| ensures token[i] in token {
    }
  }

  lemma DigitIsListed(c: char)
    ensures c in "0123456789abcdef" <==> '0' <= c <= '9' || 'a' <= c <= 'f'
  {
    var digits := "0123456789abcdef";
    assert |digits| == 16;
    assert forall i :: 0 <= i < 10 ==> digits[i] as int == '0' as int + i;
    assert forall i :: 10 <= i < 16 ==> digits[i] as int == 'a' as int + (i - 10);
    if '0' <= c <= '9' {
      assert digits[c as int - '0' as int] == c;
    }
    if 'a' <= c <= 'f' {
      assert digits[10 + (c as int - 'a' as int)] == c;
    }
  }

  /** What the migration makes of each row: a hash stays, other tokens are replaced by their hash, and a row under the
      nil id keeps its token, cut to the 64 characters of the new column. */
  lemma RowsBecome(rows: Table, hash: string -> string)
    requires forall t :: IsHashed(hash(t))
    ensures Migrated(rows, hash).Keys == rows.Keys
    ensures forall id :: id in rows && id > 0 ==>
              Migrated(rows, hash)[id] == if IsHashed(rows[id]) then rows[id] else hash(rows[id])
    ensures 0 in rows ==> Migrated(rows, hash)[0] == if |rows[0]| <= 64 then rows[0] else rows[0][..64]
  {
    forall id | id in rows && id > 0
      ensures Migrated(rows, hash)[id] == if IsHashed(rows[id]) then rows[id] else hash(rows[id])
    {
      assert IsHashed(hash(rows[id]));
    }
  }

  /** Running it again changes nothing, whatever the table. */
  lemma MigrationIsIdempotent(rows: Table, hash: string -> string)
    requires forall t :: IsHashed(hash(t))
    ensures Migrated(Migrated(rows, hash), hash) == Migrated(rows, hash)
  {
    forall id | id in rows && id > NIL_ID ensures IsHashed(Migrated(rows, hash)[id]) {
      assert IsHashed(Hashed(rows[id], hash));
    }
  }

  /** The rows a lookup returns for the token a client presents: it compares the stored values with its hash. */
  ghost function FindByToken(rows: Table, presented: string, hash: string -> string): set<nat> {
    set id | id in rows && rows[id] == hash(presented)
  }

  /** Row `id` belongs to the session whose client holds `presented`: it stores the token itself or already its hash. */
  predicate BelongsTo(rows: Table, id: nat, presented: string, hash: string -> string) {
    id in rows && if IsHashed(rows[id]) then rows[id] == hash(presented) else rows[id] == presented
  }

  /** `presented` is another token than the one in plaintext in row `id`, and has the same hash. */
  predicate Collides(rows: Table, id: nat, presented: string, hash: string -> string) {
    id in rows && !IsHashed(rows[id]) && rows[id] != presented && hash(rows[id]) == hash(presented)
  }

  /** Already issued sessions survive, and no others appear: after the migration a lookup of the token a client holds
      finds, above the sentinel, exactly the rows that belonged to its session before, but for collisions. */
  lemma IssuedSessionsSurvive(rows: Table, hash: string -> string, presented: string, id: nat)
    requires forall t :: IsHashed(hash(t))
    requires id > NIL_ID
    ensures id in FindByToken(Migrated(rows, hash), presented, hash) <==>
              BelongsTo(rows, id, presented, hash) || Collides(rows, id, presented, hash)
  {
    if id in rows {
      assert IsHashed(Hashed(rows[id], hash));
    }
  }

  /** No plaintext is left, exactly when a row under the nil UUID, which the cursor never reaches, is absent or
      already hashed (or happens to be cut to 64 hexadecimal digits by the column cast). */
  lemma NothingIsLeftInPlaintextExactly(rows: Table, hash: string -> string)
    requires forall t :: IsHashed(hash(t))
    ensures (forall id :: id in rows ==> IsHashed(Migrated(rows, hash)[id]))
       <==> (NIL_ID in rows ==> IsHashed(Cut(rows[NIL_ID])))
  {
    forall id | id in rows && id > NIL_ID ensures IsHashed(Migrated(rows, hash)[id]) {
      assert IsHashed(Hashed(rows[id], hash));
    }
    if NIL_ID in rows {
      assert Migrated(rows, hash)[NIL_ID] == Cut(rows[NIL_ID]);
    }
  }
}
