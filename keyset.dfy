/**
 * The local-store query shared by the discovery listing and the submitted-playlists listing:
 * the active records matching a filter, ordered by `updatedAt` descending then `id` ascending,
 * read from an exclusive cursor, `limit + 1` at a time, then trimmed to `limit` with the id of
 * the last kept record as the next cursor.
 */
module Keyset {
  import opened Wrappers
  import opened Ordering
  import opened Store

  /** A remote playlist as the per-id fetch returns it (`fields: 'id,name,description,images,owner'`). */
  datatype RemoteDetail = RemoteDetail(
    id: string,
    name: string,
    description: Option<string>,
    images: seq<string>,
    ownerId: string)

  /** A listed row: the remote playlist with the tag names of its record. */
  datatype Row = Row(detail: RemoteDetail, tags: set<string>)

  /** The response of a local-store-driven listing. */
  datatype Listing = Listing(data: seq<Row>, cursor: Option<string>)

  /**
   * The remote details of the kept ids, in order, or None when the remote fetch of any of them
   * fails (`details` holds the ids the remote answers for; a failed request fails the page).
   */
  function FetchAll(kept: seq<string>, details: map<string, RemoteDetail>): (r: Option<seq<RemoteDetail>>)
    ensures r.Some? <==> forall i | 0 <= i < |kept| :: kept[i] in details
    ensures r.Some? ==> |r.value| == |kept| && forall i | 0 <= i < |kept| :: r.value[i] == details[kept[i]]
  {
    if |kept| == 0 then Some([])
    else if kept[0] !in details then None
    else
      match FetchAll(kept[1..], details)
      case None => None
      case Some(rest) => Some([details[kept[0]]] + rest)
  }

  /** The per-id remote requests, awaited in page order; the first failure fails them all. */
  method FetchEach(kept: seq<string>, remote: map<string, RemoteDetail>) returns (r: Option<seq<RemoteDetail>>)
    ensures r == FetchAll(kept, remote)
  {
    var fetched: seq<RemoteDetail> := [];
    var i := 0;
    while i < |kept|
      invariant 0 <= i <= |kept|
      invariant |fetched| == i
      invariant forall k | 0 <= k < i :: kept[k] in remote && fetched[k] == remote[kept[k]]
    {
      if kept[i] !in remote {
        return None;
      }
      fetched := fetched + [remote[kept[i]]];
      i := i + 1;
    }
    var all := FetchAll(kept, remote);
    assert all.Some? && |all.value| == |fetched|;
    assert forall k | 0 <= k < |fetched| :: all.value[k] == fetched[k];
    assert all.value == fetched;
    return Some(fetched);
  }

  /** The remote service answers each id with that playlist. */
  ghost predicate WellBehaved(remote: map<string, RemoteDetail>)
  {
    forall k | k in remote :: remote[k].id == k
  }

  /** The sort key of a record: its `updatedAt` and its id. */
  datatype SortKey = SortKey(updatedAt: int, id: string)

  /** `orderBy: [{ updatedAt: 'desc' }, { id: 'asc' }]`. */
  predicate KeyLess(a: SortKey, b: SortKey)
  {
    a.updatedAt > b.updatedAt || (a.updatedAt == b.updatedAt && StrLess(a.id, b.id))
  }

  lemma KeyLessIsStrictTotal()
    ensures StrictTotal(KeyLess)
  {
    StrLessIsStrictTotal();
    forall a: SortKey, b: SortKey, c: SortKey | KeyLess(a, b) && KeyLess(b, c)
      ensures KeyLess(a, c)
    {
      if a.updatedAt == b.updatedAt == c.updatedAt { StrLessTransitive(a.id, b.id, c.id); }
    }
    forall a: SortKey, b: SortKey | a != b ensures KeyLess(a, b) || KeyLess(b, a) {
      if a.updatedAt == b.updatedAt { StrLessTotal(a.id, b.id); }
    }
  }

  function KeyOf(records: map<string, PlaylistRecord>, id: string): SortKey
    requires id in records
  {
    SortKey(records[id].updatedAt, id)
  }

  /** The `where` clause of a listing. */
  datatype Filter =
    | Discovery(tagNames: Option<seq<string>>)  // `playlists.all`: tags in the given names
    | OwnedBy(userId: string)                   // `me.submittedPlaylists`: the session user's

  /**
   * `deletedAt: null`, and for the discovery listing `tags: { some: { tag: { name: { in } } } }`
   * where `in` is the given names when there are any and absent otherwise (so: at least one tag);
   * for the submitted listing `userId` is the session user.
   */
  predicate Matches(f: Filter, rec: PlaylistRecord)
  {
    && Active(rec)
    && match f
       case Discovery(names) =>
         if names.Some? && |names.value| > 0 then exists t | t in rec.tags :: t in names.value
         else rec.tags != {}
       case OwnedBy(user) => rec.userId == user
  }

  function EligibleKeys(records: map<string, PlaylistRecord>, f: Filter): set<SortKey>
  {
    set id | id in records && Matches(f, records[id]) :: KeyOf(records, id)
  }

  /** All eligible records in store order. */
  function Ordered(records: map<string, PlaylistRecord>, f: Filter): (r: seq<SortKey>)
    ensures forall k :: k in r <==> k.id in records && Matches(f, records[k.id]) && k == KeyOf(records, k.id)
    ensures Increasing(KeyLess, r)
  {
    KeyLessIsStrictTotal();
    SortSet(EligibleKeys(records, f), KeyLess)
  }

  function Ids(keys: seq<SortKey>): (r: seq<string>)
    ensures |r| == |keys| && forall i | 0 <= i < |keys| :: r[i] == keys[i].id
  {
    seq(|keys|, i requires 0 <= i < |keys| => keys[i].id)
  }

  lemma IdsAppend(a: seq<SortKey>, b: seq<SortKey>)
    ensures Ids(a + b) == Ids(a) + Ids(b)
  {
    forall i | 0 <= i < |a + b| ensures Ids(a + b)[i] == (Ids(a) + Ids(b))[i] {
      IdsAppendAt(a, b, i);
    }
  }

  lemma IdsAppendAt(a: seq<SortKey>, b: seq<SortKey>, i: int)
    requires 0 <= i < |a| + |b|
    ensures |Ids(a + b)| == |Ids(a) + Ids(b)|
    ensures Ids(a + b)[i] == (Ids(a) + Ids(b))[i]
  {
    if i < |a| { assert (a + b)[i] == a[i]; } else { assert (a + b)[i] == b[i - |a|]; }
  }

  /** A cursor is used only when it is truthy: present and not the empty string. */
  predicate CursorGiven(cursor: Option<string>)
  {
    cursor.Some? && cursor.value != ""
  }

  /** The keys of `s` that do not sort before `k` (the comparison a store cursor adds). */
  function NotBefore(s: seq<SortKey>, k: SortKey): seq<SortKey>
  {
    if |s| == 0 then []
    else (if KeyLess(s[0], k) then [] else [s[0]]) + NotBefore(s[1..], k)
  }

  /**
   * The rows of `ordered` a query starts from: all of them without a cursor; with one, those from
   * the cursor's record on (`cursor: { id }`) minus the first (`skip: 1`). A cursor id with no
   * record gives no rows.
   */
  function FromCursor(records: map<string, PlaylistRecord>, ordered: seq<SortKey>, cursor: Option<string>)
    : seq<SortKey>
  {
    if !CursorGiven(cursor) then ordered
    else if cursor.value !in records then []
    else
      var from := NotBefore(ordered, KeyOf(records, cursor.value));
      if |from| == 0 then [] else from[1..]
  }

  /**
   * The trim rule: with more than `limit` records drop the last one and return the id of the last
   * kept record as the next cursor, otherwise keep them all with no cursor.
   */
  function Trim(found: seq<string>, limit: nat): (seq<string>, Option<string>)
    requires 1 <= limit
  {
    if |found| == 0 then ([], None)
    else if |found| > limit then (found[..|found| - 1], Some(found[|found| - 2]))
    else (found, None)
  }

  /** The resolver's trim: drop the extra record, and take the last kept id as the cursor. */
  method TrimFound(found: seq<string>, limit: nat) returns (kept: seq<string>, next: Option<string>)
    requires 1 <= limit
    ensures (kept, next) == Trim(found, limit)
  {
    kept, next := found, None;
    if |found| > limit {
      kept := found[..|found| - 1];
      next := Some(kept[|kept| - 1]);
    }
  }

  /** Trimming keeps a prefix of what was found. */
  lemma TrimWithin(found: seq<string>, limit: nat)
    requires 1 <= limit
    ensures forall id | id in Trim(found, limit).0 :: id in found
  {
    if |found| > limit {
      forall id | id in found[..|found| - 1] ensures id in found {
        var i :| 0 <= i < |found| - 1 && found[..|found| - 1][i] == id;
        assert found[i] == id;
      }
    }
  }

  /** One page over the ordered rows: read `limit + 1` of them from the cursor on, then trim. */
  function PageIn(records: map<string, PlaylistRecord>, ordered: seq<SortKey>, limit: nat, cursor: Option<string>)
    : (seq<string>, Option<string>)
    requires 1 <= limit
  {
    Trim(Ids(Take(FromCursor(records, ordered, cursor), limit + 1)), limit)
  }

  /** `findMany({ take, where, orderBy, cursor, skip })`: the ids of the records found, in order. */
  function FindMany(records: map<string, PlaylistRecord>, f: Filter, cursor: Option<string>, take: nat)
    : seq<string>
  {
    Ids(Take(FromCursor(records, Ordered(records, f), cursor), take))
  }

  /** The page a listing builds: `limit + 1` records found, then trimmed. */
  function PageOf(records: map<string, PlaylistRecord>, f: Filter, limit: nat, cursor: Option<string>)
    : (seq<string>, Option<string>)
    requires 1 <= limit
  {
    Trim(FindMany(records, f, cursor, limit + 1), limit)
  }

  /** `ordered` is strictly increasing and holds the sort keys of records of the table. */
  ghost predicate KeysOf(records: map<string, PlaylistRecord>, ordered: seq<SortKey>)
  {
    && Increasing(KeyLess, ordered)
    && forall i | 0 <= i < |ordered| :: ordered[i].id in records && ordered[i] == KeyOf(records, ordered[i].id)
  }

  /** Every id a query returns names a record of the table that matches the filter. */
  lemma FoundMatches(records: map<string, PlaylistRecord>, f: Filter, cursor: Option<string>, take: nat)
    ensures forall id | id in FindMany(records, f, cursor, take) :: id in records && Matches(f, records[id])
  {
    FoundIn(records, Ordered(records, f), f, cursor, take);
  }

  /** The same over any ordered rows that all match. */
  lemma FoundIn(records: map<string, PlaylistRecord>, o: seq<SortKey>, f: Filter, cursor: Option<string>, take: nat)
    requires forall k | k in o :: k.id in records && Matches(f, records[k.id])
    ensures forall id | id in Ids(Take(FromCursor(records, o, cursor), take)) :: id in records && Matches(f, records[id])
  {
    var from := FromCursor(records, o, cursor);
    FromCursorWithin(records, o, cursor);
    var found := Ids(Take(from, take));
    forall id | id in found ensures id in records && Matches(f, records[id]) {
      var i :| 0 <= i < |found| && found[i] == id;
      assert Take(from, take)[i] == from[i];
      assert from[i] in o;
    }
  }

  /** Every id a page keeps names a record of the table that matches the filter. */
  lemma PageMatches(records: map<string, PlaylistRecord>, f: Filter, limit: nat, cursor: Option<string>)
    requires 1 <= limit
    ensures forall id | id in PageOf(records, f, limit, cursor).0 :: id in records && Matches(f, records[id])
  {
    PageInMatches(records, Ordered(records, f), f, limit, cursor);
  }

  /** The same over any ordered rows that all match. */
  lemma PageInMatches(records: map<string, PlaylistRecord>, o: seq<SortKey>, f: Filter, limit: nat, cursor: Option<string>)
    requires 1 <= limit
    requires forall k | k in o :: k.id in records && Matches(f, records[k.id])
    ensures forall id | id in PageIn(records, o, limit, cursor).0 :: id in records && Matches(f, records[id])
  {
    var found := Ids(Take(FromCursor(records, o, cursor), limit + 1));
    FoundIn(records, o, f, cursor, limit + 1);
    TrimWithin(found, limit);
    forall id | id in PageIn(records, o, limit, cursor).0 ensures id in records && Matches(f, records[id]) {
      assert id in found;
    }
  }

  /** A query reads only rows of the ordered sequence it is given. */
  lemma FromCursorWithin(records: map<string, PlaylistRecord>, o: seq<SortKey>, cursor: Option<string>)
    ensures forall x | x in FromCursor(records, o, cursor) :: x in o
  {
    if CursorGiven(cursor) && cursor.value in records {
      var from := NotBefore(o, KeyOf(records, cursor.value));
      NotBeforeSubset(o, KeyOf(records, cursor.value));
      if |from| > 0 {
        forall x | x in from[1..] ensures x in from {
          var i :| 0 <= i < |from[1..]| && from[1..][i] == x;
          assert from[i + 1] == x;
        }
      }
    }
  }

  lemma {:induction false} NotBeforeSubset(s: seq<SortKey>, k: SortKey)
    ensures forall x | x in NotBefore(s, k) :: x in s
    decreases |s|
  {
    if |s| > 0 {
      NotBeforeSubset(s[1..], k);
      forall x | x in s[1..] ensures x in s {
        var i :| 0 <= i < |s[1..]| && s[1..][i] == x;
        assert s[i + 1] == x;
      }
    }
  }

  lemma OrderedKeys(records: map<string, PlaylistRecord>, f: Filter)
    ensures KeysOf(records, Ordered(records, f))
  {
    var o := Ordered(records, f);
    forall i | 0 <= i < |o| ensures o[i].id in records && o[i] == KeyOf(records, o[i].id) {
      assert o[i] in o;
    }
  }

  /** In a strictly increasing sequence, the keys not before `s[j]` are exactly `s[j..]`. */
  lemma {:induction false} NotBeforeSuffix(s: seq<SortKey>, j: nat)
    requires Increasing(KeyLess, s) && j < |s|
    ensures NotBefore(s, s[j]) == s[j..]
    decreases |s|
  {
    KeyLessIsStrictTotal();
    assert Increasing(KeyLess, s[1..]) by {
      forall a, b | 0 <= a < b < |s[1..]| ensures KeyLess(s[1..][a], s[1..][b]) {
        assert KeyLess(s[a + 1], s[b + 1]);
      }
    }
    if j == 0 {
      assert !KeyLess(s[0], s[0]);
      if |s| > 1 {
        // every later key sorts after s[0], so none of them sorts before it
        NotBeforeAllAfter(s[1..], s[0]);
      }
    } else {
      assert KeyLess(s[0], s[j]);
      NotBeforeSuffix(s[1..], j - 1);
      assert s[1..][j - 1..] == s[j..];
    }
  }

  lemma {:induction false} NotBeforeAllAfter(s: seq<SortKey>, k: SortKey)
    requires forall i | 0 <= i < |s| :: KeyLess(k, s[i])
    ensures NotBefore(s, k) == s
    decreases |s|
  {
    KeyLessIsStrictTotal();
    if |s| > 0 {
      assert !KeyLess(s[0], k);
      NotBeforeAllAfter(s[1..], k);
      assert s == [s[0]] + s[1..];
    }
  }

  /** The id of the row at position `q`, used as a cursor, starts the query at position `q + 1`. */
  lemma CursorResumesAfter(records: map<string, PlaylistRecord>, o: seq<SortKey>, q: nat)
    requires "" !in records && KeysOf(records, o) && q < |o|
    ensures FromCursor(records, o, Some(o[q].id)) == o[q + 1..]
  {
    NotBeforeSuffix(o, q);
    assert o[q..][1..] == o[q + 1..];
  }

  /** The cursor a client holds before the page at position `p`: none at the start, else the id before `p`. */
  function CursorAt(o: seq<SortKey>, p: nat): Option<string>
    requires p <= |o|
  {
    if p == 0 then None else Some(o[p - 1].id)
  }

  /** The next `limit` rows from position `p`, and the cursor before the rows after them if any remain. */
  function Window(o: seq<SortKey>, p: nat, limit: nat): (seq<string>, Option<string>)
    requires 1 <= limit && p <= |o|
  {
    (Ids(o[p..Min(p + limit, |o|)]), if p + limit < |o| then CursorAt(o, p + limit) else None)
  }

  /** Reading `limit + 1` rows from position `p` and trimming gives the window at `p`. */
  lemma TrimWindow(o: seq<SortKey>, p: nat, limit: nat)
    requires 1 <= limit && p <= |o|
    ensures Trim(Ids(Take(o[p..], limit + 1)), limit) == Window(o, p, limit)
  {
    var found := Ids(Take(o[p..], limit + 1));
    if p + limit < |o| {
      assert |found| == limit + 1;
      assert found[..|found| - 1] == Ids(o[p..p + limit]);
    } else {
      assert Take(o[p..], limit + 1) == o[p..];
      assert o[p..Min(p + limit, |o|)] == o[p..];
    }
  }

  /** The cursor before position `p` starts the query at `p`. */
  lemma FromCursorAt(records: map<string, PlaylistRecord>, o: seq<SortKey>, p: nat)
    requires "" !in records && KeysOf(records, o) && p <= |o|
    ensures FromCursor(records, o, CursorAt(o, p)) == o[p..]
  {
    if p == 0 {
      assert o[0..] == o;
    } else {
      CursorResumesAfter(records, o, p - 1);
    }
  }

  /**
   * Resuming: starting from the cursor before position `p`, a page holds the next `limit` rows,
   * and its cursor is present exactly when rows remain after them, and it is the cursor before them.
   */
  lemma KeysetResume(records: map<string, PlaylistRecord>, o: seq<SortKey>, limit: nat, p: nat)
    requires 1 <= limit && "" !in records && KeysOf(records, o) && p <= |o|
    ensures PageIn(records, o, limit, CursorAt(o, p)) == Window(o, p, limit)
  {
    FromCursorAt(records, o, p);
    TrimWindow(o, p, limit);
  }

  /**
   * The ids a client collects by asking for a page, then asking again with each returned cursor
   * until none comes back, for at most `fuel` further requests; `page` answers one request.
   */
  function Follow(page: Option<string> -> (seq<string>, Option<string>), cursor: Option<string>, fuel: nat): seq<string>
    decreases fuel
  {
    var answer := page(cursor);
    if answer.1.None? || fuel == 0 then answer.0 else answer.0 + Follow(page, answer.1, fuel - 1)
  }

  /** One request against the store: the page over `o` from a cursor. */
  function PageRequest(records: map<string, PlaylistRecord>, o: seq<SortKey>, limit: nat): Option<string> -> (seq<string>, Option<string>)
    requires 1 <= limit
  {
    cursor => PageIn(records, o, limit, cursor)
  }

  /** The same pages by position: the window at `p`, then, while rows remain, the windows after it. */
  function PagesAt(o: seq<SortKey>, limit: nat, p: nat): seq<string>
    requires 1 <= limit && p <= |o|
    decreases |o| - p
  {
    var page := Window(o, p, limit);
    if page.1.None? then page.0 else page.0 + PagesAt(o, limit, p + limit)
  }

  /** The pages by position, put together, are the rows from `p` on. */
  lemma {:induction false} PagesAtAll(o: seq<SortKey>, limit: nat, p: nat)
    requires 1 <= limit && p <= |o|
    ensures PagesAt(o, limit, p) == Ids(o[p..])
    decreases |o| - p
  {
    var q := Min(p + limit, |o|);
    if p + limit < |o| {
      PagesAtAll(o, limit, q);
      IdsSplit(o, p, q);
    } else {
      assert o[p..q] == o[p..];
    }
  }

  /**
   * A client whose every request from the cursor before a position `q` is answered with the
   * window at `q` collects, from the cursor before `p`, the pages by position.
   */
  lemma {:induction false} FollowWindows(
    page: Option<string> -> (seq<string>, Option<string>), o: seq<SortKey>, limit: nat, p: nat, fuel: nat)
    requires 1 <= limit && p <= |o| && |o| - p <= fuel
    requires forall q {:trigger page(CursorAt(o, q))} | p <= q <= |o| :: page(CursorAt(o, q)) == Window(o, q, limit)
    ensures Follow(page, CursorAt(o, p), fuel) == PagesAt(o, limit, p)
    decreases fuel
  {
    if p + limit < |o| {
      FollowWindows(page, o, limit, p + limit, fuel - 1);
    }
  }

  lemma IdsSplit(o: seq<SortKey>, p: nat, q: nat)
    requires p <= q <= |o|
    ensures Ids(o[p..]) == Ids(o[p..q]) + Ids(o[q..])
  {
    assert o[p..] == o[p..q] + o[q..];
    IdsAppend(o[p..q], o[q..]);
  }

  /**
   * Following the cursors from the first page lists every eligible record exactly once, in store
   * order, and the last page carries no cursor (no extra empty page).
   */
  lemma NoGapsNoDuplicates(records: map<string, PlaylistRecord>, f: Filter, limit: nat)
    requires 1 <= limit && "" !in records
    ensures var o := Ordered(records, f);
            Follow(PageRequest(records, o, limit), None, |o|) == Ids(o)
  {
    var o := Ordered(records, f);
    OrderedKeys(records, f);
    forall q | 0 <= q <= |o| ensures PageRequest(records, o, limit)(CursorAt(o, q)) == Window(o, q, limit) {
      KeysetResume(records, o, limit, q);
    }
    FollowWindows(PageRequest(records, o, limit), o, limit, 0, |o|);
    PagesAtAll(o, limit, 0);
    assert o[0..] == o;
  }
}
