/**
 * The local relational store: the playlist table (keyed by the remote playlist id), the tag table
 * (tag name to generated tag id) and the supply of fresh tag ids.
 */
module Store {
  import opened Wrappers

  /** One row of the playlist table; `tags` holds the names of the associated tags. */
  datatype PlaylistRecord = PlaylistRecord(
    userId: string,
    deletedAt: Option<int>,
    updatedAt: int,
    tags: set<string>)

  /** A record that is not soft-deleted (`deletedAt: null`). */
  predicate Active(rec: PlaylistRecord)
  {
    rec.deletedAt.None?
  }

  /** The names occurring in a list of tag names. */
  function Names(s: seq<string>): set<string>
  {
    set n | n in s
  }

  /** No name occurs twice. */
  predicate Distinct(s: seq<string>)
  {
    forall i, j | 0 <= i < j < |s| :: s[i] != s[j]
  }

  /** The `refine` of the update schema: the set of the names is as large as the list exactly when no name repeats. */
  lemma {:induction false} DistinctCount(s: seq<string>)
    ensures |Names(s)| == |s| <==> Distinct(s)
    decreases |s|
  {
    if |s| > 0 {
      var rest := s[1..];
      DistinctCount(rest);
      assert Names(s) == {s[0]} + Names(rest);
      if s[0] in rest {
        var k :| 0 <= k < |rest| && rest[k] == s[0];
        assert s[0] == s[k + 1];
        assert Names(s) == Names(rest);
        NamesAtMost(rest);
      } else {
        assert s[0] !in Names(rest);
        if Distinct(rest) {
          forall i, j | 0 <= i < j < |s| ensures s[i] != s[j] {
            if i == 0 {
              assert s[j] == rest[j - 1];
            } else {
              assert s[i] == rest[i - 1] && s[j] == rest[j - 1];
            }
          }
        } else {
          var i, j :| 0 <= i < j < |rest| && rest[i] == rest[j];
          assert s[i + 1] == s[j + 1];
        }
      }
    }
  }

  /** A list never has more distinct names than entries. */
  lemma {:induction false} NamesAtMost(s: seq<string>)
    ensures |Names(s)| <= |s|
    decreases |s|
  {
    if |s| > 0 {
      NamesAtMost(s[1..]);
      assert Names(s) == {s[0]} + Names(s[1..]);
    }
  }

  /** Every tag id is below the next fresh id and no two tag names share an id. */
  ghost predicate TagTableValid(table: map<string, nat>, next: nat)
  {
    && (forall n | n in table :: table[n] < next)
    && (forall a, b | a in table && b in table && a != b :: table[a] != table[b])
  }

  /**
   * `connectOrCreate` by name over a list of tag names: a name already in the tag table is reused,
   * a missing one gets a new row with the next fresh id. Returns the new table and id supply.
   */
  function ConnectOrCreate(table: map<string, nat>, next: nat, names: seq<string>)
    : (r: (map<string, nat>, nat))
    ensures r.0.Keys == table.Keys + Names(names)
    ensures forall n | n in table :: n in r.0 && r.0[n] == table[n]
    ensures next <= r.1
    ensures forall n | n in r.0 && n !in table :: next <= r.0[n] < r.1
    ensures TagTableValid(table, next) ==> TagTableValid(r.0, r.1)
    ensures Names(names) <= table.Keys ==> r == (table, next)
    decreases |names|
  {
    if |names| == 0 then (table, next)
    else
      var name := names[0];
      assert Names(names) == {name} + Names(names[1..]);
      if name in table then ConnectOrCreate(table, next, names[1..])
      else
        AddFreshTag(table, next, name);
        ConnectOrCreate(table[name := next], next + 1, names[1..])
  }

  /** A new tag row with the next fresh id keeps the tag table valid. */
  lemma AddFreshTag(table: map<string, nat>, next: nat, name: string)
    requires name !in table
    ensures TagTableValid(table, next) ==> TagTableValid(table[name := next], next + 1)
  {
  }

  /** Resolving the same names a second time creates no tag row and changes no id. */
  lemma ConnectOrCreateIdempotent(table: map<string, nat>, next: nat, names: seq<string>)
    ensures var (t1, n1) := ConnectOrCreate(table, next, names);
            ConnectOrCreate(t1, n1, names) == (t1, n1)
  {
  }

  /** `findFirst({ where: { id, deletedAt: null } })`: the active record with that id, if any. */
  function FindActive(playlists: map<string, PlaylistRecord>, id: string): (r: Option<PlaylistRecord>)
    ensures r.Some? <==> id in playlists && Active(playlists[id])
    ensures r.Some? ==> r.value == playlists[id]
  {
    if id in playlists && Active(playlists[id]) then Some(playlists[id]) else None
  }

  /** The ids of `user`'s active records (the already-submitted playlists). */
  function SubmittedIds(records: map<string, PlaylistRecord>, user: string): set<string>
  {
    set id | id in records && records[id].userId == user && Active(records[id])
  }

  /** The three pieces of stored state: the playlist table, the tag table and the fresh-id supply. */
  datatype Tables = Tables(playlists: map<string, PlaylistRecord>, tags: map<string, nat>, nextTagId: nat)

  /**
   * Playlist ids are non-empty (every write path validates them), every associated tag name has a
   * row in the tag table, and the tag table's ids are fresh and distinct.
   */
  ghost predicate TablesValid(t: Tables)
  {
    && "" !in t.playlists
    && (forall id | id in t.playlists :: t.playlists[id].tags <= t.tags.Keys)
    && TagTableValid(t.tags, t.nextTagId)
  }

  /** The database the mutations write to (`ctx.prisma`). */
  class Database {
    var playlists: map<string, PlaylistRecord>
    var tags: map<string, nat>
    var nextTagId: nat

    function State(): Tables
      reads this
    {
      Tables(playlists, tags, nextTagId)
    }

    ghost predicate Valid()
      reads this
    {
      TablesValid(State())
    }

    constructor ()
      ensures Valid()
      ensures State() == Tables(map[], map[], 0)
    {
      playlists := map[];
      tags := map[];
      nextTagId := 0;
    }
  }
}
