/**
 * `playlists.update`: replace the tags of one of the session user's submitted playlists. The id
 * must be non-empty and the tag list non-empty and free of repeats; the playlist must exist and
 * not be deleted, then belong to the session user. Its old tags are disconnected and the given
 * names connected, each reusing the tag row of that name or creating one.
 */
module PlaylistsUpdate {
  import opened Wrappers
  import opened Store
  import opened Schema

  /**
   * The update schema: the create schema's checks, then the `refine` that the set of the names
   * has as many elements as the list.
   */
  function ParseUpdate(input: PlaylistInput): (r: Result<Submission, Error>)
    ensures r.Err? ==> r.error == BadRequest
    ensures r.Ok? <==> ParseCreate(input).Ok? && Distinct(ParseCreate(input).value.tags)
    ensures r.Ok? ==> r == ParseCreate(input)
  {
    match ParseCreate(input)
    case Err(e) => Err(e)
    case Ok(s) =>
      DistinctCount(s.tags);
      if |Names(s.tags)| == |s.tags| then Ok(s) else Err(BadRequest)
  }

  /** A repeated tag name passes the create schema but not the update schema. */
  lemma RepeatRejected()
    ensures var input := PlaylistInput(Some("p"), Some(["rock", "rock"]));
            ParseCreate(input).Ok? && ParseUpdate(input) == Err(BadRequest)
  {
    var input := PlaylistInput(Some("p"), Some(["rock", "rock"]));
    var tags := ParseCreate(input).value.tags;
    assert tags[0] == tags[1];
  }

  /** The outcome of `playlists.update` and the tables afterwards: a bad request is answered first. */
  function Update(t: Tables, user: string, input: PlaylistInput, storeOk: bool): (r: (Outcome, Tables))
    ensures ParseUpdate(input).Err? ==> r == (Fail(BadRequest), t)
    ensures ParseUpdate(input).Ok? ==> r == Retag(t, user, ParseUpdate(input).value, storeOk)
  {
    match ParseUpdate(input)
    case Err(e) => (Fail(e), t)
    case Ok(s) => Retag(t, user, s, storeOk)
  }

  /**
   * A validated update: NOT_FOUND unless an active record has the id, then FORBIDDEN unless it is
   * the user's, then the write; its tags become exactly the given names.
   */
  function Retag(t: Tables, user: string, s: Submission, storeOk: bool): (r: (Outcome, Tables))
    ensures r.0.Fail? ==> r.1 == t
    ensures FindActive(t.playlists, s.id).None? ==> r.0 == Fail(NotFound)
    ensures FindActive(t.playlists, s.id).Some? && t.playlists[s.id].userId != user ==> r.0 == Fail(Forbidden)
    ensures r.0 == Pass <==> FindActive(t.playlists, s.id).Some? && t.playlists[s.id].userId == user && storeOk
    ensures r.0 == Pass ==>
              && r.1.playlists == t.playlists[s.id := t.playlists[s.id].(tags := Names(s.tags))]
              && r.1.tags.Keys == t.tags.Keys + Names(s.tags)
              && (forall n | n in t.tags :: r.1.tags[n] == t.tags[n])
    ensures TablesValid(t) ==> TablesValid(r.1)
  {
    match FindActive(t.playlists, s.id)
    case None => (Fail(NotFound), t)
    case Some(playlist) =>
      if playlist.userId != user then (Fail(Forbidden), t)
      else if !storeOk then (Fail(InternalServerError), t)
      else
        var (tags, next) := ConnectOrCreate(t.tags, t.nextTagId, s.tags);
        var t' := Tables(t.playlists[s.id := playlist.(tags := Names(s.tags))], tags, next);
        RetagValid(t, s.id, Names(s.tags), t');
        (Pass, t')
  }

  /** Writing a set of names that the new tag table holds keeps the tables valid. */
  lemma RetagValid(t: Tables, id: string, names: set<string>, t': Tables)
    requires id in t.playlists && t'.playlists == t.playlists[id := t.playlists[id].(tags := names)]
    requires names <= t'.tags.Keys && t.tags.Keys <= t'.tags.Keys
    requires TagTableValid(t.tags, t.nextTagId) ==> TagTableValid(t'.tags, t'.nextTagId)
    ensures TablesValid(t) ==> TablesValid(t')
  {
    if TablesValid(t) {
      forall other | other in t'.playlists ensures t'.playlists[other].tags <= t'.tags.Keys {
        if other != id { assert t'.playlists[other] == t.playlists[other]; }
      }
    }
  }

  /**
   * The resolver: parse, look the playlist up among the active records, check its owner, then
   * disconnect the old tags and connect or create the given names.
   */
  method Resolve(db: Database, user: string, input: PlaylistInput, storeOk: bool) returns (r: Outcome)
    requires db.Valid()
    modifies db
    ensures db.Valid()
    ensures (r, db.State()) == Update(old(db.State()), user, input, storeOk)
  {
    var parsed := ParseUpdate(input);
    if parsed.Err? {
      return Fail(parsed.error);
    }
    r := Write(db, user, parsed.value, storeOk);
  }

  /** The resolver after validation: the lookup, the owner check and the write. */
  method Write(db: Database, user: string, s: Submission, storeOk: bool) returns (r: Outcome)
    requires db.Valid()
    modifies db
    ensures db.Valid()
    ensures (r, db.State()) == Retag(old(db.State()), user, s, storeOk)
  {
    var playlist := FindActive(db.playlists, s.id);
    if playlist.None? {
      return Fail(NotFound);
    }
    if playlist.value.userId != user {
      return Fail(Forbidden);
    }
    if !storeOk {
      return Fail(InternalServerError);
    }
    var tags, next := ConnectTags(db.tags, db.nextTagId, s.tags);
    db.playlists := db.playlists[s.id := playlist.value.(tags := Names(s.tags))];
    db.tags, db.nextTagId := tags, next;
    return Pass;
  }

  /** `connectOrCreate` over the names in order: reuse the row of each known name, else add one. */
  method ConnectTags(table: map<string, nat>, next: nat, names: seq<string>) returns (t: map<string, nat>, n: nat)
    ensures (t, n) == ConnectOrCreate(table, next, names)
  {
    t, n := table, next;
    var i := 0;
    while i < |names|
      invariant 0 <= i <= |names|
      invariant ConnectOrCreate(t, n, names[i..]) == ConnectOrCreate(table, next, names)
    {
      assert names[i..][1..] == names[i + 1..];
      if names[i] !in t {
        t, n := t[names[i] := n], n + 1;
      }
      i := i + 1;
    }
  }

  /**
   * Updating twice with the same input leaves what the first update left: the second finds the
   * same owner, sets the same names and creates no tag row.
   */
  lemma UpdateIdempotent(t: Tables, user: string, input: PlaylistInput, storeOk: bool)
    requires Update(t, user, input, storeOk).0 == Pass
    ensures var t' := Update(t, user, input, storeOk).1;
            Update(t', user, input, storeOk) == (Pass, t')
  {
    RetagIdempotent(t, user, ParseUpdate(input).value, storeOk);
  }

  lemma RetagIdempotent(t: Tables, user: string, s: Submission, storeOk: bool)
    requires Retag(t, user, s, storeOk).0 == Pass
    ensures var t' := Retag(t, user, s, storeOk).1;
            Retag(t', user, s, storeOk) == (Pass, t')
  {
    var t' := Retag(t, user, s, storeOk).1;
    var rec := t'.playlists[s.id];
    assert rec == t.playlists[s.id].(tags := Names(s.tags));
    assert FindActive(t'.playlists, s.id) == Some(rec);
    assert ConnectOrCreate(t'.tags, t'.nextTagId, s.tags) == (t'.tags, t'.nextTagId);
    assert t'.playlists[s.id := rec.(tags := Names(s.tags))] == t'.playlists;
  }

  /** An update changes tags only: the set of every user's submitted playlists stays the same. */
  lemma UpdateKeepsSubmitted(t: Tables, user: string, input: PlaylistInput, storeOk: bool, u: string)
    requires Update(t, user, input, storeOk).0 == Pass
    ensures SubmittedIds(Update(t, user, input, storeOk).1.playlists, u) == SubmittedIds(t.playlists, u)
  {
    var id := ParseUpdate(input).value.id;
    SubmittedIgnoresTags(t.playlists, id, Names(ParseUpdate(input).value.tags), u);
  }

  /** Rewriting a record's tags does not change whose active playlists the store holds. */
  lemma SubmittedIgnoresTags(records: map<string, PlaylistRecord>, id: string, names: set<string>, u: string)
    requires id in records
    ensures SubmittedIds(records[id := records[id].(tags := names)], u) == SubmittedIds(records, u)
  {
    var records' := records[id := records[id].(tags := names)];
    forall x ensures x in SubmittedIds(records', u) <==> x in SubmittedIds(records, u) {
      if x == id {
        assert records'[x].userId == records[x].userId && records'[x].deletedAt == records[x].deletedAt;
      }
    }
  }
}
