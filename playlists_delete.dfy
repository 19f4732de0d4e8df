/**
 * `playlists.delete`: a soft delete. The id must be non-empty; the playlist must exist and not be
 * deleted already, then belong to the session user; only then is its `deletedAt` set. The row,
 * its owner and its tags stay.
 */
module PlaylistsDelete {
  import opened Wrappers
  import opened Store
  import opened Keyset

  /** The request body: `id` may be missing. */
  datatype DeleteInput = DeleteInput(id: Option<string>)

  /** The input schema: a missing or empty id is a bad request. */
  predicate IdGiven(input: DeleteInput)
  {
    input.id.Some? && input.id.value != ""
  }

  /** The outcome of `playlists.delete` and the tables afterwards; `now` is the clock's reading. */
  function Delete(t: Tables, user: string, input: DeleteInput, now: int, storeOk: bool): (r: (Outcome, Tables))
    ensures r.0.Fail? ==> r.1 == t
    ensures r.0 == Fail(BadRequest) <==> !IdGiven(input)
    ensures IdGiven(input) && FindActive(t.playlists, input.id.value).None? ==> r.0 == Fail(NotFound)
    ensures (IdGiven(input) && FindActive(t.playlists, input.id.value).Some? &&
             t.playlists[input.id.value].userId != user) ==> r.0 == Fail(Forbidden)
    ensures r.0 == Pass <==>
              && IdGiven(input)
              && FindActive(t.playlists, input.id.value).Some?
              && t.playlists[input.id.value].userId == user
              && storeOk
    ensures r.0 == Pass ==>
              var id := input.id.value;
              && r.1.tags == t.tags && r.1.nextTagId == t.nextTagId
              && r.1.playlists.Keys == t.playlists.Keys
              && (forall other | other in t.playlists && other != id :: r.1.playlists[other] == t.playlists[other])
              && r.1.playlists[id].deletedAt == Some(now)
              && r.1.playlists[id].userId == t.playlists[id].userId
              && r.1.playlists[id].tags == t.playlists[id].tags
              && r.1.playlists[id].updatedAt == t.playlists[id].updatedAt
    ensures TablesValid(t) ==> TablesValid(r.1)
  {
    if !IdGiven(input) then (Fail(BadRequest), t)
    else
      var id := input.id.value;
      match FindActive(t.playlists, id)
      case None => (Fail(NotFound), t)
      case Some(playlist) =>
        if playlist.userId != user then (Fail(Forbidden), t)
        else if !storeOk then (Fail(InternalServerError), t)
        else (Pass, t.(playlists := t.playlists[id := playlist.(deletedAt := Some(now))]))
  }

  /**
   * The resolver: validate the input, look the playlist up among the active records, check its
   * owner, then write `deletedAt`. `storeOk` is whether the store accepts the write.
   */
  method Resolve(db: Database, user: string, input: DeleteInput, now: int, storeOk: bool) returns (r: Outcome)
    requires db.Valid()
    modifies db
    ensures db.Valid()
    ensures (r, db.State()) == Delete(old(db.State()), user, input, now, storeOk)
  {
    if !IdGiven(input) {
      return Fail(BadRequest);
    }
    var id := input.id.value;
    var playlist := FindActive(db.playlists, id);
    if playlist.None? {
      return Fail(NotFound);
    }
    if playlist.value.userId != user {
      return Fail(Forbidden);
    }
    if !storeOk {
      return Fail(InternalServerError);
    }
    db.playlists := db.playlists[id := playlist.value.(deletedAt := Some(now))];
    return Pass;
  }

  /**
   * After a successful delete the playlist drops out of every `deletedAt: null` query: it matches
   * no listing filter, no keyset page holds it, it leaves its owner's submitted ids (and nothing
   * else does), and deleting it again is NOT_FOUND.
   */
  lemma DeleteHides(t: Tables, user: string, input: DeleteInput, now: int, storeOk: bool)
    requires Delete(t, user, input, now, storeOk).0 == Pass
    ensures var t' := Delete(t, user, input, now, storeOk).1;
            var id := input.id.value;
            && (forall f: Filter :: !Matches(f, t'.playlists[id]))
            && (forall f: Filter, limit: nat, cursor: Option<string> | 1 <= limit ::
                  id !in PageOf(t'.playlists, f, limit, cursor).0)
            && (forall u :: SubmittedIds(t'.playlists, u) == SubmittedIds(t.playlists, u) - {id})
            && Delete(t', user, input, now, storeOk) == (Fail(NotFound), t')
  {
    var t' := Delete(t, user, input, now, storeOk).1;
    var id := input.id.value;
    forall f: Filter, limit: nat, cursor: Option<string> | 1 <= limit
      ensures id !in PageOf(t'.playlists, f, limit, cursor).0
    {
      PageMatches(t'.playlists, f, limit, cursor);
    }
  }
}
