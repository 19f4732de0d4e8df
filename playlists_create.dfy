/**
 * `playlists.create`: submit one of the session user's remote playlists with some tag names. The
 * remote service is asked for the playlist's owner first (404 is NOT_FOUND, any other failure
 * INTERNAL_SERVER_ERROR, another owner FORBIDDEN); then the record is upserted by id: created
 * active with the given names, or (even when soft-deleted) made active again with the given
 * names connected to it.
 *
 * Each name is connected through a new join row `(playlist, tag)`; the join row's lookup key uses
 * a freshly generated tag id, so it never finds an existing row, and a join row for a tag the
 * playlist already has (an old tag of a resubmitted playlist, or a name listed twice) breaks the
 * join table's compound key: the write fails. `Submit` models that; `IntendedSubmit` connects
 * each name once.
 */
module PlaylistsCreate {
  import opened Wrappers
  import opened Store
  import opened Schema

  /** The owner lookup against the remote service (`fields: 'owner.id'`). */
  datatype Lookup =
    | Owner(id: string)   // the playlist exists; its owner's id
    | NoSuchPlaylist      // the service answered 404
    | LookupFailed        // any other failure

  /** The upsert's write: the record made active with the names added, and the tag rows they need. */
  function Upserted(t: Tables, user: string, s: Submission, now: int): (r: Tables)
    ensures r.playlists.Keys == t.playlists.Keys + {s.id}
    ensures forall other | other in t.playlists && other != s.id :: r.playlists[other] == t.playlists[other]
    ensures Active(r.playlists[s.id])
    ensures s.id !in t.playlists ==> r.playlists[s.id] == PlaylistRecord(user, None, now, Names(s.tags))
    ensures s.id in t.playlists ==>
              && r.playlists[s.id].userId == t.playlists[s.id].userId
              && r.playlists[s.id].updatedAt == t.playlists[s.id].updatedAt
              && r.playlists[s.id].tags == t.playlists[s.id].tags + Names(s.tags)
    ensures r.tags.Keys == t.tags.Keys + Names(s.tags)
    ensures forall n | n in t.tags :: r.tags[n] == t.tags[n]
    ensures TablesValid(t) && s.id != "" ==> TablesValid(r)
  {
    var (tags, next) := ConnectOrCreate(t.tags, t.nextTagId, s.tags);
    var rec :=
      if s.id in t.playlists then t.playlists[s.id].(deletedAt := None, tags := t.playlists[s.id].tags + Names(s.tags))
      else PlaylistRecord(user, None, now, Names(s.tags));
    var r := Tables(t.playlists[s.id := rec], tags, next);
    assert TablesValid(t) && s.id != "" ==> TablesValid(r) by {
      if TablesValid(t) && s.id != "" {
        forall id | id in r.playlists ensures r.playlists[id].tags <= r.tags.Keys {
          if id != s.id { assert r.playlists[id] == t.playlists[id]; }
        }
      }
    }
    r
  }

  /** A join row for some listed name already exists, or would be created twice. */
  predicate Collides(playlists: map<string, PlaylistRecord>, s: Submission)
  {
    || !Distinct(s.tags)
    || (s.id in playlists && playlists[s.id].tags * Names(s.tags) != {})
  }

  /** A validated submission, as the code does it: a colliding join row fails the whole write. */
  function Submit(t: Tables, user: string, s: Submission, lookup: Lookup, now: int, storeOk: bool): (r: (Outcome, Tables))
    ensures r.0.Fail? ==> r.1 == t
    ensures lookup == NoSuchPlaylist ==> r.0 == Fail(NotFound)
    ensures lookup == LookupFailed ==> r.0 == Fail(InternalServerError)
    ensures lookup.Owner? && lookup.id != user ==> r.0 == Fail(Forbidden)
    ensures r.0 == Pass <==> lookup == Owner(user) && storeOk && !Collides(t.playlists, s)
    ensures r.0 == Pass ==> r.1 == Upserted(t, user, s, now)
  {
    match lookup
    case NoSuchPlaylist => (Fail(NotFound), t)
    case LookupFailed => (Fail(InternalServerError), t)
    case Owner(owner) =>
      if owner != user then (Fail(Forbidden), t)
      else if !storeOk || Collides(t.playlists, s) then (Fail(InternalServerError), t)
      else (Pass, Upserted(t, user, s, now))
  }

  /** The same with each name connected once, whether or not the playlist already has it. */
  function IntendedSubmit(t: Tables, user: string, s: Submission, lookup: Lookup, now: int, storeOk: bool)
    : (r: (Outcome, Tables))
    ensures r.0.Fail? ==> r.1 == t
    ensures lookup == NoSuchPlaylist ==> r.0 == Fail(NotFound)
    ensures lookup == LookupFailed ==> r.0 == Fail(InternalServerError)
    ensures lookup.Owner? && lookup.id != user ==> r.0 == Fail(Forbidden)
    ensures r.0 == Pass <==> lookup == Owner(user) && storeOk
    ensures r.0 == Pass ==> r.1 == Upserted(t, user, s, now)
  {
    match lookup
    case NoSuchPlaylist => (Fail(NotFound), t)
    case LookupFailed => (Fail(InternalServerError), t)
    case Owner(owner) =>
      if owner != user then (Fail(Forbidden), t)
      else if !storeOk then (Fail(InternalServerError), t)
      else (Pass, Upserted(t, user, s, now))
  }

  /** The outcome of `playlists.create` and the tables afterwards: a bad request is answered first. */
  function Create(t: Tables, user: string, input: PlaylistInput, lookup: Lookup, now: int, storeOk: bool)
    : (r: (Outcome, Tables))
    ensures ParseCreate(input).Err? ==> r == (Fail(BadRequest), t)
    ensures ParseCreate(input).Ok? ==> r == Submit(t, user, ParseCreate(input).value, lookup, now, storeOk)
  {
    match ParseCreate(input)
    case Err(e) => (Fail(e), t)
    case Ok(s) => Submit(t, user, s, lookup, now, storeOk)
  }

  /**
   * The resolver: parse, ask the remote service for the owner, compare it with the session user,
   * then upsert.
   */
  method Resolve(db: Database, user: string, input: PlaylistInput, lookup: Lookup, now: int, storeOk: bool)
    returns (r: Outcome)
    requires db.Valid()
    modifies db
    ensures db.Valid()
    ensures (r, db.State()) == Create(old(db.State()), user, input, lookup, now, storeOk)
  {
    var parsed := ParseCreate(input);
    if parsed.Err? {
      return Fail(parsed.error);
    }
    r := Write(db, user, parsed.value, lookup, now, storeOk);
  }

  /** The resolver after validation. */
  method Write(db: Database, user: string, s: Submission, lookup: Lookup, now: int, storeOk: bool) returns (r: Outcome)
    requires db.Valid() && s.id != ""
    modifies db
    ensures db.Valid()
    ensures (r, db.State()) == Submit(old(db.State()), user, s, lookup, now, storeOk)
  {
    match lookup {
      case NoSuchPlaylist => return Fail(NotFound);
      case LookupFailed => return Fail(InternalServerError);
      case Owner(owner) =>
        if owner != user {
          return Fail(Forbidden);
        }
    }
    if !storeOk || Collides(db.playlists, s) {
      return Fail(InternalServerError);
    }
    var t := Upserted(db.State(), user, s, now);
    db.playlists, db.tags, db.nextTagId := t.playlists, t.tags, t.nextTagId;
    return Pass;
  }

  /** Whenever no join row collides, the code does what was intended. */
  lemma SubmitAsIntended(t: Tables, user: string, s: Submission, lookup: Lookup, now: int, storeOk: bool)
    requires !Collides(t.playlists, s)
    ensures Submit(t, user, s, lookup, now, storeOk) == IntendedSubmit(t, user, s, lookup, now, storeOk)
  {
  }

  /**
   * Submitting is how a soft-deleted playlist comes back: after its owner resubmits it, it is
   * active again, owned as before, listed among the owner's submitted playlists, with its old
   * tags and the new names.
   */
  lemma ResubmitRestores(t: Tables, user: string, s: Submission, now: int)
    requires s.id in t.playlists && !Active(t.playlists[s.id]) && t.playlists[s.id].userId == user
    ensures var r := IntendedSubmit(t, user, s, Owner(user), now, true);
            && r.0 == Pass
            && FindActive(r.1.playlists, s.id).Some?
            && r.1.playlists[s.id].userId == user
            && s.id in SubmittedIds(r.1.playlists, user)
            && r.1.playlists[s.id].tags == t.playlists[s.id].tags + Names(s.tags)
  {
  }

  /** A soft-deleted playlist resubmitted with one of its old tags: the code fails the write. */
  lemma ResubmitOldTagFails()
    ensures var t := Tables(map["p" := PlaylistRecord("u", Some(5), 3, {"rock"})], map["rock" := 0], 1);
            var s := Submission("p", ["rock"]);
            && Submit(t, "u", s, Owner("u"), 9, true) == (Fail(InternalServerError), t)
            && IntendedSubmit(t, "u", s, Owner("u"), 9, true).0 == Pass
  {
    var t := Tables(map["p" := PlaylistRecord("u", Some(5), 3, {"rock"})], map["rock" := 0], 1);
    var s := Submission("p", ["rock"]);
    assert "rock" in t.playlists["p"].tags * Names(s.tags);
  }

  /** A new playlist submitted with a name listed twice: the code fails the write. */
  lemma RepeatedNameFails()
    ensures var t := Tables(map[], map[], 0);
            var s := Submission("p", ["rock", "rock"]);
            && Submit(t, "u", s, Owner("u"), 9, true) == (Fail(InternalServerError), t)
            && IntendedSubmit(t, "u", s, Owner("u"), 9, true).0 == Pass
  {
    var s := Submission("p", ["rock", "rock"]);
    assert s.tags[0] == s.tags[1];
  }
}
