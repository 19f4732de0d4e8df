/**
 * `me.submittedPlaylists`: the session user's own submitted playlists. One keyset page of the
 * user's active records, each joined with the playlist details the remote service returns; an
 * answer whose id is not on the page is kept, with no tags.
 */
module MeSubmitted {
  import opened Wrappers
  import opened Store
  import opened Keyset

  /** The largest page the endpoint accepts. */
  const MaxLimit := 10

  /** Each fetched detail, in fetch order, with the tags of the page record of the same id, or none. */
  function WithTags(ds: seq<RemoteDetail>, kept: seq<string>, records: map<string, PlaylistRecord>): seq<Row>
    requires forall id | id in kept :: id in records
  {
    if |ds| == 0 then []
    else
      var d := ds[|ds| - 1];
      WithTags(ds[..|ds| - 1], kept, records) + [Row(d, if d.id in kept then records[d.id].tags else {})]
  }

  /** The listing of one page: fetch each kept id, then join; a failed fetch fails the page. */
  function PageListing(page: (seq<string>, Option<string>), records: map<string, PlaylistRecord>, remote: map<string, RemoteDetail>)
    : Result<Listing, Error>
    requires forall id | id in page.0 :: id in records
  {
    match FetchAll(page.0, remote)
    case None => Err(InternalServerError)
    case Some(ds) => Ok(Listing(WithTags(ds, page.0, records), page.1))
  }

  /** The response the endpoint specifies for a session user and given inputs. */
  function Response(
    records: map<string, PlaylistRecord>, user: string, limit: int, cursor: Option<string>,
    remote: map<string, RemoteDetail>)
    : Result<Listing, Error>
  {
    if !(1 <= limit <= MaxLimit) then Err(BadRequest)
    else
      PageMatches(records, OwnedBy(user), limit, cursor);
      PageListing(PageOf(records, OwnedBy(user), limit, cursor), records, remote)
  }

  /**
   * The resolver: validate `limit`, query `limit + 1` of the user's records, return early on an
   * empty page, trim, fetch each kept playlist, then attach each answer's tags.
   */
  method Resolve(
    records: map<string, PlaylistRecord>, user: string, limit: int, cursor: Option<string>,
    remote: map<string, RemoteDetail>)
    returns (r: Result<Listing, Error>)
    ensures r == Response(records, user, limit, cursor, remote)
  {
    if !(1 <= limit <= MaxLimit) {
      return Err(BadRequest);
    }
    var f := OwnedBy(user);
    var playlists := FindMany(records, f, cursor, limit + 1);
    if |playlists| == 0 {
      return Ok(Listing([], None));
    }
    var next: Option<string>;
    playlists, next := TrimFound(playlists, limit);
    PageMatches(records, f, limit, cursor);
    r := Render(playlists, next, records, remote);
  }

  /** Fetch each kept playlist, then join the answers with the page. */
  method Render(kept: seq<string>, next: Option<string>, records: map<string, PlaylistRecord>, remote: map<string, RemoteDetail>)
    returns (r: Result<Listing, Error>)
    requires forall id | id in kept :: id in records
    ensures r == PageListing((kept, next), records, remote)
  {
    var fetched := FetchEach(kept, remote);
    if fetched.None? {
      return Err(InternalServerError);
    }
    var data := Join(fetched.value, kept, records);
    return Ok(Listing(data, next));
  }

  /** The `for await` loop: every answer becomes a row, with its page record's tags or none. */
  method Join(fetched: seq<RemoteDetail>, kept: seq<string>, records: map<string, PlaylistRecord>) returns (data: seq<Row>)
    requires forall id | id in kept :: id in records
    ensures data == WithTags(fetched, kept, records)
  {
    data := [];
    for j := 0 to |fetched|
      invariant data == WithTags(fetched[..j], kept, records)
    {
      var d := fetched[j];
      assert fetched[..j + 1][..j] == fetched[..j];
      var related := if d.id in kept then records[d.id].tags else {};
      data := data + [Row(d, related)];
    }
    assert fetched[..|fetched|] == fetched;
  }

  /**
   * No answer is dropped: one row per answer, in order, carrying the tags of the page record
   * with its id, or no tags when no page record has it.
   */
  lemma {:induction false} WithTagsKeepsAll(ds: seq<RemoteDetail>, kept: seq<string>, records: map<string, PlaylistRecord>)
    requires forall id | id in kept :: id in records
    ensures |WithTags(ds, kept, records)| == |ds|
    ensures forall i | 0 <= i < |ds| ::
              && WithTags(ds, kept, records)[i].detail == ds[i]
              && WithTags(ds, kept, records)[i].tags == (if ds[i].id in kept then records[ds[i].id].tags else {})
    decreases |ds|
  {
    if |ds| > 0 {
      WithTagsKeepsAll(ds[..|ds| - 1], kept, records);
    }
  }

  /**
   * The submitted listing shows only what the user submitted: with a well-behaved remote, a
   * successful page holds one row per kept record, in store order, each an active record of
   * `user`, carrying its tags.
   */
  lemma ListingIsOwn(
    records: map<string, PlaylistRecord>, user: string, limit: int, cursor: Option<string>,
    remote: map<string, RemoteDetail>)
    requires WellBehaved(remote)
    requires Response(records, user, limit, cursor, remote).Ok?
    ensures 1 <= limit <= MaxLimit
    ensures var page := PageOf(records, OwnedBy(user), limit, cursor);
            var rows := Response(records, user, limit, cursor, remote).value.data;
            && |rows| == |page.0|
            && forall i | 0 <= i < |rows| ::
                 && rows[i].detail.id == page.0[i]
                 && page.0[i] in records
                 && Active(records[page.0[i]])
                 && records[page.0[i]].userId == user
                 && rows[i].tags == records[page.0[i]].tags
  {
    var f := OwnedBy(user);
    PageMatches(records, f, limit, cursor);
    OwnRows(PageOf(records, f, limit, cursor).0, remote, records, user);
  }

  lemma OwnRows(kept: seq<string>, remote: map<string, RemoteDetail>, records: map<string, PlaylistRecord>, user: string)
    requires WellBehaved(remote) && FetchAll(kept, remote).Some?
    requires forall id | id in kept :: id in records && Matches(OwnedBy(user), records[id])
    ensures var rows := WithTags(FetchAll(kept, remote).value, kept, records);
            && |rows| == |kept|
            && forall i | 0 <= i < |rows| ::
                 && rows[i].detail.id == kept[i]
                 && kept[i] in records
                 && Active(records[kept[i]])
                 && records[kept[i]].userId == user
                 && rows[i].tags == records[kept[i]].tags
  {
    var ds := FetchAll(kept, remote).value;
    forall i | 0 <= i < |ds| ensures ds[i].id == kept[i] {
      assert ds[i] == remote[kept[i]];
    }
    WithTagsKeepsAll(ds, kept, records);
    forall i | 0 <= i < |ds| ensures ds[i].id in kept {
      assert kept[i] == ds[i].id;
    }
  }

  /** An answer under an id not on the page still becomes a row, with no tags. */
  lemma MismatchedAnswerKept(ds: seq<RemoteDetail>, kept: seq<string>, records: map<string, PlaylistRecord>)
    requires forall id | id in kept :: id in records
    requires |ds| == 1 && ds[0].id !in kept
    ensures WithTags(ds, kept, records) == [Row(ds[0], {})]
  {
    assert ds[..0] == [];
  }
}
