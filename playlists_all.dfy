/**
 * `playlists.all`: the public discovery listing. One keyset page of active, tagged records
 * (optionally restricted to some tag names), each joined with the playlist details the remote
 * service returns for its id. Remote answers whose id is not on the page are dropped.
 */
module PlaylistsAll {
  import opened Wrappers
  import opened Store
  import opened Keyset

  /** The largest page the endpoint accepts. */
  const MaxLimit := 10

  /**
   * The rows of the discovery listing: each fetched detail, in fetch order, whose id is on the
   * page, with the tag names of that record; the others are skipped.
   */
  function Attach(ds: seq<RemoteDetail>, kept: seq<string>, records: map<string, PlaylistRecord>): seq<Row>
    requires forall id | id in kept :: id in records
  {
    if |ds| == 0 then []
    else
      var d := ds[|ds| - 1];
      Attach(ds[..|ds| - 1], kept, records) + (if d.id in kept then [Row(d, records[d.id].tags)] else [])
  }

  /** The listing of one page: fetch each kept id, then join; a failed fetch fails the page. */
  function PageListing(page: (seq<string>, Option<string>), records: map<string, PlaylistRecord>, remote: map<string, RemoteDetail>)
    : Result<Listing, Error>
    requires forall id | id in page.0 :: id in records
  {
    match FetchAll(page.0, remote)
    case None => Err(InternalServerError)
    case Some(ds) => Ok(Listing(Attach(ds, page.0, records), page.1))
  }

  /** The response the endpoint specifies for given inputs. */
  function Response(
    records: map<string, PlaylistRecord>, limit: int, cursor: Option<string>,
    tagNames: Option<seq<string>>, remote: map<string, RemoteDetail>)
    : Result<Listing, Error>
  {
    if !(1 <= limit <= MaxLimit) then Err(BadRequest)
    else
      PageMatches(records, Discovery(tagNames), limit, cursor);
      PageListing(PageOf(records, Discovery(tagNames), limit, cursor), records, remote)
  }

  /**
   * The resolver: validate `limit`, query `limit + 1` records, return early on an empty page,
   * trim, fetch each kept playlist from `remote` (the ids the remote service answers for, with
   * what it answers), then join the answers with the page.
   */
  method Resolve(
    records: map<string, PlaylistRecord>, limit: int, cursor: Option<string>,
    tagNames: Option<seq<string>>, remote: map<string, RemoteDetail>)
    returns (r: Result<Listing, Error>)
    ensures r == Response(records, limit, cursor, tagNames, remote)
  {
    if !(1 <= limit <= MaxLimit) {
      return Err(BadRequest);
    }
    var f := Discovery(tagNames);
    var playlists := FindMany(records, f, cursor, limit + 1);
    if |playlists| == 0 {
      return Ok(Listing([], None));
    }
    var next: Option<string>;
    playlists, next := TrimFound(playlists, limit);
    PageMatches(records, f, limit, cursor);
    r := Render(playlists, next, records, remote);
  }

  /** Fetch each kept playlist, then join the answers with the page. */
  method Render(kept: seq<string>, next: Option<string>, records: map<string, PlaylistRecord>, remote: map<string, RemoteDetail>)
    returns (r: Result<Listing, Error>)
    requires forall id | id in kept :: id in records
    ensures r == PageListing((kept, next), records, remote)
  {
    var fetched := FetchEach(kept, remote);
    if fetched.None? {
      return Err(InternalServerError);
    }
    var data := Join(fetched.value, kept, records);
    return Ok(Listing(data, next));
  }

  /** The `for await` loop: each answer whose id is on the page becomes a row with its tags. */
  method Join(fetched: seq<RemoteDetail>, kept: seq<string>, records: map<string, PlaylistRecord>) returns (data: seq<Row>)
    requires forall id | id in kept :: id in records
    ensures data == Attach(fetched, kept, records)
  {
    data := [];
    for j := 0 to |fetched|
      invariant data == Attach(fetched[..j], kept, records)
    {
      var d := fetched[j];
      assert fetched[..j + 1][..j] == fetched[..j];
      if d.id in kept {
        data := data + [Row(d, records[d.id].tags)];
      }
    }
    assert fetched[..|fetched|] == fetched;
  }

  /** Every row comes from a fetched detail whose id is on the page, with that record's tag names. */
  lemma {:induction false} AttachKeepsOnlyPageRows(ds: seq<RemoteDetail>, kept: seq<string>, records: map<string, PlaylistRecord>)
    requires forall id | id in kept :: id in records
    ensures |Attach(ds, kept, records)| <= |ds|
    ensures forall row | row in Attach(ds, kept, records) ::
              row.detail in ds && row.detail.id in kept && row.tags == records[row.detail.id].tags
    decreases |ds|
  {
    if |ds| > 0 {
      var init := ds[..|ds| - 1];
      AttachKeepsOnlyPageRows(init, kept, records);
      forall d | d in init ensures d in ds {
        var i :| 0 <= i < |init| && init[i] == d;
        assert ds[i] == d;
      }
    }
  }

  /** When every detail answers with the id it was asked for, no row is dropped and order is kept. */
  lemma {:induction false} AttachFaithful(ds: seq<RemoteDetail>, kept: seq<string>, records: map<string, PlaylistRecord>)
    requires forall id | id in kept :: id in records
    requires |ds| <= |kept| && forall i | 0 <= i < |ds| :: ds[i].id == kept[i]
    ensures |Attach(ds, kept, records)| == |ds|
    ensures forall i | 0 <= i < |ds| ::
              Attach(ds, kept, records)[i] == Row(ds[i], records[kept[i]].tags)
    decreases |ds|
  {
    if |ds| > 0 {
      var n := |ds| - 1;
      AttachFaithful(ds[..n], kept, records);
      assert ds[n].id in kept by { assert kept[n] == ds[n].id; }
    }
  }

  /**
   * The discovery listing's results: with a well-behaved remote, a successful page holds one row
   * per kept record, in store order, each an active record with a tag among the requested names
   * (at least one tag when no names are given), carrying that record's tag names.
   */
  lemma ListingRowsMatch(
    records: map<string, PlaylistRecord>, limit: int, cursor: Option<string>,
    tagNames: Option<seq<string>>, remote: map<string, RemoteDetail>)
    requires WellBehaved(remote)
    requires Response(records, limit, cursor, tagNames, remote).Ok?
    ensures 1 <= limit <= MaxLimit
    ensures var page := PageOf(records, Discovery(tagNames), limit, cursor);
            var rows := Response(records, limit, cursor, tagNames, remote).value.data;
            && |rows| == |page.0|
            && forall i | 0 <= i < |rows| ::
                 && rows[i].detail.id == page.0[i]
                 && page.0[i] in records
                 && Matches(Discovery(tagNames), records[page.0[i]])
                 && rows[i].tags == records[page.0[i]].tags
  {
    var f := Discovery(tagNames);
    PageMatches(records, f, limit, cursor);
    RowsOfPage(PageOf(records, f, limit, cursor).0, remote, records, f);
  }

  /** The join over one page, for any page of matching records and a well-behaved remote. */
  lemma RowsOfPage(kept: seq<string>, remote: map<string, RemoteDetail>, records: map<string, PlaylistRecord>, f: Filter)
    requires WellBehaved(remote) && FetchAll(kept, remote).Some?
    requires forall id | id in kept :: id in records && Matches(f, records[id])
    ensures var rows := Attach(FetchAll(kept, remote).value, kept, records);
            && |rows| == |kept|
            && forall i | 0 <= i < |rows| ::
                 && rows[i].detail.id == kept[i]
                 && kept[i] in records
                 && Matches(f, records[kept[i]])
                 && rows[i].tags == records[kept[i]].tags
  {
    var ds := FetchAll(kept, remote).value;
    assert forall i | 0 <= i < |ds| :: ds[i].id == kept[i] by {
      forall i | 0 <= i < |ds| ensures ds[i].id == kept[i] {
        assert ds[i] == remote[kept[i]];
      }
    }
    AttachFaithful(ds, kept, records);
  }

  /** A missing remote answer for a kept id fails the whole page. */
  lemma RemoteFailureFailsPage(
    records: map<string, PlaylistRecord>, limit: int, cursor: Option<string>,
    tagNames: Option<seq<string>>, remote: map<string, RemoteDetail>, id: string)
    requires 1 <= limit <= MaxLimit
    requires id in PageOf(records, Discovery(tagNames), limit, cursor).0 && id !in remote
    ensures Response(records, limit, cursor, tagNames, remote) == Err(InternalServerError)
  {
  }

  /** A remote answer under another id is dropped rather than shown with the wrong tags. */
  lemma MismatchedAnswerDropped(ds: seq<RemoteDetail>, kept: seq<string>, records: map<string, PlaylistRecord>)
    requires forall id | id in kept :: id in records
    requires |ds| == 1 && ds[0].id !in kept
    ensures Attach(ds, kept, records) == []
  {
    assert ds[..0] == [];
  }
}
