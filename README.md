# underlib server routers, modelled in Dafny

underlib lets users tag their Spotify playlists and browse the ones other people have tagged.
This project models its tRPC server routers. The Spotify Web API and the Prisma store are
replaced by abstract state. The model covers:

- `me.playlists`. It lists the session user's own Spotify playlists that are not submitted yet.
  It does this with a loop over remote pages that accumulates rows and then computes an integer
  resume cursor.
- `playlists.all` and `me.submittedPlaylists`. Each is one keyset page of local records, ordered
  by `updatedAt` descending and then `id` ascending. It reads `limit + 1` rows from an exclusive
  cursor, trims to `limit`, and joins the result with the remote playlist details.
- `playlists.create`: an ownership check against the remote service, then an upsert that
  creates a record or restores a soft-deleted one.
- `playlists.update`: validation that rejects repeated tag names, then NOT_FOUND and FORBIDDEN
  guards, then replacement of the tag set.
- `playlists.delete`: NOT_FOUND and FORBIDDEN guards, then a soft delete.
- `tags.all`: substring search over tag names, sorted ascending, at most five.
- `playlistsCreateSchema`, the create input validator.

Layout, one module per file:

- `wrappers.dfy`: Option, Result, the tRPC error codes, `Take`.
- `ordering.dfy`: lexicographic string order and sorting a set.
- `store.dfy`: records, the tag table with its fresh-id supply, `connectOrCreate` by name, and
  the `Database` class the mutations write to.
- `keyset.dfy`: the store query the two listings share.
- One file per router.

Each mutation resolver is a module-level method that takes a `db: Database` and may modify it.
It is proved to leave exactly the state that a specification function `(Outcome, Tables)` describes, and the lemmas are stated about that
function. Each listing resolver is a method proved equal to a `Response` function.

## Model

| member | source | states |
|---|---|---|
| Schema.ParseCreate | src/schema/playlists.schema.ts:3-14 | A missing or empty id, or a missing or empty tag list, is BAD_REQUEST; every non-empty id with at least one tag is accepted unchanged |
| PlaylistsUpdate.ParseUpdate | src/server/router/playlists.update.ts:9-17 | Accepted exactly when the create checks pass and no tag name repeats; the refine's set-size test is proved equivalent to "no repeats" |
| Store.DistinctCount | src/server/router/playlists.update.ts:16 | The set of a list's names has as many elements as the list exactly when no name occurs twice |
| PlaylistsUpdate.RepeatRejected | src/server/router/playlists.update.ts:16 | `["rock","rock"]` passes the create schema but the update schema rejects it |
| Store.ConnectOrCreate | src/server/router/playlists.update.ts:50-60 | The tag table afterwards holds the old names plus the given ones; existing rows keep their ids; only missing names get new ids, fresh and distinct; nothing is created when every name already exists |
| Store.ConnectOrCreateIdempotent | src/server/router/playlists.update.ts:50-60 | Connecting the same names a second time changes neither the tag table nor the id supply |
| Store.FindActive | src/server/router/playlists.update.ts:19-32 | Finds a record exactly when one with that id exists and is not soft-deleted, and returns that record |
| PlaylistsUpdate.Update | src/server/router/playlists.update.ts:9-67 | A bad request is answered first and changes nothing; otherwise the outcome is `Retag`'s |
| PlaylistsUpdate.Retag | src/server/router/playlists.update.ts:19-67 | NOT_FOUND when no active record has the id, before FORBIDDEN for another owner; success exactly when both checks pass and the store accepts the write; the tag set then becomes exactly the given names and no other field or playlist changes; any failure leaves the tables unchanged |
| PlaylistsUpdate.Resolve | src/server/router/playlists.update.ts:18-68 | The resolver leaves the database exactly as `Update` describes and keeps it valid |
| PlaylistsUpdate.ConnectTags | src/server/router/playlists.update.ts:50-60 | The per-name loop computes `ConnectOrCreate` |
| PlaylistsUpdate.UpdateIdempotent | src/server/router/playlists.update.ts:42-63 | A second identical update succeeds and leaves the tables as the first left them |
| PlaylistsUpdate.UpdateKeepsSubmitted | src/server/router/playlists.update.ts:42-63 | An update does not change any user's set of submitted (active) playlist ids |
| PlaylistsCreate.Upserted | src/server/router/playlists.create.ts:46-111 | A new id gets a record owned by the session user, active, with the given names; an existing record, even a soft-deleted one, is made active with the same owner and gains the names; other records are unchanged; old tag rows keep their ids |
| PlaylistsCreate.Submit | src/server/router/playlists.create.ts:18-115 | A remote 404 is NOT_FOUND, any other remote failure INTERNAL_SERVER_ERROR, another owner FORBIDDEN; success exactly when the owner is the user, the store accepts the write and no join row collides; a failure changes nothing |
| PlaylistsCreate.Create | src/server/router/playlists.create.ts:12-115 | A bad request is answered first and changes nothing; otherwise the outcome is `Submit`'s |
| PlaylistsCreate.Resolve | src/server/router/playlists.create.ts:13-116 | The resolver leaves the database exactly as `Create` describes and keeps it valid |
| PlaylistsCreate.IntendedSubmit | src/server/router/playlists.create.ts:18-115 | The same guards, with each name connected once: success exactly when the owner is the user and the store accepts the write |
| PlaylistsCreate.SubmitAsIntended | src/server/router/playlists.create.ts:46-111 | When no join row collides, the code's outcome equals the intended one |
| PlaylistsCreate.ResubmitRestores | src/server/router/playlists.create.ts:78-107 | Resubmitting one's own soft-deleted playlist makes it active, owned as before, listed among the submitted ids, with tags old plus new |
| PlaylistsCreate.ResubmitOldTagFails | src/server/router/playlists.create.ts:81-104 | A deleted playlist resubmitted with one of its old tags fails as written, with no change; the intended version succeeds |
| PlaylistsCreate.RepeatedNameFails | src/server/router/playlists.create.ts:51-74 | A new playlist submitted with a name listed twice fails as written; the intended version succeeds |
| PlaylistsDelete.Delete | src/server/router/playlists.delete.ts:8-44 | A missing or empty id is BAD_REQUEST; NOT_FOUND unless an active record has the id, before FORBIDDEN for another owner; on success only `deletedAt` is set, and the owner, tags, other records and tag table stay; any failure changes nothing |
| PlaylistsDelete.Resolve | src/server/router/playlists.delete.ts:13-45 | The resolver leaves the database exactly as `Delete` describes and keeps it valid |
| PlaylistsDelete.DeleteHides | src/server/router/playlists.delete.ts:32-40 | After a delete the record matches no listing filter, is on no keyset page, leaves only its owner's submitted ids, and deleting it again is NOT_FOUND |
| Tags.Search | src/server/router/tags.ts:9-26 | At most five names, strictly ascending, all tag names containing the query when one is given; a matching name is left out only when five names came back, all sorting before it |
| Tags.EmptyQueryMatchesAll | src/server/router/tags.ts:13-19 | An empty query matches every name, so leaving the filter out for it changes nothing |
| Tags.TakeLeast | src/server/router/tags.ts:20-23 | The first five of the sorted list are sorted and taken from it, and every name left out sorts after all of them |
| Ordering.SortSet | src/server/router/tags.ts:20-22 | A set in strictly increasing order, each element exactly once |
| Ordering.StrLessIsStrictTotal | src/server/router/tags.ts:20-22 | Lexicographic string order is irreflexive, transitive and total |
| Keyset.KeyLessIsStrictTotal | src/server/router/playlists.all.ts:53-60 | `(updatedAt desc, id asc)` is a strict total order on sort keys |
| Keyset.Ordered | src/server/router/playlists.all.ts:41-60 | The eligible records, each once, in strictly increasing store order |
| Keyset.FromCursorAt | src/server/router/playlists.all.ts:61-66 | With the cursor at the id of the record before position `p`, the query starts at exactly position `p`, so the cursor is exclusive |
| Keyset.CursorResumesAfter | src/server/router/playlists.all.ts:61-66 | A cursor naming the record at position `q` gives the rows after `q` |
| Keyset.TrimFound | src/server/router/playlists.all.ts:75-79 | The trim computes `Trim`: the extra record dropped and the last kept id as the cursor, or all rows and no cursor |
| Keyset.TrimWindow | src/server/router/playlists.all.ts:75-79 | Reading `limit + 1` rows from position `p` and trimming gives the next `limit` rows and a cursor exactly when rows remain after them |
| Keyset.KeysetResume | src/server/router/playlists.all.ts:38-79 | Each page requested with the cursor before position `p` is the window of `limit` rows at `p` |
| Keyset.FollowWindows | src/server/router/playlists.all.ts:61-79 | A client following cursors collects the windows one after another |
| Keyset.PagesAtAll | src/server/router/playlists.all.ts:75-79 | The windows put together are all the rows from their start |
| Keyset.NoGapsNoDuplicates | src/server/router/playlists.all.ts:38-79 | Following cursors from the first page returns every eligible record exactly once, in store order |
| Keyset.PageMatches | src/server/router/playlists.all.ts:38-79 | Every id on a page is an eligible record of the table |
| Keyset.FetchAll | src/server/router/playlists.all.ts:83-97 | The details of the kept ids in order, or a failure when any fetch fails |
| Keyset.FetchEach | src/server/router/playlists.all.ts:83-97 | The per-id fetch loop computes `FetchAll` |
| PlaylistsAll.Resolve | src/server/router/playlists.all.ts:31-113 | The resolver returns exactly `Response`: BAD_REQUEST for a limit outside 1..10, else the joined listing of one trimmed keyset page |
| PlaylistsAll.Render | src/server/router/playlists.all.ts:83-112 | Fetching and joining one page gives its listing, or INTERNAL_SERVER_ERROR when a fetch fails |
| PlaylistsAll.Join | src/server/router/playlists.all.ts:99-110 | The join loop computes `Attach` |
| PlaylistsAll.AttachKeepsOnlyPageRows | src/server/router/playlists.all.ts:99-110 | Every row comes from a fetched detail whose id is on the page, carrying that record's tags |
| PlaylistsAll.AttachFaithful | src/server/router/playlists.all.ts:99-110 | When each answer carries the id it was asked for, no row is dropped and page order is kept |
| PlaylistsAll.ListingRowsMatch | src/server/router/playlists.all.ts:38-112 | With a well-behaved remote, a successful listing has one row per kept record, in store order, each an eligible record carrying its tags |
| PlaylistsAll.RemoteFailureFailsPage | src/server/router/playlists.all.ts:83-99 | A kept id the remote cannot answer fails the whole page |
| PlaylistsAll.MismatchedAnswerDropped | src/server/router/playlists.all.ts:100-109 | An answer under an id not on the page is dropped |
| MeSubmitted.Resolve | src/server/router/me.submittedPlaylists.ts:37-104 | The resolver returns exactly `Response`: BAD_REQUEST for a limit outside 1..10, else the joined listing of one trimmed keyset page of the user's active records |
| MeSubmitted.Render | src/server/router/me.submittedPlaylists.ts:73-103 | Fetching and joining one page gives its listing, or INTERNAL_SERVER_ERROR when a fetch fails |
| MeSubmitted.Join | src/server/router/me.submittedPlaylists.ts:92-101 | The join loop computes `WithTags` |
| MeSubmitted.WithTagsKeepsAll | src/server/router/me.submittedPlaylists.ts:92-101 | One row per answer, in order, with the page record's tags or none |
| MeSubmitted.ListingIsOwn | src/server/router/me.submittedPlaylists.ts:38-103 | With a well-behaved remote, a successful listing has one row per kept record, in store order, each an active record of the session user carrying its tags |
| MeSubmitted.MismatchedAnswerKept | src/server/router/me.submittedPlaylists.ts:97-100 | An answer under an id not on the page still becomes a row, with no tags |
| MePlaylists.Resolve | src/server/router/me.playlists.ts:46-152 | The resolver returns exactly `Response`: BAD_REQUEST for a limit outside 1..5, else the first `limit` candidates and the cursor as written |
| MePlaylists.Collect | src/server/router/me.playlists.ts:61-151 | The request loop ends with the rows and the cursor `Collected` describes |
| MePlaylists.Settle | src/server/router/me.playlists.ts:124-148 | The last iteration keeps the rows that fit and computes the cursor from the final page unless the list ran out with nothing left over |
| MePlaylists.FindCursor | src/server/router/me.playlists.ts:136-148 | The `forEach` sets the cursor from the last item with the last row's id, with the three-term formula |
| MePlaylists.StopFacts | src/server/router/me.playlists.ts:116-122 | The loop continues only while a next offset exists and all rows fit; it stops with fewer than `limit` rows collected |
| MePlaylists.LastIndexSpec | src/server/router/me.playlists.ts:137-140 | `LastIndex` finds the last item with the id, or reports that none has it |
| MePlaylists.FinalFacts | src/server/router/me.playlists.ts:78-122 | The number of requests and the final request's offset: one request means the start offset, two means start plus `limit` |
| MePlaylists.CollectedMeaning | src/server/router/me.playlists.ts:78-149 | The loop returns the first `limit` submittable playlists from the start offset, in list order, and the cursor as written |
| MePlaylists.StopAtFinal | src/server/router/me.playlists.ts:78-122 | The requests the loop makes are those `Final` counts, with the rows scanned so far |
| MePlaylistsCursor.ResponseShape | src/server/router/me.playlists.ts:8-151 | BAD_REQUEST exactly for a bad limit; otherwise at most `limit` rows of playlists the user owns and has not submitted, in remote order, from the start offset; no cursor exactly when the scan ran out; fewer than `limit` rows means all candidates and no cursor |
| MePlaylistsCursor.ZeroCursorIsNull | src/server/router/me.playlists.ts:27-29 | A cursor of 0 gives exactly the response of no cursor |
| MePlaylistsCursor.CursorPresent | src/server/router/me.playlists.ts:131-148 | The cursor is null exactly when the scan ran out |
| MePlaylistsCursor.ResumeContinues | src/server/router/me.playlists.ts:136-148 | The intended cursor exists exactly when the scan did not run out, lies past the start, and resuming there returns exactly the candidates not yet returned |
| MePlaylistsCursor.CursorCorrectExactly | src/server/router/me.playlists.ts:136-148 | The cursor as written equals the intended one exactly when the scan ran out, or there were two requests, or one request from offset 0 |
| MePlaylistsCursor.CursorValues | src/server/router/me.playlists.ts:136-148 | The intended cursor is one past the last row's position; the written one adds `limit` and the start to the in-page index only after more than one request |
| MePlaylistsCursor.StuckCursorExample | src/server/router/me.playlists.ts:136-148 | One row from offset 1 of three: the cursor as written is 1 again, the intended one 2 |
| MePlaylistsCursor.RepeatedRowExample | src/server/router/me.playlists.ts:136-148 | Three requests: the cursor as written is 2, so following it returns the same row again; the intended one is 3 |

## Left out

- HTTP, the Spotify access token, request headers and tRPC wiring are not modelled. The remote
  service is a parameter: a sequence of playlists for `me.playlists`, a map from id to details
  for the per-id fetches, and a `Lookup` answer for the owner check in `playlists.create`.
- The `next` link of a remote page is not parsed from a URL. A page reports its next offset
  directly, `offset + limit` exactly when items remain.
- The `me.playlists` input cursor is a `nat`. Negative and fractional numbers, which the schema
  also accepts, are left out.
- `limit` is an integer in all three listings. The schemas (`me.playlists.ts:9`,
  `playlists.all.ts:33`, `me.submittedPlaylists.ts:34`) have no integer check, so a fractional
  limit such as 2.5 passes validation. It would then go to Spotify as the page size, to Prisma as
  `take` (which rejects a fractional value, giving INTERNAL_SERVER_ERROR) and into the loop test
  `data.length < input.limit`. The model does not represent these inputs.
- Read failures are left out. A failed Spotify page request inside the `me.playlists` loop
  (`me.playlists.ts:80-82`) raises INTERNAL_SERVER_ERROR. So does a failed Prisma read that sits
  outside any `try`: `me.playlists.ts:47`, `playlists.all.ts:38`, `me.submittedPlaylists.ts:38`,
  `playlists.update.ts:19` and `playlists.delete.ts:14`. In the model the remote list and the
  record table always answer. The listings therefore fail only with BAD_REQUEST or through a
  failed per-id fetch. In update and delete a failed lookup would give INTERNAL_SERVER_ERROR
  before the NOT_FOUND and FORBIDDEN guards, and that case is not modelled.
- Prisma internals are abstracted:
  - the database collation of `contains` and of `orderBy name` is modelled as case-sensitive
    substring match and code-point lexicographic order;
  - a cursor id with no record gives an empty page;
  - a nested write is all-or-nothing, which stands in for the ordering of disconnect and connect
    inside it and for transactions;
  - a failed write is a boolean parameter `storeOk`, checked after the guards. It gives
    INTERNAL_SERVER_ERROR and no change. It covers the writes only, not the reads above.
- The Prisma schema is not part of this model. Tag associations are a set of names per record.
  The join table is not a separate relation.
- Timestamps are integers. `deletedAt` is set to a given `now`. An existing record's `updatedAt`
  is never changed, because no write in the routers sets it. A record that `playlists.create`
  makes new gets `updatedAt = now` (`PlaylistsCreate.Upserted`). That assumes a schema default
  for the column, and the schema is not part of this model.
- `customNanoId` is modelled as a counter of fresh tag ids.
- The parallel remote fetches (`Promise` fan-out and `for await`) are a sequential in-order loop.
  Any failed fetch fails the page.
- `PlaylistsCreate.Write` requires a non-empty id. The resolver only calls it after validation.
- Keyset.NoGapsNoDuplicates: assumes no record has the empty id. An empty cursor is falsy and
  would restart the listing. Every write path rejects empty ids, so stored tables satisfy this
  (`TablesValid`).
- MePlaylistsCursor.ResumeContinues, MePlaylistsCursor.CursorValues and
  MePlaylistsCursor.CursorCorrectExactly: each assumes the remote list names each playlist once
  (`DistinctIds`). With a repeated id the written `forEach` picks the last occurrence in the
  final page.
- `playlists.byId`, `playlists.ts`, `me.ts`, the router index, the React pages and components,
  and the token helpers are not part of this model.

## Findings

| source | as written | input that shows it | evidently intended | confidence | as-written member | corrected member |
|---|---|---|---|---|---|---|
| src/server/router/me.playlists.ts:136-148 | The cursor is the in-page index plus 1, plus `limit` after more than one request, plus the input cursor only after more than one request | Limit 1, cursor 1, three playlists of the user: returns the second playlist and cursor 1, so following it repeats the page forever. Limit 1, no cursor, two foreign playlists then two of the user: cursor 2, and following it returns the same row again | The absolute offset just after the last returned row, so resuming continues without gap or repeat | not executed | MePlaylists.Response, MePlaylistsCursor.StuckCursorExample, MePlaylistsCursor.RepeatedRowExample | MePlaylistsCursor.IntendedResponse, MePlaylistsCursor.ResumeContinues, MePlaylistsCursor.CursorCorrectExactly |
| src/server/router/playlists.create.ts:68-73 and 98-103 | The join row's `connectOrCreate` looks up `playlistId_tagId` with a freshly generated tag id. The lookup never matches, so a join row is always created. For a tag the playlist already has, or a name listed twice, that breaks the compound key and the write fails | Record `p` of user `u`, soft-deleted, with tag `rock`, resubmitted with `["rock"]`: INTERNAL_SERVER_ERROR. A new playlist with `["rock","rock"]`: INTERNAL_SERVER_ERROR | Connect each name once: resubmitting restores the playlist with old plus new tags | not executed | PlaylistsCreate.Submit, PlaylistsCreate.ResubmitOldTagFails, PlaylistsCreate.RepeatedNameFails | PlaylistsCreate.IntendedSubmit, PlaylistsCreate.ResubmitRestores, PlaylistsCreate.SubmitAsIntended |

The resolver methods follow the code as written. For the two findings:

- The resume property of `me.playlists` is proved about the corrected cursor:
  `MePlaylistsCursor.ResumeContinues` on `ResumeCursor`.
- The restore property of `playlists.create` is proved about `PlaylistsCreate.IntendedSubmit`.
- Further lemmas relate each corrected member to its as-written one.

The keyset listings `playlists.all` and `me.submittedPlaylists` have no finding. Their
resumption (`Keyset.KeysetResume`, `Keyset.NoGapsNoDuplicates`) is proved about the code as
written.
