/**
 * `playlistsCreateSchema`: the request body of `playlists.create` needs a non-empty playlist id and
 * at least one tag name. Repeated names are not rejected here.
 */
module Schema {
  import opened Wrappers

  /** A request body as received: either field may be missing. */
  datatype PlaylistInput = PlaylistInput(id: Option<string>, tags: Option<seq<string>>)

  /** A request body that passed validation. */
  datatype Submission = Submission(id: string, tags: seq<string>)

  /** The schema's parse: a missing or empty id, or a missing or empty tag list, is a bad request. */
  function ParseCreate(input: PlaylistInput): (r: Result<Submission, Error>)
    ensures r.Err? ==> r.error == BadRequest
    ensures r.Ok? ==> input.id == Some(r.value.id) && input.tags == Some(r.value.tags)
    ensures r.Ok? ==> r.value.id != "" && |r.value.tags| >= 1
    ensures input.id.Some? && input.id.value != "" && input.tags.Some? && |input.tags.value| >= 1 ==> r.Ok?
  {
    if input.id.None? || input.id.value == "" then Err(BadRequest)
    else if input.tags.None? || |input.tags.value| == 0 then Err(BadRequest)
    else Ok(Submission(input.id.value, input.tags.value))
  }
}
