/**
 * `me.playlists`: the session user's remote playlists that can still be submitted. The resolver
 * requests the user's playlist list from the remote service page by page (`limit` items from an
 * offset), keeps the playlists the user owns that have no active local record, and stops once
 * `limit` rows are collected or the list is exhausted; it then computes an integer resume offset.
 *
 * The remote list is a sequence `remote`; a request at offset `o` answers the items at positions
 * `o .. o + limit` (clipped to the list) and a next offset `o + limit` exactly when items remain.
 */
module MePlaylists {
  import opened Wrappers
  import opened Store

  /** The largest page the endpoint accepts. */
  const MaxLimit := 5

  /** A playlist of the user's remote playlist list. */
  datatype RemotePlaylist = RemotePlaylist(
    id: string,
    ownerId: string,
    name: string,
    description: Option<string>,
    images: seq<string>)

  /** A returned row: only `id`, `name`, `description` and `images`. */
  datatype Summary = Summary(id: string, name: string, description: Option<string>, images: seq<string>)

  /** One answer of the remote list: its items and the offset of the next page, if any. */
  datatype RemotePage = RemotePage(items: seq<RemotePlaylist>, next: Option<nat>)

  /** The endpoint's response: the rows and the resume offset (`null` as None). */
  datatype MeResponse = MeResponse(data: seq<Summary>, cursor: Option<int>)

  /** A remote list request of `limit` items at `offset`. */
  function FetchPage(remote: seq<RemotePlaylist>, limit: nat, offset: nat): RemotePage
  {
    RemotePage(
      remote[Min(offset, |remote|)..Min(offset + limit, |remote|)],
      if offset + limit < |remote| then Some(offset + limit) else None)
  }

  /** JavaScript truthiness of an optional number: present and not 0. */
  predicate Truthy(n: Option<nat>)
  {
    n.Some? && n.value != 0
  }

  /** The offset a request reads from: the `offset` parameter is sent only when truthy, else 0. */
  function RequestOffset(param: Option<nat>): nat
  {
    if Truthy(param) then param.value else 0
  }

  /** The filter: not already submitted, and owned by the session user. */
  predicate Submittable(p: RemotePlaylist, submitted: set<string>, user: string)
  {
    p.id !in submitted && p.ownerId == user
  }

  /** The row projection of a playlist. */
  function Summarize(p: RemotePlaylist): Summary
  {
    Summary(p.id, p.name, p.description, p.images)
  }

  /** `items.filter(submittable).map(summarize)`. */
  function Kept(items: seq<RemotePlaylist>, submitted: set<string>, user: string): seq<Summary>
  {
    if |items| == 0 then []
    else (if Submittable(items[0], submitted, user) then [Summarize(items[0])] else []) + Kept(items[1..], submitted, user)
  }

  /** The response the endpoint specifies for given inputs. */
  function Response(
    remote: seq<RemotePlaylist>, records: map<string, PlaylistRecord>, user: string, limit: int,
    inputCursor: Option<nat>)
    : Result<MeResponse, Error>
  {
    if !(1 <= limit <= MaxLimit) then Err(BadRequest)
    else
      var submitted := SubmittedIds(records, user);
      Ok(MeResponse(
        Take(Candidates(remote, submitted, user, RequestOffset(inputCursor)), limit),
        CursorAsWritten(remote, submitted, user, limit, inputCursor)))
  }

  /**
   * The resolver. `remote` stands for the user's remote playlist list and `records` for the
   * playlist table the submitted ids are read from.
   */
  method Resolve(
    remote: seq<RemotePlaylist>, records: map<string, PlaylistRecord>, user: string, limit: int,
    inputCursor: Option<nat>)
    returns (r: Result<MeResponse, Error>)
    ensures r == Response(remote, records, user, limit, inputCursor)
  {
    if !(1 <= limit <= MaxLimit) {
      return Err(BadRequest);
    }
    var submitted := SubmittedIds(records, user);
    var data, cursor := Collect(remote, submitted, user, limit, inputCursor);
    CollectedMeaning(remote, submitted, user, limit, inputCursor);
    return Ok(MeResponse(data, cursor));
  }

  /**
   * The request loop, given the ids already submitted: it ends with the rows and the cursor that
   * `Collected` describes.
   */
  method Collect(remote: seq<RemotePlaylist>, submitted: set<string>, user: string, limit: nat, inputCursor: Option<nat>)
    returns (data: seq<Summary>, cursor: Option<int>)
    requires 1 <= limit
    ensures (data, cursor) == Collected(remote, submitted, user, limit, inputCursor)
  {
    var offsetParam: Option<nat> := None;
    if Truthy(inputCursor) {
      offsetParam := inputCursor;
    }
    cursor := None;
    data := [];
    var totalRequests: nat := 1;

    while |data| < limit
      invariant |data| < limit
      invariant Stop(remote, submitted, user, limit, RequestOffset(offsetParam), data, totalRequests)
             == Stop(remote, submitted, user, limit, RequestOffset(inputCursor), [], 1)
      decreases |remote| - RequestOffset(offsetParam)
    {
      var page := FetchPage(remote, limit, RequestOffset(offsetParam));
      var playlists := Kept(page.items, submitted, user);
      var offset := page.next;

      if Truthy(offset) && |data| + |playlists| < limit {
        data := data + playlists;
        offsetParam := offset;
        totalRequests := totalRequests + 1;
        continue;
      }

      data, cursor := Settle(page, playlists, data, totalRequests, limit, inputCursor);
      break;
    }
  }

  /**
   * The rest of an iteration that does not `continue`: keep the rows that still fit, then,
   * unless the list is exhausted with nothing left over, compute the cursor from this page.
   */
  method Settle(page: RemotePage, playlists: seq<Summary>, data: seq<Summary>, totalRequests: nat, limit: nat, inputCursor: Option<nat>)
    returns (rows: seq<Summary>, cursor: Option<int>)
    requires |data| < limit && !(Truthy(page.next) && |data| + |playlists| < limit)
    ensures (rows, cursor) == LastRequest(page, playlists, data, totalRequests, limit, inputCursor)
  {
    var sliced := Take(playlists, limit - |data|);
    rows := data + sliced;
    var remaining := |playlists| - |sliced|;
    if !Truthy(page.next) && remaining == 0 {
      return rows, None;
    }
    var lastPlaylist := sliced[|sliced| - 1];
    cursor := FindCursor(page.items, lastPlaylist.id, totalRequests, limit, inputCursor);
  }

  /**
   * The `items.forEach` callback run over the final page: every item with the last row's id sets
   * the cursor from its index, so the last such item decides.
   */
  method FindCursor(items: seq<RemotePlaylist>, lastId: string, totalRequests: nat, limit: nat, inputCursor: Option<nat>)
    returns (cursor: Option<int>)
    ensures cursor == CursorFormula(LastIndex(items, lastId), totalRequests, limit, inputCursor)
  {
    cursor := None;
    for index := 0 to |items|
      invariant cursor == CursorFormula(LastIndex(items[..index], lastId), totalRequests, limit, inputCursor)
    {
      assert items[..index + 1][..index] == items[..index];
      if items[index].id == lastId {
        var c := index + 1;
        if totalRequests > 1 {
          c := c + limit;
        }
        if totalRequests > 1 && Truthy(inputCursor) {
          c := c + inputCursor.value;
        }
        cursor := Some(c);
      }
    }
    assert items[..|items|] == items;
  }

  /*
   * The loop read as a recursion.
   */

  /**
   * The requests the loop makes from request offset `o`, with `data` collected over `t` requests
   * so far: the offset of the first request not followed by `continue`, the rows collected
   * before it, and its number.
   */
  function Stop(remote: seq<RemotePlaylist>, submitted: set<string>, user: string, limit: nat, o: nat, data: seq<Summary>, t: nat)
    : (nat, seq<Summary>, nat)
    decreases |remote| - o
  {
    var page := FetchPage(remote, limit, o);
    var playlists := Kept(page.items, submitted, user);
    if Truthy(page.next) && |data| + |playlists| < limit then
      Stop(remote, submitted, user, limit, o + limit, data + playlists, t + 1)
    else (o, data, t)
  }

  /** The loop stops at a request whose `continue` test fails, with fewer than `limit` rows so far. */
  lemma {:induction false} StopFacts(remote: seq<RemotePlaylist>, submitted: set<string>, user: string, limit: nat, o: nat, data: seq<Summary>, t: nat)
    requires |data| < limit
    ensures var (f, before, _) := Stop(remote, submitted, user, limit, o, data, t);
            var page := FetchPage(remote, limit, f);
            && |before| < limit
            && !(Truthy(page.next) && |before| + |Kept(page.items, submitted, user)| < limit)
    decreases |remote| - o
  {
    var page := FetchPage(remote, limit, o);
    var playlists := Kept(page.items, submitted, user);
    if Truthy(page.next) && |data| + |playlists| < limit {
      StopFacts(remote, submitted, user, limit, o + limit, data + playlists, t + 1);
    }
  }

  /**
   * What the request not followed by `continue` leaves: the rows that still fit, and no cursor
   * when the list ran out with nothing left over, else the cursor computed from this page.
   */
  function LastRequest(page: RemotePage, playlists: seq<Summary>, data: seq<Summary>, t: nat, limit: nat, inputCursor: Option<nat>)
    : (seq<Summary>, Option<int>)
    requires |data| < limit && !(Truthy(page.next) && |data| + |playlists| < limit)
  {
    var sliced := Take(playlists, limit - |data|);
    if !Truthy(page.next) && |playlists| - |sliced| == 0 then (data + sliced, None)
    else (data + sliced, CursorFormula(LastIndex(page.items, sliced[|sliced| - 1].id), t, limit, inputCursor))
  }

  /** The rows and the cursor the loop returns. */
  function Collected(remote: seq<RemotePlaylist>, submitted: set<string>, user: string, limit: nat, inputCursor: Option<nat>)
    : (seq<Summary>, Option<int>)
    requires 1 <= limit
  {
    var start := RequestOffset(inputCursor);
    StopFacts(remote, submitted, user, limit, start, [], 1);
    var (f, before, t) := Stop(remote, submitted, user, limit, start, [], 1);
    var page := FetchPage(remote, limit, f);
    LastRequest(page, Kept(page.items, submitted, user), before, t, limit, inputCursor)
  }

  /*
   * The scan, by position in the remote list.
   */

  /** The rows of the submittable playlists at positions `a .. b` of the list, in list order. */
  function KeptIn(remote: seq<RemotePlaylist>, submitted: set<string>, user: string, a: nat, b: nat): seq<Summary>
    decreases b
  {
    if b <= a || a >= |remote| then []
    else if b > |remote| then KeptIn(remote, submitted, user, a, |remote|)
    else
      var p := remote[b - 1];
      KeptIn(remote, submitted, user, a, b - 1) + (if Submittable(p, submitted, user) then [Summarize(p)] else [])
  }

  /** Everything a scan from `start` could return, in list order. */
  function Candidates(remote: seq<RemotePlaylist>, submitted: set<string>, user: string, start: nat): seq<Summary>
  {
    KeptIn(remote, submitted, user, start, |remote|)
  }

  /** The `continue` test at request offset `o` of a scan from `start`: a next page exists and all rows so far fit. */
  predicate Continues(remote: seq<RemotePlaylist>, submitted: set<string>, user: string, limit: nat, start: nat, o: nat)
  {
    o + limit < |remote| && |KeptIn(remote, submitted, user, start, o + limit)| < limit
  }

  /**
   * Where a scan from `start` stops once it reaches request offset `o`: the number of requests
   * counted from there, and the offset of the final request.
   */
  function Final(remote: seq<RemotePlaylist>, submitted: set<string>, user: string, limit: nat, start: nat, o: nat)
    : (nat, nat)
    requires 1 <= limit
    decreases |remote| - o
  {
    if Continues(remote, submitted, user, limit, start, o) then
      var t := Final(remote, submitted, user, limit, start, o + limit);
      (t.0 + 1, t.1)
    else (1, o)
  }

  /**
   * The loop stops after at least one request, at an offset where it does not continue, having
   * advanced `limit` per extra request; the rows before its final request do not fill the page.
   */
  lemma {:induction false} FinalFacts(remote: seq<RemotePlaylist>, submitted: set<string>, user: string, limit: nat, start: nat, o: nat)
    requires 1 <= limit
    ensures var r := Final(remote, submitted, user, limit, start, o);
            && 1 <= r.0 && o <= r.1
            && (r.0 == 1 ==> r.1 == o)
            && (r.0 == 2 ==> r.1 == o + limit)
            && (r.0 >= 3 ==> r.1 >= o + 2 * limit)
            && !Continues(remote, submitted, user, limit, start, r.1)
            && (|KeptIn(remote, submitted, user, start, o)| < limit ==>
                  |KeptIn(remote, submitted, user, start, r.1)| < limit)
    decreases |remote| - o
  {
    if Continues(remote, submitted, user, limit, start, o) {
      FinalFacts(remote, submitted, user, limit, start, o + limit);
    }
  }

  /** `break`: the final request had no next page and every candidate fits. */
  predicate Exhausted(remote: seq<RemotePlaylist>, submitted: set<string>, user: string, limit: nat, start: nat)
    requires 1 <= limit
  {
    var f := Final(remote, submitted, user, limit, start, start).1;
    f + limit >= |remote| && |Candidates(remote, submitted, user, start)| <= limit
  }

  /** The last position in `items` of a playlist with id `id`. */
  function LastIndex(items: seq<RemotePlaylist>, id: string): Option<nat>
  {
    if |items| == 0 then None
    else if items[|items| - 1].id == id then Some(|items| - 1)
    else LastIndex(items[..|items| - 1], id)
  }

  /** LastIndex finds the last item with `id`, or reports that none has it. */
  lemma {:induction false} LastIndexSpec(items: seq<RemotePlaylist>, id: string)
    ensures var r := LastIndex(items, id);
            && (r.Some? ==> r.value < |items| && items[r.value].id == id)
            && (r.Some? ==> forall j | r.value < j < |items| :: items[j].id != id)
            && (r.None? ==> forall j | 0 <= j < |items| :: items[j].id != id)
    decreases |items|
  {
    if |items| > 0 && items[|items| - 1].id != id {
      LastIndexSpec(items[..|items| - 1], id);
    }
  }

  /**
   * The cursor arithmetic as written: one past the index in the final page, plus `limit` after
   * more than one request, plus the input cursor after more than one request when it is truthy.
   */
  function CursorFormula(index: Option<nat>, requests: nat, limit: nat, inputCursor: Option<nat>): Option<int>
  {
    match index
    case None => None
    case Some(i) =>
      Some(i + 1 + (if requests > 1 then limit else 0)
             + (if requests > 1 && Truthy(inputCursor) then inputCursor.value else 0))
  }

  /** The id of the last returned row, when the scan did not run out. */
  function LastRowId(remote: seq<RemotePlaylist>, submitted: set<string>, user: string, limit: nat, start: nat): string
    requires 1 <= limit && !Exhausted(remote, submitted, user, limit, start)
  {
    NotExhaustedFull(remote, submitted, user, limit, start);
    Candidates(remote, submitted, user, start)[limit - 1].id
  }

  /** The cursor the resolver returns. */
  function CursorAsWritten(remote: seq<RemotePlaylist>, submitted: set<string>, user: string, limit: nat, inputCursor: Option<nat>)
    : Option<int>
    requires 1 <= limit
  {
    var start := RequestOffset(inputCursor);
    if Exhausted(remote, submitted, user, limit, start) then None
    else
      var (t, f) := Final(remote, submitted, user, limit, start, start);
      var items := FetchPage(remote, limit, f).items;
      CursorFormula(LastIndex(items, LastRowId(remote, submitted, user, limit, start)), t, limit, inputCursor)
  }

  /**
   * The intended cursor: the absolute offset just after the last returned row, that is the final
   * request's offset plus one past the row's index in that page.
   */
  function ResumeCursor(remote: seq<RemotePlaylist>, submitted: set<string>, user: string, limit: nat, inputCursor: Option<nat>)
    : Option<nat>
    requires 1 <= limit
  {
    var start := RequestOffset(inputCursor);
    if Exhausted(remote, submitted, user, limit, start) then None
    else
      var f := Final(remote, submitted, user, limit, start, start).1;
      var items := FetchPage(remote, limit, f).items;
      match LastIndex(items, LastRowId(remote, submitted, user, limit, start))
      case None => None
      case Some(i) => Some(f + i + 1)
  }

  /*
   * The loop computes the specification.
   */

  /** The loop returns the first `limit` candidates and the cursor as written. */
  lemma CollectedMeaning(remote: seq<RemotePlaylist>, submitted: set<string>, user: string, limit: nat, inputCursor: Option<nat>)
    requires 1 <= limit
    ensures Collected(remote, submitted, user, limit, inputCursor)
         == (Take(Candidates(remote, submitted, user, RequestOffset(inputCursor)), limit),
             CursorAsWritten(remote, submitted, user, limit, inputCursor))
  {
    var start := RequestOffset(inputCursor);
    assert KeptIn(remote, submitted, user, start, start) == [];
    StopAtFinal(remote, submitted, user, limit, start, start, 1);
    var (t, f) := Final(remote, submitted, user, limit, start, start);
    assert Stop(remote, submitted, user, limit, start, [], 1) == (f, KeptIn(remote, submitted, user, start, f), t);
    PageKept(remote, submitted, user, limit, f);
    FinalRequest(remote, submitted, user, limit, inputCursor, t, f);
  }

  /**
   * From a request offset `o` of a scan from `start`, with the rows scanned so far, the loop
   * stops at the final request `Final` names, having made the requests `Final` counts.
   */
  lemma {:induction false} StopAtFinal(
    remote: seq<RemotePlaylist>, submitted: set<string>, user: string, limit: nat, start: nat, o: nat, t: nat)
    requires 1 <= limit && start <= o
    ensures var r := Final(remote, submitted, user, limit, start, o);
            Stop(remote, submitted, user, limit, o, KeptIn(remote, submitted, user, start, o), t)
            == (r.1, KeptIn(remote, submitted, user, start, r.1), t + r.0 - 1)
    decreases |remote| - o
  {
    if Continues(remote, submitted, user, limit, start, o) {
      StopAtFinal(remote, submitted, user, limit, start, o + limit, t + 1);
      StopStep(remote, submitted, user, limit, start, o, t);
    } else {
      StopStep(remote, submitted, user, limit, start, o, t);
    }
  }

  /** One iteration of the loop at request offset `o` of a scan from `start`. */
  lemma StopStep(remote: seq<RemotePlaylist>, submitted: set<string>, user: string, limit: nat, start: nat, o: nat, t: nat)
    requires 1 <= limit && start <= o
    ensures var before := KeptIn(remote, submitted, user, start, o);
            Stop(remote, submitted, user, limit, o, before, t)
            == if Continues(remote, submitted, user, limit, start, o)
               then Stop(remote, submitted, user, limit, o + limit, KeptIn(remote, submitted, user, start, o + limit), t + 1)
               else (o, before, t)
  {
    ContinueTest(remote, submitted, user, limit, start, o);
    PageKept(remote, submitted, user, limit, o);
  }

  /** The final request, the `t`-th at offset `f`, leaves the first `limit` candidates and the cursor as written. */
  lemma FinalRequest(remote: seq<RemotePlaylist>, submitted: set<string>, user: string, limit: nat, inputCursor: Option<nat>, t: nat, f: nat)
    requires 1 <= limit
    requires Final(remote, submitted, user, limit, RequestOffset(inputCursor), RequestOffset(inputCursor)) == (t, f)
    ensures RequestOffset(inputCursor) <= f
    ensures var before := KeptIn(remote, submitted, user, RequestOffset(inputCursor), f);
            var page := FetchPage(remote, limit, f);
            var playlists := KeptIn(remote, submitted, user, f, f + limit);
            && |before| < limit
            && !(Truthy(page.next) && |before| + |playlists| < limit)
            && LastRequest(page, playlists, before, t, limit, inputCursor)
               == (Take(Candidates(remote, submitted, user, RequestOffset(inputCursor)), limit),
                   CursorAsWritten(remote, submitted, user, limit, inputCursor))
  {
    var start := RequestOffset(inputCursor);
    FinalAtFacts(remote, submitted, user, limit, start, t, f);
    if Exhausted(remote, submitted, user, limit, start) {
      BreakCase(remote, submitted, user, limit, inputCursor, t, f);
    } else {
      FullCase(remote, submitted, user, limit, inputCursor, t, f);
    }
  }

  /** The stopping request at offset `f`, the `t`-th, of a scan from `start`. */
  ghost predicate FinalAt(remote: seq<RemotePlaylist>, submitted: set<string>, user: string, limit: nat, start: nat, t: nat, f: nat)
  {
    && 1 <= limit && start <= f
    && Final(remote, submitted, user, limit, start, start) == (t, f)
    && |KeptIn(remote, submitted, user, start, f)| < limit
    && !(Truthy(FetchPage(remote, limit, f).next)
         && |KeptIn(remote, submitted, user, start, f)| + |KeptIn(remote, submitted, user, f, f + limit)| < limit)
    && KeptIn(remote, submitted, user, start, f) + Take(KeptIn(remote, submitted, user, f, f + limit), limit - |KeptIn(remote, submitted, user, start, f)|)
       == Take(Candidates(remote, submitted, user, start), limit)
  }

  /**
   * The loop's stopping request is the one `Final` names, and it breaks exactly when the scan
   * ran out.
   */
  lemma FinalAtFacts(remote: seq<RemotePlaylist>, submitted: set<string>, user: string, limit: nat, start: nat, t: nat, f: nat)
    requires 1 <= limit && Final(remote, submitted, user, limit, start, start) == (t, f)
    ensures FinalAt(remote, submitted, user, limit, start, t, f)
    ensures var playlists := KeptIn(remote, submitted, user, f, f + limit);
            Exhausted(remote, submitted, user, limit, start)
            <==> !Truthy(FetchPage(remote, limit, f).next)
                 && |playlists| - |Take(playlists, limit - |KeptIn(remote, submitted, user, start, f)|)| == 0
  {
    FinalFacts(remote, submitted, user, limit, start, start);
    assert KeptIn(remote, submitted, user, start, start) == [];
    ContinueTest(remote, submitted, user, limit, start, f);
    StopData(remote, submitted, user, limit, start, f);
    StopExhausted(remote, submitted, user, limit, start, f);
  }

  /** The scan ran out: the final request returns the rows it collected and no cursor. */
  lemma BreakCase(remote: seq<RemotePlaylist>, submitted: set<string>, user: string, limit: nat, inputCursor: Option<nat>, t: nat, f: nat)
    requires FinalAt(remote, submitted, user, limit, RequestOffset(inputCursor), t, f)
    requires Exhausted(remote, submitted, user, limit, RequestOffset(inputCursor))
    requires var start := RequestOffset(inputCursor);
             var playlists := KeptIn(remote, submitted, user, f, f + limit);
             !Truthy(FetchPage(remote, limit, f).next)
             && |playlists| - |Take(playlists, limit - |KeptIn(remote, submitted, user, start, f)|)| == 0
    ensures var before := KeptIn(remote, submitted, user, RequestOffset(inputCursor), f);
            LastRequest(FetchPage(remote, limit, f), KeptIn(remote, submitted, user, f, f + limit), before, t, limit, inputCursor)
            == (Take(Candidates(remote, submitted, user, RequestOffset(inputCursor)), limit),
                CursorAsWritten(remote, submitted, user, limit, inputCursor))
  {
  }

  /** The scan did not run out: the final request returns `limit` rows and the cursor as written. */
  lemma FullCase(remote: seq<RemotePlaylist>, submitted: set<string>, user: string, limit: nat, inputCursor: Option<nat>, t: nat, f: nat)
    requires FinalAt(remote, submitted, user, limit, RequestOffset(inputCursor), t, f)
    requires !Exhausted(remote, submitted, user, limit, RequestOffset(inputCursor))
    requires var start := RequestOffset(inputCursor);
             var playlists := KeptIn(remote, submitted, user, f, f + limit);
             !(!Truthy(FetchPage(remote, limit, f).next)
               && |playlists| - |Take(playlists, limit - |KeptIn(remote, submitted, user, start, f)|)| == 0)
    ensures var before := KeptIn(remote, submitted, user, RequestOffset(inputCursor), f);
            LastRequest(FetchPage(remote, limit, f), KeptIn(remote, submitted, user, f, f + limit), before, t, limit, inputCursor)
            == (Take(Candidates(remote, submitted, user, RequestOffset(inputCursor)), limit),
                CursorAsWritten(remote, submitted, user, limit, inputCursor))
  {
    var start := RequestOffset(inputCursor);
    StopLastRow(remote, submitted, user, limit, start, f);
    FullCursor(remote, submitted, user, limit, inputCursor, t, f);
  }


  /** When the scan did not run out, the cursor as written is the formula at the final request's page. */
  lemma FullCursor(remote: seq<RemotePlaylist>, submitted: set<string>, user: string, limit: nat, inputCursor: Option<nat>, t: nat, f: nat)
    requires 1 <= limit && !Exhausted(remote, submitted, user, limit, RequestOffset(inputCursor))
    requires Final(remote, submitted, user, limit, RequestOffset(inputCursor), RequestOffset(inputCursor)) == (t, f)
    ensures CursorAsWritten(remote, submitted, user, limit, inputCursor)
         == CursorFormula(LastIndex(FetchPage(remote, limit, f).items,
                                    LastRowId(remote, submitted, user, limit, RequestOffset(inputCursor))),
                          t, limit, inputCursor)
  {
  }

  /** The `continue` test at request offset `o` of a scan from `start`. */
  lemma ContinueTest(remote: seq<RemotePlaylist>, submitted: set<string>, user: string, limit: nat, start: nat, o: nat)
    requires 1 <= limit && start <= o
    ensures KeptIn(remote, submitted, user, start, o + limit)
         == KeptIn(remote, submitted, user, start, o) + KeptIn(remote, submitted, user, o, o + limit)
    ensures Truthy(FetchPage(remote, limit, o).next) <==> o + limit < |remote|
    ensures Continues(remote, submitted, user, limit, start, o)
            <==> Truthy(FetchPage(remote, limit, o).next)
                 && |KeptIn(remote, submitted, user, start, o)| + |KeptIn(remote, submitted, user, o, o + limit)| < limit
  {
    KeptInSplit(remote, submitted, user, start, o, o + limit);
  }

  /*
   * The iteration that does not `continue`, at request offset `o` of a scan from `start`: the
   * rows it leaves are the first `limit` candidates (StopData), it breaks exactly when the scan
   * ran out (StopExhausted), and otherwise the last row it keeps is the last candidate returned
   * (StopLastRow).
   */

  lemma StopData(remote: seq<RemotePlaylist>, submitted: set<string>, user: string, limit: nat, start: nat, o: nat)
    requires 1 <= limit && start <= o
    requires |KeptIn(remote, submitted, user, start, o)| < limit
    requires !Continues(remote, submitted, user, limit, start, o)
    ensures var before := KeptIn(remote, submitted, user, start, o);
            before + Take(KeptIn(remote, submitted, user, o, o + limit), limit - |before|)
            == Take(Candidates(remote, submitted, user, start), limit)
  {
    var before := KeptIn(remote, submitted, user, start, o);
    var playlists := KeptIn(remote, submitted, user, o, o + limit);
    var upTo := KeptIn(remote, submitted, user, start, o + limit);
    var rest := KeptIn(remote, submitted, user, o + limit, o + limit + |remote|);
    KeptInSplit(remote, submitted, user, start, o, o + limit);
    SplitCandidates(remote, submitted, user, start, o + limit);
    assert |upTo| >= limit || rest == [];
    TakeOfParts(Candidates(remote, submitted, user, start), upTo, before, playlists, rest, limit);
  }

  lemma StopExhausted(remote: seq<RemotePlaylist>, submitted: set<string>, user: string, limit: nat, start: nat, o: nat)
    requires 1 <= limit && start <= o
    requires |KeptIn(remote, submitted, user, start, o)| < limit
    requires Final(remote, submitted, user, limit, start, start).1 == o
    ensures var before := KeptIn(remote, submitted, user, start, o);
            var playlists := KeptIn(remote, submitted, user, o, o + limit);
            Exhausted(remote, submitted, user, limit, start)
            <==> !Truthy(FetchPage(remote, limit, o).next) && |playlists| - |Take(playlists, limit - |before|)| == 0
  {
    var before := KeptIn(remote, submitted, user, start, o);
    var playlists := KeptIn(remote, submitted, user, o, o + limit);
    KeptInSplit(remote, submitted, user, start, o, o + limit);
    if o + limit >= |remote| {
      KeptInClip(remote, submitted, user, start, o + limit);
      assert Candidates(remote, submitted, user, start) == before + playlists;
    }
  }

  lemma StopLastRow(remote: seq<RemotePlaylist>, submitted: set<string>, user: string, limit: nat, start: nat, o: nat)
    requires 1 <= limit && start <= o
    requires |KeptIn(remote, submitted, user, start, o)| < limit
    requires var before := KeptIn(remote, submitted, user, start, o);
             before + Take(KeptIn(remote, submitted, user, o, o + limit), limit - |before|)
             == Take(Candidates(remote, submitted, user, start), limit)
    requires !Exhausted(remote, submitted, user, limit, start)
    ensures var before := KeptIn(remote, submitted, user, start, o);
            var sliced := Take(KeptIn(remote, submitted, user, o, o + limit), limit - |before|);
            && |before + sliced| == limit
            && sliced[|sliced| - 1].id == LastRowId(remote, submitted, user, limit, start)
  {
    NotExhaustedFull(remote, submitted, user, limit, start);
    var before := KeptIn(remote, submitted, user, start, o);
    var sliced := Take(KeptIn(remote, submitted, user, o, o + limit), limit - |before|);
    var data := before + sliced;
    assert |data| == limit;
    assert data[limit - 1] == sliced[|sliced| - 1];
  }

  /** When the scan did not run out, at least `limit` candidates exist. */
  lemma NotExhaustedFull(remote: seq<RemotePlaylist>, submitted: set<string>, user: string, limit: nat, start: nat)
    requires 1 <= limit && !Exhausted(remote, submitted, user, limit, start)
    ensures |Candidates(remote, submitted, user, start)| >= limit
  {
    var f := Final(remote, submitted, user, limit, start, start).1;
    FinalFacts(remote, submitted, user, limit, start, start);
    assert !Continues(remote, submitted, user, limit, start, f);
    if f + limit < |remote| {
      assert |KeptIn(remote, submitted, user, start, f + limit)| >= limit;
      KeptInSplit(remote, submitted, user, start, f + limit, |remote|);
    }
  }

  /** The rows of the page answered at offset `o` are the scan's rows at positions `o .. o + limit`. */
  lemma PageKept(remote: seq<RemotePlaylist>, submitted: set<string>, user: string, limit: nat, o: nat)
    ensures Kept(FetchPage(remote, limit, o).items, submitted, user) == KeptIn(remote, submitted, user, o, o + limit)
  {
    if o >= |remote| {
      assert FetchPage(remote, limit, o).items == [];
    } else {
      KeptSlice(remote, submitted, user, o, Min(o + limit, |remote|));
      if o + limit >= |remote| {
        KeptInClip(remote, submitted, user, o, o + limit);
      }
    }
  }

  /** Filtering a stretch of the list gives the scan's rows at those positions. */
  lemma {:induction false} KeptSlice(remote: seq<RemotePlaylist>, submitted: set<string>, user: string, a: nat, b: nat)
    requires a <= b <= |remote|
    ensures Kept(remote[a..b], submitted, user) == KeptIn(remote, submitted, user, a, b)
    decreases b
  {
    if a < b {
      KeptSlice(remote, submitted, user, a, b - 1);
      assert remote[a..b] == remote[a..b - 1] + [remote[b - 1]];
      KeptAppend(remote[a..b - 1], [remote[b - 1]], submitted, user);
      assert [remote[b - 1]][1..] == [];
    }
  }

  /** A scan's candidates are its rows up to `m` followed by everything from `m`. */
  lemma SplitCandidates(remote: seq<RemotePlaylist>, submitted: set<string>, user: string, start: nat, m: nat)
    requires start <= m
    ensures Candidates(remote, submitted, user, start)
         == KeptIn(remote, submitted, user, start, m) + KeptIn(remote, submitted, user, m, m + |remote|)
  {
    KeptInSplit(remote, submitted, user, start, m, m + |remote|);
    KeptInClip(remote, submitted, user, start, m + |remote|);
  }

  /** Positions past the end of the list add no rows. */
  lemma KeptInClip(remote: seq<RemotePlaylist>, submitted: set<string>, user: string, a: nat, b: nat)
    requires b >= |remote|
    ensures KeptIn(remote, submitted, user, a, b) == KeptIn(remote, submitted, user, a, |remote|)
  {
  }

  /** The scan's rows at `a .. c` are those at `a .. b` followed by those at `b .. c`. */
  lemma {:induction false} KeptInSplit(remote: seq<RemotePlaylist>, submitted: set<string>, user: string, a: nat, b: nat, c: nat)
    requires a <= b <= c
    ensures KeptIn(remote, submitted, user, a, c)
         == KeptIn(remote, submitted, user, a, b) + KeptIn(remote, submitted, user, b, c)
    decreases c
  {
    if a >= |remote| || c == b {
    } else if b >= |remote| {
      KeptInClip(remote, submitted, user, a, c);
      KeptInClip(remote, submitted, user, a, b);
    } else if c > |remote| {
      KeptInSplit(remote, submitted, user, a, b, |remote|);
    } else {
      KeptInSplit(remote, submitted, user, a, b, c - 1);
    }
  }

  lemma {:induction false} KeptAppend(a: seq<RemotePlaylist>, b: seq<RemotePlaylist>, submitted: set<string>, user: string)
    ensures Kept(a + b, submitted, user) == Kept(a, submitted, user) + Kept(b, submitted, user)
    decreases |a|
  {
    if |a| > 0 {
      assert (a + b)[1..] == a[1..] + b;
      KeptAppend(a[1..], b, submitted, user);
    } else {
      assert a + b == b;
    }
  }

  /**
   * The rows kept so far, then what fits of one page's rows, are the first `n` of everything
   * when the rows up to that page fill `n` or nothing follows them.
   */
  lemma TakeOfParts<T>(cand: seq<T>, upTo: seq<T>, before: seq<T>, page: seq<T>, rest: seq<T>, n: nat)
    requires cand == upTo + rest && upTo == before + page
    requires |before| < n && (|upTo| >= n || rest == [])
    ensures before + Take(page, n - |before|) == Take(cand, n)
  {
    TakeAppendShort(before, page, n);
    if |upTo| >= n {
      TakeAppendLong(upTo, rest, n);
    } else {
      assert cand == upTo;
    }
  }

  /** Taking `n` from `a + b` when `a` fits takes all of `a` and the rest from `b`. */
  lemma TakeAppendShort<T>(a: seq<T>, b: seq<T>, n: nat)
    requires |a| <= n
    ensures Take(a + b, n) == a + Take(b, n - |a|)
  {
  }

  /** Taking `n` from `a + b` when `a` is long enough takes only from `a`. */
  lemma TakeAppendLong<T>(a: seq<T>, b: seq<T>, n: nat)
    requires |a| >= n
    ensures Take(a + b, n) == Take(a, n)
  {
  }
}
