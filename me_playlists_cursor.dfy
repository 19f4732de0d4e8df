/**
 * What the `me.playlists` cursor means. The intended cursor is the absolute offset just after the
 * last returned row: resuming there returns exactly the candidates not yet returned. The cursor
 * the resolver computes agrees with it only when the loop made exactly two requests, or one
 * request that started at offset 0.
 */
module MePlaylistsCursor {
  import opened Wrappers
  import opened Store
  import opened MePlaylists

  /** The remote list names each playlist once. */
  predicate DistinctIds(remote: seq<RemotePlaylist>)
  {
    forall i, j | 0 <= i < j < |remote| :: remote[i].id != remote[j].id
  }

  /** The `n`-th row of the scan at positions `a .. b` comes from a submittable playlist at some position `p`. */
  lemma {:induction false} KeptInAt(remote: seq<RemotePlaylist>, submitted: set<string>, user: string, a: nat, b: nat, n: nat)
    returns (p: nat)
    requires n < |KeptIn(remote, submitted, user, a, b)|
    ensures a <= p < b && p < |remote| && Submittable(remote[p], submitted, user)
    ensures |KeptIn(remote, submitted, user, a, p)| == n
    ensures KeptIn(remote, submitted, user, a, b)[n] == Summarize(remote[p])
    decreases b
  {
    if b > |remote| {
      p := KeptInAt(remote, submitted, user, a, |remote|, n);
    } else {
      var init := KeptIn(remote, submitted, user, a, b - 1);
      if n < |init| {
        p := KeptInAt(remote, submitted, user, a, b - 1, n);
      } else {
        p := b - 1;
      }
    }
  }

  /** A longer stretch from the same start keeps at least as many rows. */
  lemma KeptInGrows(remote: seq<RemotePlaylist>, submitted: set<string>, user: string, a: nat, b: nat, c: nat)
    requires a <= b <= c
    ensures |KeptIn(remote, submitted, user, a, b)| <= |KeptIn(remote, submitted, user, a, c)|
  {
    KeptInSplit(remote, submitted, user, a, b, c);
  }

  /**
   * When the scan did not run out, the last returned row is the playlist at a position `p` of the
   * final request's page, and the rows up to and including `p` are exactly the returned rows.
   */
  lemma LastRowPosition(remote: seq<RemotePlaylist>, submitted: set<string>, user: string, limit: nat, start: nat)
    returns (p: nat)
    requires 1 <= limit && !Exhausted(remote, submitted, user, limit, start)
    ensures var f := Final(remote, submitted, user, limit, start, start).1;
            && f <= p < f + limit && p < |remote|
            && Submittable(remote[p], submitted, user)
            && LastRowId(remote, submitted, user, limit, start) == remote[p].id
            && KeptIn(remote, submitted, user, start, p + 1) == Take(Candidates(remote, submitted, user, start), limit)
  {
    var f := Final(remote, submitted, user, limit, start, start).1;
    FinalFacts(remote, submitted, user, limit, start, start);
    assert KeptIn(remote, submitted, user, start, start) == [];
    var upTo := KeptIn(remote, submitted, user, start, f + limit);
    var rest := KeptIn(remote, submitted, user, f + limit, f + limit + |remote|);
    SplitCandidates(remote, submitted, user, start, f + limit);
    NotExhaustedFull(remote, submitted, user, limit, start);
    assert |upTo| >= limit;
    p := KeptInAt(remote, submitted, user, start, f + limit, limit - 1);
    var row := [Summarize(remote[p])];
    assert KeptIn(remote, submitted, user, start, p + 1) == KeptIn(remote, submitted, user, start, p) + row;
    if p < f {
      KeptInGrows(remote, submitted, user, start, p + 1, f);
      assert false;
    }
    var upToP := KeptIn(remote, submitted, user, start, p + 1);
    KeptInSplit(remote, submitted, user, start, p + 1, f + limit + |remote|);
    KeptInClip(remote, submitted, user, start, f + limit + |remote|);
    TakeAppendLong(upToP, KeptIn(remote, submitted, user, p + 1, f + limit + |remote|), limit);
    assert Take(upToP, limit) == upToP;
    assert Candidates(remote, submitted, user, start)[limit - 1] == upTo[limit - 1];
  }

  /** In the page answered at offset `f`, the playlist at position `p` is the only one with its id. */
  lemma PageIndex(remote: seq<RemotePlaylist>, limit: nat, f: nat, p: nat)
    requires DistinctIds(remote) && f <= p < f + limit && p < |remote|
    ensures LastIndex(FetchPage(remote, limit, f).items, remote[p].id) == Some(p - f)
  {
    var items := FetchPage(remote, limit, f).items;
    assert items == remote[f..Min(f + limit, |remote|)];
    assert items[p - f] == remote[p];
    LastIndexSpec(items, remote[p].id);
    var r := LastIndex(items, remote[p].id);
    if r.Some? {
      assert items[r.value] == remote[f + r.value];
    }
  }

  /**
   * The two cursors when the scan did not run out: the intended one is one past the last row's
   * position, the one as written adds `limit` and the start offset after more than one request
   * to one past the row's index in the final page.
   */
  lemma CursorValues(remote: seq<RemotePlaylist>, submitted: set<string>, user: string, limit: nat, inputCursor: Option<nat>)
    returns (p: nat)
    requires 1 <= limit && DistinctIds(remote)
    requires !Exhausted(remote, submitted, user, limit, RequestOffset(inputCursor))
    ensures var start := RequestOffset(inputCursor);
            var (t, f) := Final(remote, submitted, user, limit, start, start);
            && f <= p
            && KeptIn(remote, submitted, user, start, p + 1) == Take(Candidates(remote, submitted, user, start), limit)
            && ResumeCursor(remote, submitted, user, limit, inputCursor) == Some(p + 1)
            && CursorAsWritten(remote, submitted, user, limit, inputCursor)
               == Some(p - f + 1 + (if t > 1 then limit + start else 0))
  {
    var start := RequestOffset(inputCursor);
    var f := Final(remote, submitted, user, limit, start, start).1;
    p := LastRowPosition(remote, submitted, user, limit, start);
    PageIndex(remote, limit, f, p);
    ResumeAt(remote, submitted, user, limit, inputCursor, p);
    WrittenAt(remote, submitted, user, limit, inputCursor, p);
  }

  /** The intended cursor, once the last row's index in the final page is known. */
  lemma ResumeAt(remote: seq<RemotePlaylist>, submitted: set<string>, user: string, limit: nat, inputCursor: Option<nat>, p: nat)
    requires 1 <= limit && !Exhausted(remote, submitted, user, limit, RequestOffset(inputCursor))
    requires var start := RequestOffset(inputCursor);
             var f := Final(remote, submitted, user, limit, start, start).1;
             f <= p && LastIndex(FetchPage(remote, limit, f).items, LastRowId(remote, submitted, user, limit, start)) == Some(p - f)
    ensures ResumeCursor(remote, submitted, user, limit, inputCursor) == Some(p + 1)
  {
  }

  /** The cursor as written, once the last row's index in the final page is known. */
  lemma WrittenAt(remote: seq<RemotePlaylist>, submitted: set<string>, user: string, limit: nat, inputCursor: Option<nat>, p: nat)
    requires 1 <= limit && !Exhausted(remote, submitted, user, limit, RequestOffset(inputCursor))
    requires var start := RequestOffset(inputCursor);
             var f := Final(remote, submitted, user, limit, start, start).1;
             f <= p && LastIndex(FetchPage(remote, limit, f).items, LastRowId(remote, submitted, user, limit, start)) == Some(p - f)
    ensures var start := RequestOffset(inputCursor);
            var (t, f) := Final(remote, submitted, user, limit, start, start);
            CursorAsWritten(remote, submitted, user, limit, inputCursor)
            == Some(p - f + 1 + (if t > 1 then limit + start else 0))
  {
  }

  /**
   * Resuming at the intended cursor continues the listing: a cursor exists exactly when the scan
   * did not run out, it lies past the start, and the candidates from it are exactly those after
   * the returned rows, so no row is skipped or repeated.
   */
  lemma ResumeContinues(remote: seq<RemotePlaylist>, submitted: set<string>, user: string, limit: nat, inputCursor: Option<nat>)
    requires 1 <= limit && DistinctIds(remote)
    ensures var start := RequestOffset(inputCursor);
            ResumeCursor(remote, submitted, user, limit, inputCursor).Some?
            <==> !Exhausted(remote, submitted, user, limit, start)
    ensures var start := RequestOffset(inputCursor);
            var c := ResumeCursor(remote, submitted, user, limit, inputCursor);
            c.Some? ==>
              && start < c.value
              && Candidates(remote, submitted, user, start)
                 == Take(Candidates(remote, submitted, user, start), limit)
                    + Candidates(remote, submitted, user, RequestOffset(Some(c.value)))
  {
    var start := RequestOffset(inputCursor);
    if !Exhausted(remote, submitted, user, limit, start) {
      var p := CursorValues(remote, submitted, user, limit, inputCursor);
      FinalFacts(remote, submitted, user, limit, start, start);
      CandidatesFrom(remote, submitted, user, start, p + 1);
      assert RequestOffset(Some(p + 1)) == p + 1;
    }
  }

  /** The candidates from `start` are those before `m` followed by the candidates from `m`. */
  lemma CandidatesFrom(remote: seq<RemotePlaylist>, submitted: set<string>, user: string, start: nat, m: nat)
    requires start <= m
    ensures Candidates(remote, submitted, user, start)
         == KeptIn(remote, submitted, user, start, m) + Candidates(remote, submitted, user, m)
  {
    SplitCandidates(remote, submitted, user, start, m);
    KeptInClip(remote, submitted, user, m, m + |remote|);
  }

  /**
   * The cursor as written is the intended one exactly when the scan ran out (both are null),
   * or the loop made two requests, or it made one request starting at offset 0.
   */
  lemma CursorCorrectExactly(remote: seq<RemotePlaylist>, submitted: set<string>, user: string, limit: nat, inputCursor: Option<nat>)
    requires 1 <= limit && DistinctIds(remote)
    ensures var start := RequestOffset(inputCursor);
            var t := Final(remote, submitted, user, limit, start, start).0;
            CursorAsWritten(remote, submitted, user, limit, inputCursor)
              == ResumeCursor(remote, submitted, user, limit, inputCursor)
            <==> Exhausted(remote, submitted, user, limit, start) || t == 2 || (t == 1 && start == 0)
  {
    var start := RequestOffset(inputCursor);
    if !Exhausted(remote, submitted, user, limit, start) {
      var p := CursorValues(remote, submitted, user, limit, inputCursor);
      FinalFacts(remote, submitted, user, limit, start, start);
    }
  }

  /*
   * The response as a whole.
   */

  /** `row` is the row of a submittable playlist at one of the positions from `a` on. */
  ghost predicate RowFrom(row: Summary, remote: seq<RemotePlaylist>, submitted: set<string>, user: string, a: nat)
  {
    exists i | a <= i < |remote| :: Submittable(remote[i], submitted, user) && row == Summarize(remote[i])
  }

  /** Every row of the scan at positions `a .. b` is a submittable playlist at one of those positions. */
  lemma KeptInRows(remote: seq<RemotePlaylist>, submitted: set<string>, user: string, a: nat, b: nat)
    ensures forall k | 0 <= k < |KeptIn(remote, submitted, user, a, b)| ::
              RowFrom(KeptIn(remote, submitted, user, a, b)[k], remote, submitted, user, a)
  {
    var rows := KeptIn(remote, submitted, user, a, b);
    forall k | 0 <= k < |rows| ensures RowFrom(rows[k], remote, submitted, user, a) {
      var i := KeptInAt(remote, submitted, user, a, b, k);
      assert a <= i < |remote| && Submittable(remote[i], submitted, user) && rows[k] == Summarize(remote[i]);
    }
  }

  /** When the scan did not run out, the resolver returns a cursor. */
  lemma CursorPresent(remote: seq<RemotePlaylist>, submitted: set<string>, user: string, limit: nat, inputCursor: Option<nat>)
    requires 1 <= limit
    ensures CursorAsWritten(remote, submitted, user, limit, inputCursor).None?
            <==> Exhausted(remote, submitted, user, limit, RequestOffset(inputCursor))
  {
    var start := RequestOffset(inputCursor);
    if !Exhausted(remote, submitted, user, limit, start) {
      var f := Final(remote, submitted, user, limit, start, start).1;
      var p := LastRowPosition(remote, submitted, user, limit, start);
      var items := FetchPage(remote, limit, f).items;
      assert items == remote[f..Min(f + limit, |remote|)];
      assert items[p - f] == remote[p];
      LastIndexSpec(items, remote[p].id);
    }
  }

  /** Fewer than `limit` candidates means the scan ran out. */
  lemma ShortIsExhausted(remote: seq<RemotePlaylist>, submitted: set<string>, user: string, limit: nat, start: nat)
    requires 1 <= limit && |Candidates(remote, submitted, user, start)| < limit
    ensures Exhausted(remote, submitted, user, limit, start)
  {
    if !Exhausted(remote, submitted, user, limit, start) {
      NotExhaustedFull(remote, submitted, user, limit, start);
    }
  }

  /**
   * The response's shape: a bad `limit` is rejected; otherwise the rows are at most `limit`
   * rows of submittable playlists (owned by the user, not submitted) from the start offset on,
   * the first candidates in list order; the cursor is null exactly when the scan ran out; and
   * fewer than `limit` rows means every candidate was returned and there is no cursor.
   */
  lemma ResponseShape(
    remote: seq<RemotePlaylist>, records: map<string, PlaylistRecord>, user: string, limit: int,
    inputCursor: Option<nat>)
    ensures Response(remote, records, user, limit, inputCursor).Err?
            <==> !(1 <= limit <= MaxLimit)
    ensures Response(remote, records, user, limit, inputCursor).Err?
            ==> Response(remote, records, user, limit, inputCursor).error == BadRequest
    ensures Response(remote, records, user, limit, inputCursor).Ok? ==>
              var r := Response(remote, records, user, limit, inputCursor).value;
              var submitted := SubmittedIds(records, user);
              var start := RequestOffset(inputCursor);
              var cand := Candidates(remote, submitted, user, start);
              && |r.data| <= limit
              && r.data == cand[..|r.data|]
              && (r.cursor.None? <==> Exhausted(remote, submitted, user, limit, start))
              && (|r.data| < limit ==> r.data == cand && r.cursor.None?)
              && forall k | 0 <= k < |r.data| :: RowFrom(r.data[k], remote, submitted, user, start)
  {
    if 1 <= limit <= MaxLimit {
      var submitted := SubmittedIds(records, user);
      var start := RequestOffset(inputCursor);
      var cand := Candidates(remote, submitted, user, start);
      CursorPresent(remote, submitted, user, limit, inputCursor);
      if |cand| < limit {
        ShortIsExhausted(remote, submitted, user, limit, start);
      }
      KeptInRows(remote, submitted, user, start, |remote|);
      assert Response(remote, records, user, limit, inputCursor)
          == Ok(MeResponse(Take(cand, limit), CursorAsWritten(remote, submitted, user, limit, inputCursor)));
      var r := Response(remote, records, user, limit, inputCursor).value;
      forall k | 0 <= k < |r.data| ensures RowFrom(r.data[k], remote, submitted, user, start) {
        assert r.data[k] == cand[k];
      }
    }
  }


  /** A cursor of 0 is falsy and behaves exactly like no cursor. */
  lemma ZeroCursorIsNull(
    remote: seq<RemotePlaylist>, records: map<string, PlaylistRecord>, user: string, limit: int)
    ensures Response(remote, records, user, limit, Some(0)) == Response(remote, records, user, limit, None)
  {
    assert RequestOffset(Some(0)) == RequestOffset(None) == 0;
    if 1 <= limit <= MaxLimit {
      var submitted := SubmittedIds(records, user);
      FormulaIgnoresZero(remote, submitted, user, limit);
    }
  }

  lemma FormulaIgnoresZero(remote: seq<RemotePlaylist>, submitted: set<string>, user: string, limit: nat)
    requires 1 <= limit
    ensures CursorAsWritten(remote, submitted, user, limit, Some(0)) == CursorAsWritten(remote, submitted, user, limit, None)
  {
    assert forall i, t :: CursorFormula(i, t, limit, Some(0)) == CursorFormula(i, t, limit, None);
  }

  /** The response with the intended cursor in place of the one as written. */
  function IntendedResponse(
    remote: seq<RemotePlaylist>, records: map<string, PlaylistRecord>, user: string, limit: int,
    inputCursor: Option<nat>)
    : Result<MeResponse, Error>
  {
    if !(1 <= limit <= MaxLimit) then Err(BadRequest)
    else
      var submitted := SubmittedIds(records, user);
      var c := ResumeCursor(remote, submitted, user, limit, inputCursor);
      Ok(MeResponse(
        Take(Candidates(remote, submitted, user, RequestOffset(inputCursor)), limit),
        if c.Some? then Some(c.value) else None))
  }

  /*
   * Inputs on which the cursor as written goes wrong.
   */

  /** A playlist of the list with only an id and an owner. */
  function Listed(id: string, owner: string): RemotePlaylist
  {
    RemotePlaylist(id, owner, id, None, [])
  }

  /**
   * One request with a cursor: asked for one row from offset 1 of three playlists of the user,
   * the resolver returns the second playlist and cursor 1 again, so a client following the
   * cursor asks for the same page forever; the intended cursor is 2.
   */
  lemma StuckCursorExample()
    ensures var remote := [Listed("a", "u"), Listed("b", "u"), Listed("c", "u")];
            && Response(remote, map[], "u", 1, Some(1)) == Ok(MeResponse([Summarize(remote[1])], Some(1)))
            && IntendedResponse(remote, map[], "u", 1, Some(1)) == Ok(MeResponse([Summarize(remote[1])], Some(2)))
  {
    var remote := [Listed("a", "u"), Listed("b", "u"), Listed("c", "u")];
    assert SubmittedIds(map[], "u") == {};
    assert KeptIn(remote, {}, "u", 1, 2) == [Summarize(remote[1])];
    assert Final(remote, {}, "u", 1, 1, 1) == (1, 1);
    assert Candidates(remote, {}, "u", 1) == [Summarize(remote[1]), Summarize(remote[2])];
    assert FetchPage(remote, 1, 1).items == [remote[1]];
    assert LastIndex(FetchPage(remote, 1, 1).items, "b") == Some(0);
  }

  /** Two playlists of someone else, then two of user `u`. */
  function OthersFirst(): seq<RemotePlaylist>
  {
    [Listed("x", "v"), Listed("y", "v"), Listed("z", "u"), Listed("w", "u")]
  }

  /** Without a cursor the loop skips two pages of someone else's playlists and stops at the third request. */
  lemma OthersFirstScan()
    ensures Final(OthersFirst(), {}, "u", 1, 0, 0) == (3, 2)
    ensures Candidates(OthersFirst(), {}, "u", 0) == [Summarize(OthersFirst()[2]), Summarize(OthersFirst()[3])]
    ensures Candidates(OthersFirst(), {}, "u", 2) == [Summarize(OthersFirst()[2]), Summarize(OthersFirst()[3])]
  {
    var remote := OthersFirst();
    assert KeptIn(remote, {}, "u", 0, 1) == [];
    assert KeptIn(remote, {}, "u", 0, 2) == [];
    assert KeptIn(remote, {}, "u", 0, 3) == [Summarize(remote[2])];
    assert Final(remote, {}, "u", 1, 0, 2) == (1, 2);
    assert Final(remote, {}, "u", 1, 0, 1) == (2, 2);
    assert KeptIn(remote, {}, "u", 2, 3) == [Summarize(remote[2])];
    assert KeptIn(remote, {}, "u", 0, 4) == [Summarize(remote[2]), Summarize(remote[3])];
  }

  /**
   * Three requests without a cursor: asked for one row of a list whose first two playlists
   * belong to someone else, the resolver returns the third playlist with cursor 2, and
   * following that cursor returns the third playlist again; the intended cursor is 3.
   */
  lemma RepeatedRowExample()
    ensures var remote := OthersFirst();
            && Response(remote, map[], "u", 1, None) == Ok(MeResponse([Summarize(remote[2])], Some(2)))
            && Response(remote, map[], "u", 1, Some(2)).Ok?
            && Response(remote, map[], "u", 1, Some(2)).value.data == [Summarize(remote[2])]
            && IntendedResponse(remote, map[], "u", 1, None) == Ok(MeResponse([Summarize(remote[2])], Some(3)))
  {
    var remote := OthersFirst();
    assert SubmittedIds(map[], "u") == {};
    OthersFirstScan();
    assert !Exhausted(remote, {}, "u", 1, 0);
    assert LastRowId(remote, {}, "u", 1, 0) == "z";
    assert FetchPage(remote, 1, 2).items == [remote[2]];
    assert LastIndex(FetchPage(remote, 1, 2).items, "z") == Some(0);
    assert CursorAsWritten(remote, {}, "u", 1, None) == Some(2);
    assert Take(Candidates(remote, {}, "u", 0), 1) == [Summarize(remote[2])];
  }
}
