/** What the fetcher promises: the paging rule for both listings, which
    playlists it keeps and in what order, which tracks a kept playlist holds,
    and where an exception leaves it. */
module FetcherProperties {
  import opened Json
  import opened SpotifyData
  import opened Paging
  import opened Fetcher

  /** The offsets of the playlist-listing requests in a trace, in order. */
  function PlaylistOffsets(trace: seq<SpotifyCall>): seq<nat>
  {
    if |trace| == 0 then []
    else
      PlaylistOffsets(trace[..|trace| - 1])
      + (match Last(trace) case PlaylistsRequest(_, o) => [o] case TracksRequest(_, _, _) => [])
  }

  /** The track requests of a trace, in order. */
  function TrackCalls(trace: seq<SpotifyCall>): seq<SpotifyCall>
  {
    if |trace| == 0 then []
    else TrackCalls(trace[..|trace| - 1]) + (if Last(trace).TracksRequest? then [Last(trace)] else [])
  }

  /** Reference definition: the requests of the track loops of the listing
      entries `objs`, entry after entry; an entry without an id has none. */
  function EntryRequests(api: SpotifyApi, objs: seq<PlaylistObject>): seq<SpotifyCall>
  {
    if |objs| == 0 then []
    else
      var p := objs[0];
      (if HasId(p) then TrackRequests(p.id.value, PlaylistTracks(api, p.id.value).offsets) else [])
      + EntryRequests(api, objs[1..])
  }

  /** Reading this track page raises an exception that is not a catalog API
      error: an unexpected error, or an item that cannot be read. */
  ghost predicate PageRaises(r: Response<PlaylistItem>)
  {
    r.UnexpectedError? || (r.Page? && !NoCrash(r.items))
  }

  /** The request's answer raises an exception that ends the fetch: an error
      on the playlist listing, or a track page that raises. */
  ghost predicate Fails(api: SpotifyApi, c: SpotifyCall)
  {
    match c
    case PlaylistsRequest(_, o) => !Fetch(api.playlistPages, o).Page?
    case TracksRequest(id, _, o) => PageRaises(Fetch(TrackEndpoint(api, id), o))
  }

  /** No request of the trace fails. */
  ghost predicate NoneFails(api: SpotifyApi, trace: seq<SpotifyCall>)
  {
    forall k :: 0 <= k < |trace| ==> !Fails(api, trace[k])
  }

  /** The track loop of this listing entry raises, which ends the fetch. */
  ghost predicate Raises(api: SpotifyApi, p: PlaylistObject)
  {
    HasId(p) && PlaylistTracks(api, p.id.value).Aborted?
  }

  /** The listing entries the fetch gets to: all of them, up to and
      including the first whose track loop raises. */
  ghost function Handled(api: SpotifyApi, objs: seq<PlaylistObject>): seq<PlaylistObject>
  {
    if |objs| == 0 then []
    else if Raises(api, objs[0]) then [objs[0]]
    else [objs[0]] + Handled(api, objs[1..])
  }

  /** The listing entry is kept: it has an id and its track loop completed
      with at least one track. */
  ghost predicate Kept(api: SpotifyApi, p: PlaylistObject)
  {
    HasId(p) && PlaylistTracks(api, p.id.value).Completed? && |PlaylistTracks(api, p.id.value).tracks| > 0
  }

  /** Reference definition: the records of the kept entries, in listing order. */
  ghost function Selected(api: SpotifyApi, objs: seq<PlaylistObject>): seq<Playlist>
  {
    if |objs| == 0 then []
    else
      var p := objs[0];
      (if Kept(api, p) then [Playlist(PlaylistName(p), p.id.value, PlaylistTracks(api, p.id.value).tracks)] else [])
      + Selected(api, objs[1..])
  }

  // ---------------------------------------------------------------------
  // Paging of one playlist's tracks

  lemma {:induction false} TracksFromPaging(e: Endpoint<PlaylistItem>, offset: nat, tracks: seq<Track>, offsets: seq<nat>)
    requires offset == |offsets| * TracksLimit
    requires forall k :: 0 <= k < |offsets| ==>
      offsets[k] == k * TracksLimit && Continues(Fetch(e, offsets[k])) && !PageRaises(Fetch(e, offsets[k]))
    ensures var r := TracksFrom(e, offset, tracks, offsets);
      && FollowsPagingRule(e, TracksLimit, r.offsets)
      && |r.offsets| > |offsets|
      && (forall k :: 0 <= k < |r.offsets| - 1 ==> !PageRaises(Fetch(e, r.offsets[k])))
      && (r.Completed? ==> !Continues(Fetch(e, Last(r.offsets))))
      && (r.Aborted? <==> PageRaises(Fetch(e, Last(r.offsets))))
    decreases |Pending(e, offset)|
  {
    var requested := offsets + [offset];
    var response := Fetch(e, offset);
    if response.Page? && |response.items| > 0 {
      ExtractIntoCollects(response.items, tracks);
      var collected := ExtractInto(response.items, tracks);
      if collected.Some? && response.hasNext {
        PendingShrinks(e, offset, TracksLimit);
        TracksFromPaging(e, offset + TracksLimit, collected.value, requested);
      }
    }
  }

  /** Paging of a playlist's tracks: requests start at offset 0 and advance
      by exactly 100, and only after a page that had items and a next page;
      a first page without a next page means exactly one request; a loop
      that completes stopped at a page with no items, no next page or an API
      error; a page that raises ends the loop, and the loop aborts exactly
      when its last page raised. */
  lemma PlaylistTracksPaging(api: SpotifyApi, id: string)
    ensures var e, r := TrackEndpoint(api, id), PlaylistTracks(api, id);
      && FollowsPagingRule(e, TracksLimit, r.offsets)
      && r.offsets[0] == 0
      && (!Continues(Fetch(e, 0)) ==> |r.offsets| == 1)
      && (forall k :: 0 <= k < |r.offsets| - 1 ==> !Fails(api, TracksRequest(id, TracksLimit, r.offsets[k])))
      && (r.Completed? ==> !Continues(Fetch(e, Last(r.offsets))))
      && (r.Aborted? <==> Fails(api, TracksRequest(id, TracksLimit, Last(r.offsets))))
  {
    TracksFromPaging(TrackEndpoint(api, id), 0, [], []);
  }

  /** What a track loop from `offset` collects, given `tracks` so far. */
  ghost predicate CollectsFrom(e: Endpoint<PlaylistItem>, offset: nat, tracks: seq<Track>, offsets: seq<nat>)
  {
    var r := TracksFrom(e, offset, tracks, offsets);
    && |r.offsets| > 0
    && (r.Completed? && Fetch(e, Last(r.offsets)).ApiError? ==> r.tracks == [])
    && (r.Completed? && !Fetch(e, Last(r.offsets)).ApiError? ==>
          r.tracks == tracks + ExtractAll(PagedItems(e, TracksLimit, offset)))
  }

  /** The track loop stops at the page at `offset`. */
  lemma StoppedCollects(e: Endpoint<PlaylistItem>, offset: nat, tracks: seq<Track>, offsets: seq<nat>)
    requires var response := Fetch(e, offset);
      !Continues(response) || ExtractInto(response.items, tracks).None?
    ensures CollectsFrom(e, offset, tracks, offsets)
  {
    var response := Fetch(e, offset);
    if response.Page? {
      var items := response.items;
      if |items| == 0 {
        assert tracks + [] == tracks;
      } else {
        ExtractIntoCollects(items, tracks);
      }
    }
  }

  /** The track loop goes on past the page at `offset`. */
  lemma ContinuedCollects(e: Endpoint<PlaylistItem>, offset: nat, tracks: seq<Track>, offsets: seq<nat>)
    requires Continues(Fetch(e, offset)) && ExtractInto(Fetch(e, offset).items, tracks).Some?
    requires CollectsFrom(e, offset + TracksLimit, ExtractInto(Fetch(e, offset).items, tracks).value, offsets + [offset])
    ensures CollectsFrom(e, offset, tracks, offsets)
  {
    var items := Fetch(e, offset).items;
    var collected := ExtractInto(items, tracks).value;
    ExtractIntoCollects(items, tracks);
    assert TracksFrom(e, offset, tracks, offsets) == TracksFrom(e, offset + TracksLimit, collected, offsets + [offset]);
    PendingShrinks(e, offset, TracksLimit);
    var rest := PagedItems(e, TracksLimit, offset + TracksLimit);
    assert PagedItems(e, TracksLimit, offset) == items + rest;
    ExtractAllAppend(items, rest);
    assert tracks + ExtractAll(items) + ExtractAll(rest) == tracks + (ExtractAll(items) + ExtractAll(rest));
  }

  lemma {:induction false} TracksFromContents(e: Endpoint<PlaylistItem>, offset: nat, tracks: seq<Track>, offsets: seq<nat>)
    ensures CollectsFrom(e, offset, tracks, offsets)
    decreases |Pending(e, offset)|
  {
    var response := Fetch(e, offset);
    if Continues(response) && ExtractInto(response.items, tracks).Some? {
      PendingShrinks(e, offset, TracksLimit);
      TracksFromContents(e, offset + TracksLimit, ExtractInto(response.items, tracks).value, offsets + [offset]);
      ContinuedCollects(e, offset, tracks, offsets);
    } else {
      StoppedCollects(e, offset, tracks, offsets);
    }
  }

  /** The tracks of a completed track loop: none when the loop stopped on a
      catalog API error (partial tracks are discarded), and otherwise the
      records of every item on every page the paging rule reached, in order. */
  lemma PlaylistTracksContents(api: SpotifyApi, id: string)
    ensures |PlaylistTracks(api, id).offsets| > 0
    ensures var e, r := TrackEndpoint(api, id), PlaylistTracks(api, id);
      && (r.Completed? && Fetch(e, Last(r.offsets)).ApiError? ==> r.tracks == [])
      && (r.Completed? && !Fetch(e, Last(r.offsets)).ApiError? ==>
            r.tracks == ExtractAll(PagedItems(e, TracksLimit, 0)))
  {
    TracksFromContents(TrackEndpoint(api, id), 0, [], []);
  }

  // ---------------------------------------------------------------------
  // Trace bookkeeping

  lemma {:induction false} PlaylistOffsetsAppend(a: seq<SpotifyCall>, b: seq<SpotifyCall>)
    ensures PlaylistOffsets(a + b) == PlaylistOffsets(a) + PlaylistOffsets(b)
    decreases |b|
  {
    if |b| == 0 {
      assert a + b == a;
    } else {
      var b' := b[..|b| - 1];
      assert (a + b)[..|a + b| - 1] == a + b';
      PlaylistOffsetsAppend(a, b');
    }
  }

  lemma {:induction false} TrackRequestsHaveNoPlaylistOffsets(id: string, offsets: seq<nat>)
    ensures PlaylistOffsets(TrackRequests(id, offsets)) == []
    decreases |offsets|
  {
    if |offsets| > 0 {
      var o' := offsets[..|offsets| - 1];
      assert TrackRequests(id, offsets)[..|offsets| - 1] == TrackRequests(id, o');
      TrackRequestsHaveNoPlaylistOffsets(id, o');
    }
  }

  lemma NoneFailsAppend(api: SpotifyApi, a: seq<SpotifyCall>, b: seq<SpotifyCall>)
    ensures NoneFails(api, a + b) <==> NoneFails(api, a) && NoneFails(api, b)
  {
    if NoneFails(api, a) && NoneFails(api, b) {
      forall k | 0 <= k < |a + b|
        ensures !Fails(api, (a + b)[k])
      {
        if k >= |a| {
          assert (a + b)[k] == b[k - |a|];
        }
      }
    }
    if NoneFails(api, a + b) {
      assert forall k :: 0 <= k < |a| ==> a[k] == (a + b)[k];
      assert forall k :: 0 <= k < |b| ==> b[k] == (a + b)[|a| + k];
    }
  }

  /** The requests of one playlist's track loop: none but the last fails,
      and the last fails exactly when the loop aborts. */
  lemma TrackRequestsFailures(api: SpotifyApi, id: string)
    ensures var r := PlaylistTracks(api, id); var tr := TrackRequests(id, r.offsets);
      && |tr| > 0
      && NoneFails(api, tr[..|tr| - 1])
      && (r.Aborted? <==> Fails(api, Last(tr)))
  {
    var r := PlaylistTracks(api, id);
    var tr := TrackRequests(id, r.offsets);
    PlaylistTracksPaging(api, id);
    assert forall k :: 0 <= k < |tr| - 1 ==> tr[..|tr| - 1][k] == TracksRequest(id, TracksLimit, r.offsets[k]);
  }

  /** No request of a completed track loop fails. */
  lemma TrackRequestsComplete(api: SpotifyApi, id: string)
    requires PlaylistTracks(api, id).Completed?
    ensures NoneFails(api, TrackRequests(id, PlaylistTracks(api, id).offsets))
  {
    var tr := TrackRequests(id, PlaylistTracks(api, id).offsets);
    TrackRequestsFailures(api, id);
    assert tr == tr[..|tr| - 1] + [Last(tr)];
    NoneFailsAppend(api, tr[..|tr| - 1], [Last(tr)]);
  }

  /** Handling one listing entry: it adds no listing request; the fetch
      stops exactly when the entry's last request fails, and no earlier
      request of the entry fails. */
  lemma HandleEntryTrace(api: SpotifyApi, p: PlaylistObject, run: FetchRun)
    requires !run.aborted && NoneFails(api, run.trace)
    ensures var s := HandleEntry(api, p, run);
      && PlaylistOffsets(s.trace) == PlaylistOffsets(run.trace)
      && (s.aborted <==> Raises(api, p))
      && (!s.aborted ==> NoneFails(api, s.trace))
      && (s.aborted ==> |s.trace| > 0 && Fails(api, Last(s.trace)) && NoneFails(api, s.trace[..|s.trace| - 1]))
  {
    if HasId(p) {
      var id := p.id.value;
      var r := PlaylistTracks(api, id);
      var tr := TrackRequests(id, r.offsets);
      var s := HandleEntry(api, p, run);
      assert s.trace == run.trace + tr;
      TrackRequestsFailures(api, id);
      PlaylistOffsetsAppend(run.trace, tr);
      TrackRequestsHaveNoPlaylistOffsets(id, r.offsets);
      if r.Aborted? {
        assert s.trace[..|s.trace| - 1] == run.trace + tr[..|tr| - 1];
        NoneFailsAppend(api, run.trace, tr[..|tr| - 1]);
      } else {
        TrackRequestsComplete(api, id);
        NoneFailsAppend(api, run.trace, tr);
      }
    }
  }

  // ---------------------------------------------------------------------
  // Selection

  lemma {:induction false} SelectedAppend(api: SpotifyApi, a: seq<PlaylistObject>, b: seq<PlaylistObject>)
    ensures Selected(api, a + b) == Selected(api, a) + Selected(api, b)
  {
    if |a| == 0 {
      assert a + b == b;
    } else {
      assert (a + b)[1..] == a[1..] + b;
      SelectedAppend(api, a[1..], b);
    }
  }

  /** Every selected record has an id and a non-empty track list, and holds
      exactly the tracks its playlist's track loop completed with. */
  lemma {:induction false} SelectedAreFetched(api: SpotifyApi, objs: seq<PlaylistObject>)
    ensures forall p :: p in Selected(api, objs) ==>
      && p.id != ""
      && |p.tracks| > 0
      && PlaylistTracks(api, p.id).Completed?
      && PlaylistTracks(api, p.id).tracks == p.tracks
  {
    if |objs| > 0 {
      SelectedAreFetched(api, objs[1..]);
    }
  }

  /** The loop over one page of playlists makes no playlist-listing request;
      it stops exactly when a request fails, and that request is its last. */
  lemma {:induction false} ItemsFromTrace(api: SpotifyApi, items: seq<PlaylistObject>, run: FetchRun)
    requires !run.aborted && NoneFails(api, run.trace)
    ensures var r := ItemsFrom(api, items, run);
      && PlaylistOffsets(r.trace) == PlaylistOffsets(run.trace)
      && (!r.aborted ==> NoneFails(api, r.trace))
      && (r.aborted ==> |r.trace| > 0 && Fails(api, Last(r.trace)) && NoneFails(api, r.trace[..|r.trace| - 1]))
    decreases |items|
  {
    if |items| > 0 {
      var s := HandleEntry(api, items[0], run);
      HandleEntryTrace(api, items[0], run);
      if !s.aborted {
        ItemsFromTrace(api, items[1..], s);
      }
    }
  }

  /** Handling one entry appends its record exactly when it is kept, and
      stops the fetch exactly when its track loop raises. */
  lemma HandleEntrySelects(api: SpotifyApi, p: PlaylistObject, run: FetchRun)
    requires !run.aborted
    ensures var s := HandleEntry(api, p, run);
      && (s.aborted <==> Raises(api, p))
      && (s.aborted ==> s.playlists == run.playlists)
      && (!s.aborted ==> s.playlists == run.playlists + Selected(api, [p]))
  {
    assert [p][1..] == [];
    assert run.playlists + [] == run.playlists;
  }

  /** The loop over one page of playlists appends the selected records of
      the first `n` entries of the page, none of which raises: all of them
      unless it aborts, and otherwise those before the entry that raised. */
  ghost predicate SelectsItems(api: SpotifyApi, items: seq<PlaylistObject>, run: FetchRun, n: nat)
  {
    var r := ItemsFrom(api, items, run);
    && n <= |items|
    && r.playlists == run.playlists + Selected(api, items[..n])
    && (forall i :: 0 <= i < n ==> !Raises(api, items[i]))
    && (!r.aborted ==> n == |items|)
    && (r.aborted ==> n < |items| && Raises(api, items[n]))
  }

  lemma {:induction false} ItemsFromSelects(api: SpotifyApi, items: seq<PlaylistObject>, run: FetchRun) returns (n: nat)
    requires !run.aborted
    ensures SelectsItems(api, items, run, n)
    decreases |items|
  {
    if |items| == 0 {
      n := 0;
      assert run.playlists + Selected(api, items[..0]) == run.playlists;
    } else {
      var s := HandleEntry(api, items[0], run);
      HandleEntrySelects(api, items[0], run);
      if s.aborted {
        assert ItemsFrom(api, items, run) == s;
        n := 0;
        assert run.playlists + Selected(api, items[..0]) == run.playlists;
      } else {
        assert ItemsFrom(api, items, run) == ItemsFrom(api, items[1..], s);
        var m := ItemsFromSelects(api, items[1..], s);
        n := m + 1;
        assert items[..n] == [items[0]] + items[1..][..m];
        SelectedAppend(api, [items[0]], items[1..][..m]);
        assert forall i :: 1 <= i <= m ==> items[i] == items[1..][i - 1];
      }
    }
  }

  // ---------------------------------------------------------------------
  // The playlist listing

  lemma PlaylistOffsetsOfRequest(trace: seq<SpotifyCall>, limit: nat, offset: nat)
    ensures PlaylistOffsets(trace + [PlaylistsRequest(limit, offset)]) == PlaylistOffsets(trace) + [offset]
  {
    assert (trace + [PlaylistsRequest(limit, offset)])[..|trace|] == trace;
  }

  /** The listing loop from `offset` on follows the paging rule, and stops
      exactly when a request fails, that request being its last. */
  ghost predicate TraceFrom(api: SpotifyApi, offset: nat, run: FetchRun)
  {
    var r := PlaylistsFrom(api, offset, run); var os := PlaylistOffsets(r.trace);
    && FollowsPagingRule(api.playlistPages, PlaylistsLimit, os)
    && (!r.aborted ==> !Continues(Fetch(api.playlistPages, Last(os))))
    && (!r.aborted ==> NoneFails(api, r.trace))
    && (r.aborted ==> |r.trace| > 0 && Fails(api, Last(r.trace)) && NoneFails(api, r.trace[..|r.trace| - 1]))
  }

  /** What the loop expects of the requests before `offset`. */
  ghost predicate TraceSoFar(api: SpotifyApi, offset: nat, run: FetchRun)
  {
    && !run.aborted && NoneFails(api, run.trace)
    && offset == |PlaylistOffsets(run.trace)| * PlaylistsLimit
    && forall k :: 0 <= k < |PlaylistOffsets(run.trace)| ==>
         PlaylistOffsets(run.trace)[k] == k * PlaylistsLimit && Continues(Fetch(api.playlistPages, PlaylistOffsets(run.trace)[k]))
  }

  /** The listing request at `offset` raised. */
  lemma ListingErrorTrace(api: SpotifyApi, offset: nat, run: FetchRun)
    requires TraceSoFar(api, offset, run) && !Fetch(api.playlistPages, offset).Page?
    ensures TraceFrom(api, offset, run)
  {
    var requested := Requested(run, offset);
    PlaylistOffsetsOfRequest(run.trace, PlaylistsLimit, offset);
    assert PlaylistsFrom(api, offset, run) == requested.(aborted := true);
    assert requested.trace[..|requested.trace| - 1] == run.trace;
  }

  /** The listing page at `offset` is the last one the loop reads. */
  lemma LastPageTrace(api: SpotifyApi, offset: nat, run: FetchRun)
    requires TraceSoFar(api, offset, run)
    requires var response := Fetch(api.playlistPages, offset);
      && response.Page?
      && (!Continues(response) || ItemsFrom(api, response.items, Requested(run, offset)).aborted)
    ensures TraceFrom(api, offset, run)
  {
    var requested := Requested(run, offset);
    var response := Fetch(api.playlistPages, offset);
    PlaylistOffsetsOfRequest(run.trace, PlaylistsLimit, offset);
    NoneFailsAppend(api, run.trace, [PlaylistsRequest(PlaylistsLimit, offset)]);
    if |response.items| > 0 {
      ItemsFromTrace(api, response.items, requested);
      assert PlaylistsFrom(api, offset, run) == ItemsFrom(api, response.items, requested);
    } else {
      assert PlaylistsFrom(api, offset, run) == requested;
    }
  }

  /** The listing loop goes on past the page at `offset`. */
  lemma ContinuedTrace(api: SpotifyApi, offset: nat, run: FetchRun)
    requires TraceSoFar(api, offset, run)
    requires var response := Fetch(api.playlistPages, offset);
      Continues(response) && !ItemsFrom(api, response.items, Requested(run, offset)).aborted
    ensures var after := ItemsFrom(api, Fetch(api.playlistPages, offset).items, Requested(run, offset));
      TraceSoFar(api, offset + PlaylistsLimit, after)
    ensures var after := ItemsFrom(api, Fetch(api.playlistPages, offset).items, Requested(run, offset));
      PlaylistsFrom(api, offset, run) == PlaylistsFrom(api, offset + PlaylistsLimit, after)
  {
    var requested := Requested(run, offset);
    PlaylistOffsetsOfRequest(run.trace, PlaylistsLimit, offset);
    NoneFailsAppend(api, run.trace, [PlaylistsRequest(PlaylistsLimit, offset)]);
    ItemsFromTrace(api, Fetch(api.playlistPages, offset).items, requested);
  }

  lemma {:induction false} PlaylistsFromTrace(api: SpotifyApi, offset: nat, run: FetchRun)
    requires TraceSoFar(api, offset, run)
    ensures TraceFrom(api, offset, run)
    decreases |Pending(api.playlistPages, offset)|
  {
    var response := Fetch(api.playlistPages, offset);
    if Continues(response) && !ItemsFrom(api, response.items, Requested(run, offset)).aborted {
      ContinuedTrace(api, offset, run);
      PendingShrinks(api.playlistPages, offset, PlaylistsLimit);
      PlaylistsFromTrace(api, offset + PlaylistsLimit, ItemsFrom(api, response.items, Requested(run, offset)));
    } else if !response.Page? {
      ListingErrorTrace(api, offset, run);
    } else {
      LastPageTrace(api, offset, run);
    }
  }

  /** The records selected from a prefix of two pages joined. */
  lemma SelectedAcrossPages(api: SpotifyApi, items: seq<PlaylistObject>, rest: seq<PlaylistObject>, m: nat)
    requires m <= |rest|
    ensures (items + rest)[..|items| + m] == items + rest[..m]
    ensures forall i :: |items| <= i < |items| + |rest| ==> (items + rest)[i] == rest[i - |items|]
    ensures Selected(api, (items + rest)[..|items| + m]) == Selected(api, items) + Selected(api, rest[..m])
  {
    assert (items + rest)[..|items| + m] == items + rest[..m];
    SelectedAppend(api, items, rest[..m]);
  }

  /** The trace ends with a playlist-listing request whose answer raised. */
  ghost predicate ListingFailed(api: SpotifyApi, trace: seq<SpotifyCall>)
  {
    |trace| > 0 && Last(trace).PlaylistsRequest? && !Fetch(api.playlistPages, Last(trace).offset).Page?
  }

  /** The selection claim of `PlaylistsFromSelects` for a listing stopped
      at `offset`, within the page that starts there. */
  lemma SelectsWithinPage(api: SpotifyApi, offset: nat, run: FetchRun, r: FetchRun, n: nat)
    requires var response := Fetch(api.playlistPages, offset);
      && response.Page? && n <= |response.items|
      && r.playlists == run.playlists + Selected(api, response.items[..n])
      && (forall i :: 0 <= i < n ==> !Raises(api, response.items[i]))
      && (!r.aborted ==> n == |response.items| && !Continues(response))
      && (r.aborted ==> n < |response.items| && Raises(api, response.items[n]))
    ensures var src := PagedItems(api.playlistPages, PlaylistsLimit, offset);
      && n <= |src|
      && r.playlists == run.playlists + Selected(api, src[..n])
      && (forall i :: 0 <= i < n ==> !Raises(api, src[i]))
      && (!r.aborted ==> n == |src|)
      && (r.aborted ==> n < |src| && Raises(api, src[n]))
  {
    var response := Fetch(api.playlistPages, offset);
    var src := PagedItems(api.playlistPages, PlaylistsLimit, offset);
    if Continues(response) {
      PendingShrinks(api.playlistPages, offset, PlaylistsLimit);
      assert src == response.items + PagedItems(api.playlistPages, PlaylistsLimit, offset + PlaylistsLimit);
    } else {
      assert src == response.items;
    }
    assert src[..n] == response.items[..n];
    assert forall i :: 0 <= i < |response.items| ==> src[i] == response.items[i];
  }

  /** What the loop over the listing selects from `offset` on: the kept
      entries of the first `n` listed entries, none of which raises; all of
      them unless it aborts, and otherwise the entry at `n` raised or, past
      the last listed entry, a listing request failed. */
  ghost predicate SelectsFrom(api: SpotifyApi, offset: nat, run: FetchRun, n: nat)
  {
    var r, src := PlaylistsFrom(api, offset, run), PagedItems(api.playlistPages, PlaylistsLimit, offset);
    && n <= |src|
    && r.playlists == run.playlists + Selected(api, src[..n])
    && (forall i :: 0 <= i < n ==> !Raises(api, src[i]))
    && (!r.aborted ==> n == |src|)
    && (r.aborted && n < |src| ==> Raises(api, src[n]))
    && (r.aborted && n == |src| ==> ListingFailed(api, r.trace))
  }

  /** The listing loop stops at the page at `offset`. */
  lemma StoppedSelects(api: SpotifyApi, offset: nat, run: FetchRun) returns (n: nat)
    requires !run.aborted
    requires var response := Fetch(api.playlistPages, offset);
      !Continues(response) || ItemsFrom(api, response.items, Requested(run, offset)).aborted
    ensures SelectsFrom(api, offset, run, n)
  {
    var r := PlaylistsFrom(api, offset, run);
    var requested := Requested(run, offset);
    var response := Fetch(api.playlistPages, offset);
    if !response.Page? {
      n := 0;
      assert PagedItems(api.playlistPages, PlaylistsLimit, offset) == [];
      assert run.playlists + [] == run.playlists;
      assert Last(r.trace) == PlaylistsRequest(PlaylistsLimit, offset);
    } else if |response.items| == 0 {
      n := 0;
      assert r == requested;
      assert run.playlists + Selected(api, response.items[..0]) == run.playlists;
      SelectsWithinPage(api, offset, run, r, 0);
    } else {
      var items := response.items;
      var after := ItemsFrom(api, items, requested);
      n := ItemsFromSelects(api, items, requested);
      assert r == after;
      if !after.aborted {
        assert items[..n] == items;
      }
      SelectsWithinPage(api, offset, run, r, n);
    }
  }

  /** The listing loop goes on past the page at `offset`. */
  lemma ContinuedSelects(api: SpotifyApi, offset: nat, run: FetchRun, m: nat) returns (n: nat)
    requires !run.aborted
    requires var response := Fetch(api.playlistPages, offset);
      Continues(response) && !ItemsFrom(api, response.items, Requested(run, offset)).aborted
    requires var after := ItemsFrom(api, Fetch(api.playlistPages, offset).items, Requested(run, offset));
      SelectsFrom(api, offset + PlaylistsLimit, after, m)
    ensures SelectsFrom(api, offset, run, n)
  {
    var items := Fetch(api.playlistPages, offset).items;
    var after := ItemsFrom(api, items, Requested(run, offset));
    var k := ItemsFromSelects(api, items, Requested(run, offset));
    assert items[..k] == items;
    assert PlaylistsFrom(api, offset, run) == PlaylistsFrom(api, offset + PlaylistsLimit, after);
    PendingShrinks(api.playlistPages, offset, PlaylistsLimit);
    var rest := PagedItems(api.playlistPages, PlaylistsLimit, offset + PlaylistsLimit);
    n := |items| + m;
    assert PagedItems(api.playlistPages, PlaylistsLimit, offset) == items + rest;
    SelectedAcrossPages(api, items, rest, m);
  }

  lemma {:induction false} PlaylistsFromSelects(api: SpotifyApi, offset: nat, run: FetchRun) returns (n: nat)
    requires !run.aborted
    ensures SelectsFrom(api, offset, run, n)
    decreases |Pending(api.playlistPages, offset)|
  {
    var response := Fetch(api.playlistPages, offset);
    if Continues(response) && !ItemsFrom(api, response.items, Requested(run, offset)).aborted {
      PendingShrinks(api.playlistPages, offset, PlaylistsLimit);
      var m := PlaylistsFromSelects(api, offset + PlaylistsLimit, ItemsFrom(api, response.items, Requested(run, offset)));
      n := ContinuedSelects(api, offset, run, m);
    } else {
      n := StoppedSelects(api, offset, run);
    }
  }

  /** Paging of the playlist listing: requests start at offset 0 and advance
      by exactly 50, and only after a page that had items and a next page;
      a first page without a next page means exactly one listing request; a
      fetch that ends normally stopped at a page with no items or no next
      page. No request but the last fails, and the fetch is stopped by an
      exception exactly when its last request failed. */
  lemma FetchPaging(api: SpotifyApi)
    ensures |FetchAll(api).trace| > 0
    ensures var r := FetchAll(api); var os := PlaylistOffsets(r.trace);
      && FollowsPagingRule(api.playlistPages, PlaylistsLimit, os)
      && os[0] == 0
      && (!Continues(Fetch(api.playlistPages, 0)) ==> |os| == 1)
      && (!r.aborted ==> !Continues(Fetch(api.playlistPages, Last(os))))
      && (forall k :: 0 <= k < |r.trace| - 1 ==> !Fails(api, r.trace[k]))
      && (r.aborted <==> Fails(api, Last(r.trace)))
  {
    var r := FetchAll(api);
    PlaylistsFromTrace(api, 0, FetchRun([], [], false));
    if r.aborted {
      assert forall k :: 0 <= k < |r.trace| - 1 ==> r.trace[k] == r.trace[..|r.trace| - 1][k];
    }
  }

  // ---------------------------------------------------------------------
  // The track requests of the whole fetch

  lemma {:induction false} TrackCallsAppend(a: seq<SpotifyCall>, b: seq<SpotifyCall>)
    ensures TrackCalls(a + b) == TrackCalls(a) + TrackCalls(b)
    decreases |b|
  {
    if |b| == 0 {
      assert a + b == a;
    } else {
      var b' := b[..|b| - 1];
      assert (a + b)[..|a + b| - 1] == a + b';
      TrackCallsAppend(a, b');
    }
  }

  lemma {:induction false} TrackRequestsAreTrackCalls(id: string, offsets: seq<nat>)
    ensures TrackCalls(TrackRequests(id, offsets)) == TrackRequests(id, offsets)
    decreases |offsets|
  {
    if |offsets| > 0 {
      var t, o' := TrackRequests(id, offsets), offsets[..|offsets| - 1];
      assert t[..|t| - 1] == TrackRequests(id, o');
      assert Last(t).TracksRequest?;
      TrackRequestsAreTrackCalls(id, o');
      assert t == t[..|t| - 1] + [Last(t)];
    }
  }

  /** A listing request adds no track request. */
  lemma RequestedTrackCalls(run: FetchRun, offset: nat)
    ensures TrackCalls(Requested(run, offset).trace) == TrackCalls(run.trace)
  {
    var t := Requested(run, offset).trace;
    assert t[..|t| - 1] == run.trace;
    assert TrackCalls(run.trace) + [] == TrackCalls(run.trace);
  }

  lemma {:induction false} EntryRequestsAppend(api: SpotifyApi, a: seq<PlaylistObject>, b: seq<PlaylistObject>)
    ensures EntryRequests(api, a + b) == EntryRequests(api, a) + EntryRequests(api, b)
    decreases |a|
  {
    if |a| == 0 {
      assert a + b == b;
    } else {
      assert (a + b)[1..] == a[1..] + b;
      EntryRequestsAppend(api, a[1..], b);
    }
  }

  /** Handling one entry adds the requests of its track loop, and stops the
      fetch exactly when that loop raises. */
  lemma HandleEntryRequests(api: SpotifyApi, p: PlaylistObject, run: FetchRun)
    ensures TrackCalls(HandleEntry(api, p, run).trace) == TrackCalls(run.trace) + EntryRequests(api, [p])
    ensures !run.aborted ==> (HandleEntry(api, p, run).aborted <==> Raises(api, p))
  {
    assert [p][1..] == [];
    if HasId(p) {
      var id := p.id.value;
      var tr := TrackRequests(id, PlaylistTracks(api, id).offsets);
      assert HandleEntry(api, p, run).trace == run.trace + tr;
      assert EntryRequests(api, [p]) == tr + [];
      TrackCallsAppend(run.trace, tr);
      TrackRequestsAreTrackCalls(id, PlaylistTracks(api, id).offsets);
    } else {
      assert HandleEntry(api, p, run) == run;
      assert TrackCalls(run.trace) + [] == TrackCalls(run.trace);
    }
  }

  /** The loop over one page of playlists adds the requests of the track
      loops of the entries it gets to. */
  ghost predicate RequestsItems(api: SpotifyApi, items: seq<PlaylistObject>, run: FetchRun)
  {
    TrackCalls(ItemsFrom(api, items, run).trace) == TrackCalls(run.trace) + EntryRequests(api, Handled(api, items))
  }

  lemma HandledRequestsStep(api: SpotifyApi, items: seq<PlaylistObject>)
    requires |items| > 0 && !Raises(api, items[0])
    ensures EntryRequests(api, Handled(api, items))
      == EntryRequests(api, [items[0]]) + EntryRequests(api, Handled(api, items[1..]))
  {
    assert Handled(api, items) == [items[0]] + Handled(api, items[1..]);
    EntryRequestsAppend(api, [items[0]], Handled(api, items[1..]));
  }

  lemma ItemsFromGoesOn(api: SpotifyApi, items: seq<PlaylistObject>, run: FetchRun)
    requires |items| > 0 && !HandleEntry(api, items[0], run).aborted
    ensures ItemsFrom(api, items, run) == ItemsFrom(api, items[1..], HandleEntry(api, items[0], run))
  {
  }

  /** The loop over one page goes on past its first entry. */
  lemma ContinuedItemsRequests(api: SpotifyApi, items: seq<PlaylistObject>, before: seq<SpotifyCall>, now: seq<SpotifyCall>, after: seq<SpotifyCall>)
    requires |items| > 0 && !Raises(api, items[0])
    requires now == before + EntryRequests(api, [items[0]])
    requires after == now + EntryRequests(api, Handled(api, items[1..]))
    ensures after == before + EntryRequests(api, Handled(api, items))
  {
    var first, rest := EntryRequests(api, [items[0]]), EntryRequests(api, Handled(api, items[1..]));
    HandledRequestsStep(api, items);
    assert before + first + rest == before + (first + rest);
  }

  lemma {:induction false} ItemsFromRequests(api: SpotifyApi, items: seq<PlaylistObject>, run: FetchRun)
    requires !run.aborted
    ensures RequestsItems(api, items, run)
    decreases |items|
  {
    if |items| == 0 {
      assert TrackCalls(run.trace) + [] == TrackCalls(run.trace);
    } else {
      var s := HandleEntry(api, items[0], run);
      HandleEntryRequests(api, items[0], run);
      if s.aborted {
        assert ItemsFrom(api, items, run) == s;
        assert Handled(api, items) == [items[0]];
      } else {
        ItemsFromRequests(api, items[1..], s);
        ContinuedItemsRequests(api, items, TrackCalls(run.trace), TrackCalls(s.trace), TrackCalls(ItemsFrom(api, items[1..], s).trace));
        ItemsFromGoesOn(api, items, run);
      }
    }
  }

  lemma {:induction false} HandledNone(api: SpotifyApi, a: seq<PlaylistObject>, b: seq<PlaylistObject>)
    requires forall i :: 0 <= i < |a| ==> !Raises(api, a[i])
    ensures Handled(api, a + b) == a + Handled(api, b)
    decreases |a|
  {
    if |a| == 0 {
      assert a + b == b;
    } else {
      assert (a + b)[1..] == a[1..] + b;
      assert forall i :: 0 <= i < |a| - 1 ==> a[1..][i] == a[i + 1];
      HandledNone(api, a[1..], b);
      assert a == [a[0]] + a[1..];
    }
  }

  lemma {:induction false} HandledStops(api: SpotifyApi, a: seq<PlaylistObject>, b: seq<PlaylistObject>, i: nat)
    requires i < |a| && Raises(api, a[i])
    ensures Handled(api, a + b) == Handled(api, a)
    decreases i
  {
    assert (a + b)[0] == a[0];
    if i > 0 && !Raises(api, a[0]) {
      assert (a + b)[1..] == a[1..] + b;
      HandledStops(api, a[1..], b, i - 1);
    }
  }

  /** The entries the fetch gets to are a prefix of the listing: up to the
      first entry that raises, that one included. */
  lemma {:induction false} HandledPrefix(api: SpotifyApi, objs: seq<PlaylistObject>, n: nat)
    requires n <= |objs|
    requires forall i :: 0 <= i < n ==> !Raises(api, objs[i])
    requires n < |objs| ==> Raises(api, objs[n])
    ensures Handled(api, objs) == objs[..if n < |objs| then n + 1 else n]
    decreases n
  {
    if n == 0 {
      if |objs| > 0 {
        assert objs[..1] == [objs[0]];
      }
    } else {
      var rest := objs[1..];
      assert forall i :: 0 <= i < |rest| ==> rest[i] == objs[i + 1];
      HandledPrefix(api, rest, n - 1);
      var m := if n < |objs| then n + 1 else n;
      assert objs[..m] == [objs[0]] + rest[..m - 1];
    }
  }

  /** What the listing loop from `offset` requests of the track listings:
      the track loops of the listed entries it gets to. */
  ghost predicate RequestsFrom(api: SpotifyApi, offset: nat, run: FetchRun)
  {
    TrackCalls(PlaylistsFrom(api, offset, run).trace)
      == TrackCalls(run.trace) + EntryRequests(api, Handled(api, PagedItems(api.playlistPages, PlaylistsLimit, offset)))
  }

  /** The listing loop stops at the page at `offset`. */
  lemma StoppedRequests(api: SpotifyApi, offset: nat, run: FetchRun)
    requires !run.aborted
    requires var response := Fetch(api.playlistPages, offset);
      !Continues(response) || ItemsFrom(api, response.items, Requested(run, offset)).aborted
    ensures RequestsFrom(api, offset, run)
  {
    var requested := Requested(run, offset);
    var response := Fetch(api.playlistPages, offset);
    var src := PagedItems(api.playlistPages, PlaylistsLimit, offset);
    RequestedTrackCalls(run, offset);
    if !response.Page? || |response.items| == 0 {
      assert src == [];
      assert TrackCalls(run.trace) + [] == TrackCalls(run.trace);
    } else {
      var items := response.items;
      assert PlaylistsFrom(api, offset, run) == ItemsFrom(api, items, requested);
      ItemsFromRequests(api, items, requested);
      if Continues(response) {
        var n := ItemsFromSelects(api, items, requested);
        PendingShrinks(api.playlistPages, offset, PlaylistsLimit);
        var rest := PagedItems(api.playlistPages, PlaylistsLimit, offset + PlaylistsLimit);
        assert src == items + rest;
        HandledStops(api, items, rest, n);
      } else {
        assert src == items;
      }
    }
  }

  /** The listing loop goes on past the page at `offset`. */
  lemma ContinuedRequests(api: SpotifyApi, offset: nat, run: FetchRun)
    requires !run.aborted
    requires var response := Fetch(api.playlistPages, offset);
      Continues(response) && !ItemsFrom(api, response.items, Requested(run, offset)).aborted
    requires RequestsFrom(api, offset + PlaylistsLimit, ItemsFrom(api, Fetch(api.playlistPages, offset).items, Requested(run, offset)))
    ensures RequestsFrom(api, offset, run)
  {
    var items := Fetch(api.playlistPages, offset).items;
    var requested := Requested(run, offset);
    var after := ItemsFrom(api, items, requested);
    assert PlaylistsFrom(api, offset, run) == PlaylistsFrom(api, offset + PlaylistsLimit, after);
    RequestedTrackCalls(run, offset);
    ItemsFromRequests(api, items, requested);
    var k := ItemsFromSelects(api, items, requested);
    PendingShrinks(api.playlistPages, offset, PlaylistsLimit);
    var rest := PagedItems(api.playlistPages, PlaylistsLimit, offset + PlaylistsLimit);
    assert PagedItems(api.playlistPages, PlaylistsLimit, offset) == items + rest;
    HandledNone(api, items, rest);
    HandledNone(api, items, []);
    assert items + [] == items;
    EntryRequestsAppend(api, items, Handled(api, rest));
    assert TrackCalls(run.trace) + EntryRequests(api, items) + EntryRequests(api, Handled(api, rest))
      == TrackCalls(run.trace) + (EntryRequests(api, items) + EntryRequests(api, Handled(api, rest)));
  }

  lemma {:induction false} PlaylistsFromRequests(api: SpotifyApi, offset: nat, run: FetchRun)
    requires !run.aborted
    ensures RequestsFrom(api, offset, run)
    decreases |Pending(api.playlistPages, offset)|
  {
    var response := Fetch(api.playlistPages, offset);
    if Continues(response) && !ItemsFrom(api, response.items, Requested(run, offset)).aborted {
      PendingShrinks(api.playlistPages, offset, PlaylistsLimit);
      PlaylistsFromRequests(api, offset + PlaylistsLimit, ItemsFrom(api, response.items, Requested(run, offset)));
      ContinuedRequests(api, offset, run);
    } else {
      StoppedRequests(api, offset, run);
    }
  }

  /** The fetch returns the kept entries of the playlist listing in listing
      order: all of them when it ends normally; when an exception stops it,
      those of the first `n` entries, where the entry at `n` is the one whose
      track loop raised, or, when `n` is past the last listed entry, the
      last listing request failed. No entry before `n` raised. Its track
      requests are those of the track loops of the first `n` entries, and
      of the entry at `n` when that one raised, in listing order. */
  lemma FetchKeepsListingOrder(api: SpotifyApi) returns (n: nat)
    ensures var r, src := FetchAll(api), PagedItems(api.playlistPages, PlaylistsLimit, 0);
      && n <= |src|
      && r.playlists == Selected(api, src[..n])
      && (forall i :: 0 <= i < n ==> !Raises(api, src[i]))
      && (!r.aborted ==> n == |src|)
      && (r.aborted && n < |src| ==> Raises(api, src[n]))
      && (r.aborted && n == |src| ==>
            |r.trace| > 0 && Last(r.trace).PlaylistsRequest? && !Fetch(api.playlistPages, Last(r.trace).offset).Page?)
      && TrackCalls(r.trace) == EntryRequests(api, src[..if n < |src| then n + 1 else n])
  {
    var src := PagedItems(api.playlistPages, PlaylistsLimit, 0);
    n := PlaylistsFromSelects(api, 0, FetchRun([], [], false));
    assert [] + Selected(api, src[..n]) == Selected(api, src[..n]);
    PlaylistsFromRequests(api, 0, FetchRun([], [], false));
    HandledPrefix(api, src, n);
    assert TrackCalls([]) + EntryRequests(api, Handled(api, src)) == EntryRequests(api, Handled(api, src));
  }

  /** Every returned playlist has an id and at least one track, and holds
      exactly the tracks its own track loop collected. */
  lemma FetchReturnsOnlyFetchedPlaylists(api: SpotifyApi)
    ensures forall p :: p in FetchAll(api).playlists ==>
      && p.id != ""
      && |p.tracks| > 0
      && PlaylistTracks(api, p.id).Completed?
      && PlaylistTracks(api, p.id).tracks == p.tracks
  {
    var r, src := FetchAll(api), PagedItems(api.playlistPages, PlaylistsLimit, 0);
    var n := FetchKeepsListingOrder(api);
    SelectedAreFetched(api, src[..n]);
  }

  /** A playlist one of whose track pages answered with a catalog API error
      is dropped entirely: no returned playlist has its id. */
  lemma TrackApiErrorDropsPlaylist(api: SpotifyApi, id: string)
    requires var r := PlaylistTracks(api, id);
      exists k :: 0 <= k < |r.offsets| && Fetch(TrackEndpoint(api, id), r.offsets[k]).ApiError?
    ensures forall p :: p in FetchAll(api).playlists ==> p.id != id
  {
    var e, r := TrackEndpoint(api, id), PlaylistTracks(api, id);
    var k :| 0 <= k < |r.offsets| && Fetch(e, r.offsets[k]).ApiError?;
    PlaylistTracksPaging(api, id);
    PlaylistTracksContents(api, id);
    assert k == |r.offsets| - 1;
    FetchReturnsOnlyFetchedPlaylists(api);
  }
}
