/** The playlist fetcher (`fetch_spotify_playlists`): pages through the
    current user's playlists, pages through each playlist's tracks, and keeps
    the playlists that have an id and at least one track. */
module Fetcher {
  import opened Json
  import opened SpotifyData
  import opened Paging

  const PlaylistsLimit: nat := 50
  const TracksLimit: nat := 100

  /** The source catalog as the fetcher sees it: the playlist listing, and
      the track listing of each playlist id (an unknown id lists nothing). */
  datatype SpotifyApi = SpotifyApi(
    playlistPages: Endpoint<PlaylistObject>,
    trackPages: map<string, Endpoint<PlaylistItem>>)

  function TrackEndpoint(api: SpotifyApi, id: string): Endpoint<PlaylistItem>
  {
    if id in api.trackPages then api.trackPages[id] else map[]
  }

  /** One request made to the source catalog, with its page size and offset. */
  datatype SpotifyCall =
    | PlaylistsRequest(limit: nat, offset: nat)
    | TracksRequest(playlistId: string, limit: nat, offset: nat)

  /** How one playlist's track loop ends: with the collected tracks (none
      after a catalog API error), or with an exception that stops the whole
      fetch. Either way, the offsets it requested. */
  datatype TrackRun =
    | Completed(tracks: seq<Track>, offsets: seq<nat>)
    | Aborted(offsets: seq<nat>)

  /** The track loop of one playlist, from `offset` on, having collected
      `tracks` and requested `offsets` so far. */
  function TracksFrom(e: Endpoint<PlaylistItem>, offset: nat, tracks: seq<Track>, offsets: seq<nat>): TrackRun
    decreases |Pending(e, offset)|
  {
    var requested := offsets + [offset];
    match Fetch(e, offset)
    case ApiError => Completed([], requested)
    case UnexpectedError => Aborted(requested)
    case Page(items, hasNext) =>
      if |items| == 0 then Completed(tracks, requested)
      else
        match ExtractInto(items, tracks)
        case None => Aborted(requested)
        case Some(collected) =>
          if hasNext then
            PendingShrinks(e, offset, TracksLimit);
            TracksFrom(e, offset + TracksLimit, collected, requested)
          else Completed(collected, requested)
  }

  /** The track loop of the playlist with this id. */
  function PlaylistTracks(api: SpotifyApi, id: string): TrackRun
  {
    TracksFrom(TrackEndpoint(api, id), 0, [], [])
  }

  function TrackRequests(id: string, offsets: seq<nat>): seq<SpotifyCall>
  {
    seq(|offsets|, k requires 0 <= k < |offsets| => TracksRequest(id, TracksLimit, offsets[k]))
  }

  /** The state of the fetch: the playlists appended so far, the requests
      made so far, and whether an exception has stopped it. */
  datatype FetchRun = FetchRun(playlists: seq<Playlist>, trace: seq<SpotifyCall>, aborted: bool)

  predicate HasId(p: PlaylistObject)
  {
    Truthy(p.id)
  }

  function PlaylistName(p: PlaylistObject): Option<string>
  {
    GetOr(p.name, UnknownPlaylist)
  }

  /** The state after the loop over one page of playlists has handled the
      entry `p`: skipped without an id; otherwise its track loop's requests
      recorded, and its record appended when the loop completed with tracks,
      or the fetch stopped when the loop raised. */
  function HandleEntry(api: SpotifyApi, p: PlaylistObject, run: FetchRun): FetchRun
  {
    if !HasId(p) then run
    else
      var id := p.id.value;
      var tracks := PlaylistTracks(api, id);
      var trace := run.trace + TrackRequests(id, tracks.offsets);
      match tracks
      case Aborted(_) => FetchRun(run.playlists, trace, true)
      case Completed(ts, _) =>
        FetchRun(if |ts| > 0 then run.playlists + [Playlist(PlaylistName(p), id, ts)] else run.playlists, trace, false)
  }

  /** The loop over one page of playlists, from `items` on. */
  function ItemsFrom(api: SpotifyApi, items: seq<PlaylistObject>, run: FetchRun): FetchRun
    decreases |items|
  {
    if |items| == 0 then run
    else
      var next := HandleEntry(api, items[0], run);
      if next.aborted then next else ItemsFrom(api, items[1..], next)
  }

  /** The state once the listing page at `offset` has been requested. */
  function Requested(run: FetchRun, offset: nat): FetchRun
  {
    run.(trace := run.trace + [PlaylistsRequest(PlaylistsLimit, offset)])
  }

  /** The loop over the playlist listing, from `offset` on. */
  function PlaylistsFrom(api: SpotifyApi, offset: nat, run: FetchRun): FetchRun
    decreases |Pending(api.playlistPages, offset)|
  {
    var requested := Requested(run, offset);
    var response := Fetch(api.playlistPages, offset);
    if !response.Page? then requested.(aborted := true)
    else if |response.items| == 0 then requested
    else
      var after := ItemsFrom(api, response.items, requested);
      if after.aborted || !response.hasNext then after
      else
        PendingShrinks(api.playlistPages, offset, PlaylistsLimit);
        PlaylistsFrom(api, offset + PlaylistsLimit, after)
  }

  /** A whole fetch, from offset 0 with nothing collected. */
  function FetchAll(api: SpotifyApi): FetchRun
  {
    PlaylistsFrom(api, 0, FetchRun([], [], false))
  }

  /** The track loop of one playlist in `fetch_spotify_playlists`. */
  method FetchPlaylistTracks(api: SpotifyApi, id: string) returns (run: TrackRun)
    ensures run == PlaylistTracks(api, id)
  {
    var e := TrackEndpoint(api, id);
    var tracks: seq<Track> := [];
    var offsets: seq<nat> := [];
    var offset: nat := 0;
    while true
      invariant TracksFrom(e, 0, [], []) == TracksFrom(e, offset, tracks, offsets)
      decreases |Pending(e, offset)|
    {
      var requested := offsets + [offset];
      var response := Fetch(e, offset);
      if response.ApiError? {
        // the partial tracks are discarded and the playlist is not kept
        return Completed([], requested);
      }
      if response.UnexpectedError? {
        return Aborted(requested);
      }
      var items := response.items;
      if |items| == 0 {
        return Completed(tracks, requested);
      }
      ghost var pageStart := tracks;
      for i := 0 to |items|
        invariant ExtractInto(items, pageStart) == ExtractInto(items[i..], tracks)
      {
        match ExtractTrack(items[i])
        case Skip =>
        case Crash =>
          return Aborted(requested);
        case Extracted(t) =>
          tracks := tracks + [t];
      }
      assert items[|items|..] == [];
      if !response.hasNext {
        return Completed(tracks, requested);
      }
      PendingShrinks(e, offset, TracksLimit);
      offsets := requested;
      offset := offset + TracksLimit;
    }
  }

  /** `fetch_spotify_playlists`: the playlists it returns, and the requests
      it makes on the way. */
  method FetchSpotifyPlaylists(api: SpotifyApi) returns (playlists: seq<Playlist>, trace: seq<SpotifyCall>)
    ensures playlists == FetchAll(api).playlists
    ensures trace == FetchAll(api).trace
  {
    playlists, trace := [], [];
    var offset: nat := 0;
    while true
      invariant FetchAll(api) == PlaylistsFrom(api, offset, FetchRun(playlists, trace, false))
      decreases |Pending(api.playlistPages, offset)|
    {
      trace := trace + [PlaylistsRequest(PlaylistsLimit, offset)];
      var response := Fetch(api.playlistPages, offset);
      if !response.Page? {
        return;
      }
      var items := response.items;
      if |items| == 0 {
        return;
      }
      ghost var pageStart := FetchRun(playlists, trace, false);
      for i := 0 to |items|
        invariant ItemsFrom(api, items, pageStart) == ItemsFrom(api, items[i..], FetchRun(playlists, trace, false))
      {
        var p := items[i];
        assert items[i..][1..] == items[i + 1..];
        if !HasId(p) {
          continue;
        }
        var id := p.id.value;
        var tracks := FetchPlaylistTracks(api, id);
        trace := trace + TrackRequests(id, tracks.offsets);
        if tracks.Aborted? {
          return;
        }
        if |tracks.tracks| > 0 {
          playlists := playlists + [Playlist(PlaylistName(p), id, tracks.tracks)];
        }
      }
      assert items[|items|..] == [];
      if !response.hasNext {
        return;
      }
      PendingShrinks(api.playlistPages, offset, PlaylistsLimit);
      offset := offset + PlaylistsLimit;
    }
  }
}
