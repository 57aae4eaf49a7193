/** The transfer (`transfer_playlists_to_ytmusic`): for each loaded playlist,
    create a destination playlist, search each track (songs first, videos as
    the fallback), queue the matched identifiers without repeats, and add the
    queue in one call. */
module Transfer {
  import opened Json
  import opened SpotifyData
  import opened YtMusic

  const SongType := "song"
  const VideoType := "video"

  /** The search query of a track: its name and artist separated by one
      space; none when either is missing, `null` or empty. */
  function Query(t: Track): Option<string>
  {
    if NonEmpty(t.name) && NonEmpty(t.artist) then Some(t.name.value + " " + t.artist.value) else None
  }

  /** What matching one query yields: the chosen identifier, if any, and the
      searches made for it. */
  datatype Match = Match(found: Option<string>, calls: seq<YtCall>)

  /** Song search first; the video search only when the song search answered
      without an acceptable song. A failed search ends the track unmatched. */
  function MatchQuery(yt: YtMusicApi, query: string): Match
  {
    var songCall := Search(query, Songs, SearchLimit);
    match yt.search(query, Songs)
    case SearchFailed => Match(None, [songCall])
    case Results(songs) =>
      var song := FirstPlayable(songs, SongType);
      if song.Some? then Match(song, [songCall])
      else
        var videoCall := Search(query, Videos, SearchLimit);
        match yt.search(query, Videos)
        case SearchFailed => Match(None, [songCall, videoCall])
        case Results(videos) => Match(FirstPlayable(videos, VideoType), [songCall, videoCall])
  }

  /** What matching one track yields; a track without a query makes no call. */
  function MatchTrack(yt: YtMusicApi, t: Track): Match
  {
    match Query(t)
    case None => Match(None, [])
    case Some(q) => MatchQuery(yt, q)
  }

  /** The queue of identifiers to add and the searches made, after the
      track loop has gone through `tracks`. */
  datatype Collected = Collected(queue: seq<string>, calls: seq<YtCall>)

  function CollectIds(yt: YtMusicApi, tracks: seq<Track>): Collected
  {
    if |tracks| == 0 then Collected([], [])
    else
      var before := CollectIds(yt, tracks[..|tracks| - 1]);
      var m := MatchTrack(yt, tracks[|tracks| - 1]);
      Collected(if m.found.Some? then Enqueue(before.queue, m.found.value) else before.queue, before.calls + m.calls)
  }

  /** Reference definition: the identifiers matched for `tracks`, in track
      order, repeats included. */
  function Matched(yt: YtMusicApi, tracks: seq<Track>): seq<string>
  {
    if |tracks| == 0 then []
    else
      var m := MatchTrack(yt, tracks[|tracks| - 1]);
      Matched(yt, tracks[..|tracks| - 1]) + (if m.found.Some? then [m.found.value] else [])
  }

  /** Python's `str()` of a nullable string inside an f-string. */
  function Show(s: Option<string>): string
  {
    if s.Some? then s.value else "None"
  }

  /** The description given to a created playlist, naming its origin. */
  function Description(p: Playlist): string
  {
    "Migrated from Spotify playlist: " + Show(p.name) + " (ID: " + p.id + ")"
  }

  /** The calls made for one playlist. */
  function PlaylistCalls(yt: YtMusicApi, p: Playlist): seq<YtCall>
  {
    var create := CreatePlaylist(p.name, Description(p));
    match yt.create(p.name, Description(p))
    case CreateFailed => [create]
    case Created(id) =>
      var c := CollectIds(yt, p.tracks);
      [create] + c.calls + (if |c.queue| > 0 then [AddPlaylistItems(id, c.queue)] else [])
  }

  /** The calls made for `playlists`, one playlist after the other. */
  function TransferCalls(yt: YtMusicApi, playlists: seq<Playlist>): seq<YtCall>
  {
    if |playlists| == 0 then []
    else TransferCalls(yt, playlists[..|playlists| - 1]) + PlaylistCalls(yt, playlists[|playlists| - 1])
  }

  /** One iteration of the track loop of `transfer_playlists_to_ytmusic`:
      the identifier matched for `t`, if any, and the searches made for it. */
  method SearchTrack(yt: YtMusicApi, t: Track) returns (found: Option<string>, calls: seq<YtCall>)
    ensures Match(found, calls) == MatchTrack(yt, t)
  {
    if !NonEmpty(t.name) || !NonEmpty(t.artist) {
      return None, [];
    }
    var query := t.name.value + " " + t.artist.value;
    calls := [Search(query, Songs, SearchLimit)];
    var songs := yt.search(query, Songs);
    if songs.SearchFailed? {
      return None, calls;
    }
    found := FindFirstPlayable(songs.hits, SongType);
    if found.None? {
      calls := calls + [Search(query, Videos, SearchLimit)];
      var videos := yt.search(query, Videos);
      if videos.SearchFailed? {
        return None, calls;
      }
      found := FindFirstPlayable(videos.hits, VideoType);
    }
  }

  /** The track loop of one created playlist: the queue of identifiers to
      add and the searches made. */
  method CollectTrackIds(yt: YtMusicApi, tracks: seq<Track>) returns (queue: seq<string>, calls: seq<YtCall>)
    ensures Collected(queue, calls) == CollectIds(yt, tracks)
  {
    queue, calls := [], [];
    for j := 0 to |tracks|
      invariant Collected(queue, calls) == CollectIds(yt, tracks[..j])
    {
      assert tracks[..j + 1][..j] == tracks[..j];
      var found, searches := SearchTrack(yt, tracks[j]);
      calls := calls + searches;
      if found.Some? && found.value !in queue {
        queue := queue + [found.value];
      }
    }
    assert tracks[..|tracks|] == tracks;
  }

  /** `transfer_playlists_to_ytmusic` on the loaded playlists: whether it ran,
      and the calls it made to the destination catalog. */
  method TransferPlaylists(yt: YtMusicApi, playlists: seq<Playlist>) returns (ok: bool, trace: seq<YtCall>)
    ensures ok <==> |playlists| > 0
    ensures !ok ==> trace == []
    ensures ok ==> trace == TransferCalls(yt, playlists)
  {
    if |playlists| == 0 {
      return false, [];
    }
    trace := [];
    for i := 0 to |playlists|
      invariant trace == TransferCalls(yt, playlists[..i])
    {
      assert playlists[..i + 1][..i] == playlists[..i];
      var p := playlists[i];
      var description := Description(p);
      var calls := [CreatePlaylist(p.name, description)];
      var created := yt.create(p.name, description);
      if created.Created? {
        var queue, searches := CollectTrackIds(yt, p.tracks);
        calls := calls + searches;
        if |queue| > 0 {
          calls := calls + [AddPlaylistItems(created.playlistId, queue)];
        }
      }
      assert calls == PlaylistCalls(yt, p);
      trace := trace + calls;
    }
    assert playlists[..|playlists|] == playlists;
    return true, trace;
  }
}
