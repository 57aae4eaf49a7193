# Spotify to YouTube Music playlist transfer, modelled in Dafny

This project models the two loops at the core of the playlist migration tool
(`spotify_to_ytmusic/transfer/playlist_transfer.py`):

- **The fetch** (`fetch_spotify_playlists`). It pages through the current
  user's Spotify playlists, 50 per request, and through each playlist's
  tracks, 100 per request. From every track item it extracts the track
  name, the first artist's name and the album name. It keeps the playlists
  that have an id and at least one track.
- **The transfer** (`transfer_playlists_to_ytmusic`). For each loaded
  playlist it does the following, in order:
  - creates a YouTube Music playlist with a description naming its origin;
  - searches each track among songs, and among videos only when no song
    matched;
  - queues each matched media identifier once;
  - adds the queue in one call.

Both remote catalogs are parameters:

- **Spotify.** Every listing endpoint is a finite map from offset to
  response. A response is a page, a catalog API error
  (`SpotifyException`) or any other exception. An offset the map does not
  hold answers with an empty page. Because the map is finite, every listing
  ends, and so do the `while True` loops.
- **YouTube Music.** Playlist creation and search are functions from their
  arguments to a response or a failure.

Every run records the calls it makes, with their arguments, in a trace.

JSON objects are modelled field by field with `Field<T> = Missing | Null |
Present(v)`. Python's `dict.get(key, default)` falls back to the default
only when the key is absent, and gives `None` for `null`.

The modules are:

- `Json`: fields and truthiness.
- `SpotifyData`: Spotify objects and track extraction.
- `Paging`: offset pagination.
- `Fetcher`: the fetch loops as methods, and the functions that specify
  them.
- `FetcherProperties`: lemmas about the fetch.
- `YtMusic`: the destination catalog, search-result selection and the
  duplicate-free queue.
- `Transfer`: the transfer loops and their specification.
- `TransferProperties`: lemmas about the transfer.

Each method is proved equal to a recursive specification function. The
source's promises are proved as lemmas about those functions.

## Model

| member | source | states |
|---|---|---|
| SpotifyData.ExtractTrack | spotify_to_ytmusic/transfer/playlist_transfer.py:83-102 | An item whose `track` is missing, `null` or an empty object is skipped. Reading the album or first artist of a track where that value is `null` raises. Otherwise the record holds the track name, the first artist's name and the album name. A missing key gives the default: 'Unknown Track', 'Unknown Artist' or 'Unknown Album'. A missing, `null` or empty artists list also gives 'Unknown Artist'. A `null` name gives `None`. |
| SpotifyData.ExtractIntoCollects | spotify_to_ytmusic/transfer/playlist_transfer.py:83-102 | Extracting a page succeeds exactly when no item raises. It then appends, in item order, the records of the items that are not skipped. |
| Fetcher.FetchPlaylistTracks | spotify_to_ytmusic/transfer/playlist_transfer.py:55-110 | The track loop of one playlist gives exactly the outcome that the track-paging specification defines: the tracks collected or an abort, and the offsets requested. |
| Fetcher.FetchSpotifyPlaylists | spotify_to_ytmusic/transfer/playlist_transfer.py:14-140 | The fetch returns exactly the playlists, and makes exactly the requests, of the fetch specification. This includes the runs cut short by an exception, which return what was collected before it. |
| FetcherProperties.PlaylistTracksPaging | spotify_to_ytmusic/transfer/playlist_transfer.py:55-110 | Track requests start at offset 0 and advance by exactly 100, and only after a page that had items and a next page. A first page without a next page means exactly one request. A completed loop stopped at a page with no items or no next page. No page but the last raises an unexpected error or holds an unreadable item. The loop aborts exactly when its last page does. |
| FetcherProperties.PlaylistTracksContents | spotify_to_ytmusic/transfer/playlist_transfer.py:71-110 | A track loop that stopped on a catalog API error discards its partial tracks. Any other completed loop holds the records of every item on every page it reached, in order. |
| FetcherProperties.ItemsFromSelects | spotify_to_ytmusic/transfer/playlist_transfer.py:46-121 | The loop over one page of playlists appends the records of the entries it keeps, in page order. It covers the whole page when no entry's track loop raises. Otherwise it stops at the first entry whose track loop raised, keeping the entries before it. |
| FetcherProperties.PlaylistsFromSelects | spotify_to_ytmusic/transfer/playlist_transfer.py:37-137 | From any offset, the listing loop appends the kept records of a prefix of the listed entries, and no entry in that prefix raised. The prefix is all of them unless an exception stops the loop. In that case the entry just after the prefix raised, or, after the last listed entry, a listing request failed. |
| FetcherProperties.FetchPaging | spotify_to_ytmusic/transfer/playlist_transfer.py:30-137 | Playlist-listing requests start at offset 0 and advance by exactly 50, and only after a page that had items and a next page. A first page without a next page means exactly one listing request. A fetch that ended normally stopped at a page with no items or no next page. No request but the last raises an exception that ends the fetch. The fetch is stopped by an exception exactly when its last request raised one. |
| FetcherProperties.FetchKeepsListingOrder | spotify_to_ytmusic/transfer/playlist_transfer.py:46-137 | The fetch returns the kept entries of the listing in listing order, all of them when no exception stops it. After an exception it returns those listed before the failure. The failure is the first entry whose track loop raised or, after the last listed entry, a listing request that failed. The track requests of the whole fetch are, in order, those of the track loops of the listed entries it got to: every entry before the failure that has an id, and the entry whose track loop raised. |
| FetcherProperties.FetchReturnsOnlyFetchedPlaylists | spotify_to_ytmusic/transfer/playlist_transfer.py:112-118 | Every returned playlist has a non-empty id and at least one track, and holds exactly the tracks that its own track loop collected. |
| FetcherProperties.TrackApiErrorDropsPlaylist | spotify_to_ytmusic/transfer/playlist_transfer.py:71-76 | A playlist one of whose track requests answered with a catalog API error is not returned, even if earlier pages had tracks. |
| YtMusic.FirstPlayable | spotify_to_ytmusic/transfer/playlist_transfer.py:275-276 | An identifier picked from a search result list is never empty. |
| YtMusic.FirstPlayableNone | spotify_to_ytmusic/transfer/playlist_transfer.py:272-278 | The selection finds nothing exactly when no hit has a non-empty media identifier and the wanted result type. |
| YtMusic.FirstPlayableAt | spotify_to_ytmusic/transfer/playlist_transfer.py:274-278 | The selection picks the first acceptable hit and no later one. |
| YtMusic.FindFirstPlayable | spotify_to_ytmusic/transfer/playlist_transfer.py:274-278 | The loop that breaks on the first match returns the selection's choice. |
| YtMusic.DedupKeepsEachOnce | spotify_to_ytmusic/transfer/playlist_transfer.py:294-298 | The queue built by skipping already-queued identifiers holds no duplicates, and holds exactly the identifiers offered to it. |
| YtMusic.DedupKeepsFirstOrder | spotify_to_ytmusic/transfer/playlist_transfer.py:294-298 | The queue keeps first-occurrence order. |
| Transfer.SearchTrack | spotify_to_ytmusic/transfer/playlist_transfer.py:254-300 | One iteration of the track loop returns the match, and makes the searches, that the matching specification defines. |
| Transfer.CollectTrackIds | spotify_to_ytmusic/transfer/playlist_transfer.py:250-307 | The track loop returns the queue and the searches of the collection specification. |
| Transfer.TransferPlaylists | spotify_to_ytmusic/transfer/playlist_transfer.py:213-333 | The transfer returns false and makes no call when nothing was loaded. Otherwise it returns true and makes exactly the calls of the transfer specification, playlist after playlist. |
| TransferProperties.TrackQuery | spotify_to_ytmusic/transfer/playlist_transfer.py:255-269 | A track with a missing, `null` or empty name or artist is never searched and matches nothing. Any other track is searched first among songs, limit 5, with its name and artist joined by one space. |
| TransferProperties.SongMatchWins | spotify_to_ytmusic/transfer/playlist_transfer.py:269-278 | When the song search returns an acceptable song, the first one is chosen and no video search is made. |
| TransferProperties.VideoSearchOnlyWithoutSong | spotify_to_ytmusic/transfer/playlist_transfer.py:280-284 | The video search is made exactly when the song search answered without an acceptable song. It comes right after the song search, and nothing else is searched for that track. |
| TransferProperties.VideoMatchAt | spotify_to_ytmusic/transfer/playlist_transfer.py:284-292 | Without an acceptable song, the first acceptable video is chosen. |
| TransferProperties.NoMatch | spotify_to_ytmusic/transfer/playlist_transfer.py:267-300 | A track stays unmatched exactly when every search that was made failed or returned no acceptable hit of its category. |
| TransferProperties.CollectQueueIsDedup | spotify_to_ytmusic/transfer/playlist_transfer.py:294-298 | The queue of one playlist is the de-duplicated sequence of the identifiers matched for its tracks, in track order. |
| TransferProperties.QueueRules | spotify_to_ytmusic/transfer/playlist_transfer.py:294-298 | The queue holds every matched identifier exactly once, holds nothing else, and is in order of first match. |
| TransferProperties.SearchesOnlyNamedTracks | spotify_to_ytmusic/transfer/playlist_transfer.py:254-284 | The track loop makes only searches with limit 5, each for the query of a track that has a name and an artist. Every such track is searched among songs. |
| TransferProperties.PlaylistCallsShape | spotify_to_ytmusic/transfer/playlist_transfer.py:229-325 | Each playlist makes exactly one create call, and it comes first. After a failed create nothing else is called. Every call after the create other than the add is a search with limit 5 for the query of one of the playlist's tracks. After a successful create, every track with a name and an artist is searched among songs. At most one add call is made. It is the last call, goes to the created playlist, and is made exactly when the queue is non-empty. It carries exactly the queue, with no duplicates. |
| TransferProperties.CreatesEachPlaylistInOrder | spotify_to_ytmusic/transfer/playlist_transfer.py:222-236 | The transfer makes one create call per loaded playlist, in load order. Each call carries the playlist's name and the description "Migrated from Spotify playlist: <name> (ID: <id>)". |

## Left out

- Saving to and loading from the JSON data file (`save_playlists_to_json`, `load_playlists_from_json`) is file I/O. The transfer takes the loaded playlists as its input, and an empty list stands for a missing or unreadable file.
- The transfer's input has the record shape the fetch produces. A hand-edited data file is not modelled: one with missing keys, which would give the 'Unnamed Spotify Playlist', 'N/A' and empty-track-list defaults, or one with `null` or non-object tracks, which would raise outside any handler.
- JSON values of unexpected types are not modelled. The models cover strings, `null` and absent keys only: numbers where strings are expected, or a non-list `artists`.
- `null` entries in the playlist listing or in a track page are not modelled.
- Logging and `time.sleep` delays are left out. They do not change what is called or returned.
- The status check on the add call's response only logs, so it is left out. An exception raised by the add call is caught and ignored, so the model only records the call.
- The `fields` and `additional_types` arguments of the track request are not modelled. The catalog's answer to them is the endpoint map.
- A listing that reports a next page forever would make the source's loops run forever. It cannot be expressed here: every endpoint answers only finitely many offsets with something other than an empty page.
- The remote catalogs are deterministic functions of their arguments. Rate limiting, and answers that vary between identical requests, are not modelled.
- A `create_playlist` that returns a non-string instead of raising is not modelled; creation either returns an id or fails.
- Authentication, the GUI and the command-line entry points are not part of this model.
