/** What the transfer promises: which tracks are searched and with what
    query, which search result is chosen, what the queue of identifiers
    holds, and which calls each playlist makes. */
module TransferProperties {
  import opened Json
  import opened SpotifyData
  import opened YtMusic
  import opened Transfer

  /** The queries of the tracks that have one. */
  function Queries(tracks: seq<Track>): set<string>
  {
    set t | t in tracks && Query(t).Some? :: Query(t).value
  }

  /** The create calls of a trace, in order. */
  function Creates(calls: seq<YtCall>): seq<YtCall>
  {
    if |calls| == 0 then []
    else
      var c := calls[|calls| - 1];
      Creates(calls[..|calls| - 1]) + (if c.CreatePlaylist? then [c] else [])
  }

  // ---------------------------------------------------------------------
  // Choosing a match

  /** When the song search answers with an acceptable song, the first one
      is chosen, and no video search is made. */
  lemma SongMatchWins(yt: YtMusicApi, query: string, i: nat)
    requires yt.search(query, Songs).Results?
    requires var hits := yt.search(query, Songs).hits;
      i < |hits| && Playable(hits[i], SongType) && forall j :: 0 <= j < i ==> !Playable(hits[j], SongType)
    ensures MatchQuery(yt, query) == Match(yt.search(query, Songs).hits[i].videoId, [Search(query, Songs, SearchLimit)])
  {
    FirstPlayableAt(yt.search(query, Songs).hits, SongType, i);
  }

  /** The video search is made exactly when the song search answered with
      no acceptable song; it always comes right after the song search. */
  lemma VideoSearchOnlyWithoutSong(yt: YtMusicApi, query: string)
    ensures var m := MatchQuery(yt, query);
      && m.calls[0] == Search(query, Songs, SearchLimit)
      && (|m.calls| == 2 <==>
            yt.search(query, Songs).Results?
            && forall i :: 0 <= i < |yt.search(query, Songs).hits| ==> !Playable(yt.search(query, Songs).hits[i], SongType))
      && (|m.calls| == 2 ==> m.calls[1] == Search(query, Videos, SearchLimit))
      && |m.calls| <= 2
  {
    if yt.search(query, Songs).Results? {
      FirstPlayableNone(yt.search(query, Songs).hits, SongType);
    }
  }

  /** Without an acceptable song, the first acceptable video is chosen. */
  lemma VideoMatchAt(yt: YtMusicApi, query: string, i: nat)
    requires yt.search(query, Songs).Results? && yt.search(query, Videos).Results?
    requires forall j :: 0 <= j < |yt.search(query, Songs).hits| ==> !Playable(yt.search(query, Songs).hits[j], SongType)
    requires var hits := yt.search(query, Videos).hits;
      i < |hits| && Playable(hits[i], VideoType) && forall j :: 0 <= j < i ==> !Playable(hits[j], VideoType)
    ensures MatchQuery(yt, query).found == yt.search(query, Videos).hits[i].videoId
  {
    FirstPlayableNone(yt.search(query, Songs).hits, SongType);
    FirstPlayableAt(yt.search(query, Videos).hits, VideoType, i);
  }

  /** A track stays unmatched exactly when neither search answered with an
      acceptable hit of its category. */
  lemma NoMatch(yt: YtMusicApi, query: string)
    ensures var songs, videos := yt.search(query, Songs), yt.search(query, Videos);
      MatchQuery(yt, query).found.None? <==>
        && (songs.Results? ==> forall i :: 0 <= i < |songs.hits| ==> !Playable(songs.hits[i], SongType))
        && (songs.Results? ==> videos.Results? ==> forall i :: 0 <= i < |videos.hits| ==> !Playable(videos.hits[i], VideoType))
  {
    var songs, videos := yt.search(query, Songs), yt.search(query, Videos);
    if songs.Results? {
      FirstPlayableNone(songs.hits, SongType);
      if videos.Results? {
        FirstPlayableNone(videos.hits, VideoType);
      }
    }
  }

  // ---------------------------------------------------------------------
  // The track loop

  lemma {:induction false} CollectQueueIsDedup(yt: YtMusicApi, tracks: seq<Track>)
    ensures CollectIds(yt, tracks).queue == Dedup(Matched(yt, tracks))
    decreases |tracks|
  {
    if |tracks| > 0 {
      var init := tracks[..|tracks| - 1];
      var m := MatchTrack(yt, tracks[|tracks| - 1]);
      CollectQueueIsDedup(yt, init);
      if m.found.Some? {
        var s := Matched(yt, tracks);
        assert s == Matched(yt, init) + [m.found.value];
        assert s[..|s| - 1] == Matched(yt, init);
      } else {
        assert Matched(yt, init) + [] == Matched(yt, init);
      }
    }
  }

  /** The queue of identifiers to add holds each matched identifier exactly
      once, nothing else, in the order of first match. */
  lemma QueueRules(yt: YtMusicApi, tracks: seq<Track>)
    ensures var q, ms := CollectIds(yt, tracks).queue, Matched(yt, tracks);
      && NoDuplicates(q)
      && (forall x :: x in q <==> x in ms)
      && (forall i, j :: 0 <= i < j < |q| ==> FirstIndex(ms, q[i]) < FirstIndex(ms, q[j]))
  {
    CollectQueueIsDedup(yt, tracks);
    DedupKeepsEachOnce(Matched(yt, tracks));
    DedupKeepsFirstOrder(Matched(yt, tracks));
  }

  /** The track loop makes only searches, each for the query of a track
      that has a non-empty name and artist; and every such track is searched
      among songs with its query. */
  lemma {:induction false} SearchesOnlyNamedTracks(yt: YtMusicApi, tracks: seq<Track>)
    ensures forall c :: c in CollectIds(yt, tracks).calls ==>
      c.Search? && c.limit == SearchLimit && c.query in Queries(tracks)
    ensures forall t :: t in tracks && Query(t).Some? ==>
      Search(Query(t).value, Songs, SearchLimit) in CollectIds(yt, tracks).calls
    decreases |tracks|
  {
    if |tracks| > 0 {
      var init, last := tracks[..|tracks| - 1], tracks[|tracks| - 1];
      SearchesOnlyNamedTracks(yt, init);
      assert tracks == init + [last];
      assert Queries(init) <= Queries(tracks);
      var m := MatchTrack(yt, last);
      if Query(last).Some? {
        VideoSearchOnlyWithoutSong(yt, Query(last).value);
        assert Query(last).value in Queries(tracks);
      }
      assert forall c :: c in m.calls ==> c.Search? && c.limit == SearchLimit && c.query in Queries(tracks);
    }
  }

  /** A track with a missing, `null` or empty name or artist is never
      searched and matches nothing; any other is searched among songs with
      its name and artist separated by one space. */
  lemma TrackQuery(yt: YtMusicApi, t: Track)
    ensures !NonEmpty(t.name) || !NonEmpty(t.artist) ==> MatchTrack(yt, t) == Match(None, [])
    ensures NonEmpty(t.name) && NonEmpty(t.artist) ==>
      MatchTrack(yt, t).calls[0] == Search(t.name.value + " " + t.artist.value, Songs, SearchLimit)
  {
    if Query(t).Some? {
      VideoSearchOnlyWithoutSong(yt, Query(t).value);
    }
  }

  // ---------------------------------------------------------------------
  // One playlist, and the whole transfer

  lemma {:induction false} CreatesAppend(a: seq<YtCall>, b: seq<YtCall>)
    ensures Creates(a + b) == Creates(a) + Creates(b)
    decreases |b|
  {
    if |b| == 0 {
      assert a + b == a;
    } else {
      var b' := b[..|b| - 1];
      assert (a + b)[..|a + b| - 1] == a + b';
      CreatesAppend(a, b');
    }
  }

  lemma {:induction false} NoCreates(s: seq<YtCall>)
    requires forall k :: 0 <= k < |s| ==> !s[k].CreatePlaylist?
    ensures Creates(s) == []
    decreases |s|
  {
    if |s| > 0 {
      NoCreates(s[..|s| - 1]);
    }
  }

  /** The searches of a created playlist sit between its create call and
      its add call, and are those of the track loop. */
  lemma PlaylistSearches(yt: YtMusicApi, p: Playlist)
    requires yt.create(p.name, Description(p)).Created?
    ensures var calls, c := PlaylistCalls(yt, p), CollectIds(yt, p.tracks);
      && (forall k :: 1 <= k < 1 + |c.calls| ==>
            calls[k].Search? && calls[k].limit == SearchLimit && calls[k].query in Queries(p.tracks))
      && (forall t :: t in p.tracks && Query(t).Some? ==> Search(Query(t).value, Songs, SearchLimit) in calls)
  {
    var calls, c := PlaylistCalls(yt, p), CollectIds(yt, p.tracks);
    SearchesOnlyNamedTracks(yt, p.tracks);
    assert forall k :: 1 <= k < 1 + |c.calls| ==> calls[k] == c.calls[k - 1] && calls[k] in c.calls;
    assert forall x :: x in c.calls ==> x in calls;
  }

  /** One playlist makes exactly one create call, first. When it fails,
      nothing else follows: no search and no add. Otherwise every call
      between the create and the add is a search with limit 5 for the query
      of one of the playlist's tracks, and every track that has a query is
      searched among songs. At most one add call follows the searches, as
      the last call, to the created playlist, exactly when the queue is
      non-empty, and carrying exactly the queue. */
  lemma PlaylistCallsShape(yt: YtMusicApi, p: Playlist)
    ensures var calls, created := PlaylistCalls(yt, p), yt.create(p.name, Description(p));
      && |calls| > 0
      && calls[0] == CreatePlaylist(p.name, Description(p))
      && (forall k :: 1 <= k < |calls| ==> !calls[k].CreatePlaylist?)
      && (created.CreateFailed? ==> |calls| == 1)
      && (forall k :: 1 <= k < |calls| && !calls[k].AddPlaylistItems? ==>
            calls[k].Search? && calls[k].limit == SearchLimit && calls[k].query in Queries(p.tracks))
      && (created.Created? ==> forall t :: t in p.tracks && Query(t).Some? ==>
            Search(Query(t).value, Songs, SearchLimit) in calls)
      && (forall k :: 0 <= k < |calls| && calls[k].AddPlaylistItems? ==>
            && k == |calls| - 1
            && created == Created(calls[k].playlistId)
            && calls[k].videoIds == CollectIds(yt, p.tracks).queue
            && |calls[k].videoIds| > 0
            && NoDuplicates(calls[k].videoIds))
      && (created.Created? && |CollectIds(yt, p.tracks).queue| > 0 ==> calls[|calls| - 1].AddPlaylistItems?)
  {
    var created := yt.create(p.name, Description(p));
    if created.Created? {
      var c := CollectIds(yt, p.tracks);
      PlaylistSearches(yt, p);
      QueueRules(yt, p.tracks);
      var calls := PlaylistCalls(yt, p);
      assert forall k :: 1 + |c.calls| <= k < |calls| ==> calls[k] == AddPlaylistItems(created.playlistId, c.queue);
    }
  }

  /** One playlist's calls hold one create call, for that playlist. */
  lemma PlaylistCreates(yt: YtMusicApi, p: Playlist)
    ensures Creates(PlaylistCalls(yt, p)) == [CreatePlaylist(p.name, Description(p))]
  {
    var calls := PlaylistCalls(yt, p);
    PlaylistCallsShape(yt, p);
    assert calls == [calls[0]] + calls[1..];
    NoCreates(calls[1..]);
    CreatesAppend([calls[0]], calls[1..]);
    assert Creates([calls[0]]) == [calls[0]] by {
      assert [calls[0]][..0] == [];
    }
  }

  /** The create calls the transfer makes, one per playlist in order. */
  function CreatesFor(playlists: seq<Playlist>): seq<YtCall>
  {
    seq(|playlists|, i requires 0 <= i < |playlists| => CreatePlaylist(playlists[i].name, Description(playlists[i])))
  }

  lemma CreatesForStep(playlists: seq<Playlist>)
    requires |playlists| > 0
    ensures var p := playlists[|playlists| - 1];
      CreatesFor(playlists) == CreatesFor(playlists[..|playlists| - 1]) + [CreatePlaylist(p.name, Description(p))]
  {
    var init := playlists[..|playlists| - 1];
    assert forall i :: 0 <= i < |init| ==> init[i] == playlists[i];
  }

  /** The transfer makes one create call per loaded playlist, in order,
      with its name and description. */
  lemma {:induction false} CreatesEachPlaylistInOrder(yt: YtMusicApi, playlists: seq<Playlist>)
    ensures Creates(TransferCalls(yt, playlists)) == CreatesFor(playlists)
    decreases |playlists|
  {
    if |playlists| > 0 {
      var init, p := playlists[..|playlists| - 1], playlists[|playlists| - 1];
      var before, calls := TransferCalls(yt, init), PlaylistCalls(yt, p);
      assert TransferCalls(yt, playlists) == before + calls;
      CreatesEachPlaylistInOrder(yt, init);
      CreatesAppend(before, calls);
      PlaylistCreates(yt, p);
      CreatesForStep(playlists);
    }
  }
}
