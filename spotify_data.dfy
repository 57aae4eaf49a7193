/** The source catalog's objects, the track and playlist records the fetcher
    builds from them, and the per-item extraction with its default values. */
module SpotifyData {
  import opened Json

  const UnknownTrack := "Unknown Track"
  const UnknownArtist := "Unknown Artist"
  const UnknownAlbum := "Unknown Album"
  const UnknownPlaylist := "Unknown Playlist"

  datatype Artist = Artist(name: Field<string>)
  datatype Album = Album(name: Field<string>)

  /** A track object reduced to the keys the track listing asks for
      (`track(name, id, artists(name), album(name))`). An entry of `artists`
      may be JSON `null`. */
  datatype TrackObject = TrackObject(
    id: Field<string>,
    name: Field<string>,
    artists: Field<seq<Option<Artist>>>,
    album: Field<Album>)

  /** One entry of a playlist's track listing. */
  datatype PlaylistItem = PlaylistItem(track: Field<TrackObject>)

  /** One entry of the current user's playlist listing. */
  datatype PlaylistObject = PlaylistObject(id: Field<string>, name: Field<string>)

  /** A track record as the data file holds it; `None` is JSON `null`. */
  datatype Track = Track(name: Option<string>, artist: Option<string>, album: Option<string>)

  /** A playlist record as the data file holds it. */
  datatype Playlist = Playlist(name: Option<string>, id: string, tracks: seq<Track>)

  /** What one listing item yields: nothing, a record, or an exception that
      escapes the per-playlist handler (reading a key of a `null` object). */
  datatype Extraction = Skip | Crash | Extracted(track: Track)

  /** An empty JSON object is falsy in Python. */
  predicate IsEmptyObject(t: TrackObject)
  {
    t.id.Missing? && t.name.Missing? && t.artists.Missing? && t.album.Missing?
  }

  /** `item.get('track')` is truthy. */
  predicate HasTrack(item: PlaylistItem)
  {
    item.track.Present? && !IsEmptyObject(item.track.value)
  }

  /** `artists` is a non-empty list (truthy). */
  predicate HasArtists(t: TrackObject)
  {
    t.artists.Present? && |t.artists.value| > 0
  }

  /** Reading a name out of this track object raises: its album or its first
      artist is JSON `null`. */
  predicate RaisesOnRead(t: TrackObject)
  {
    t.album.Null? || (HasArtists(t) && t.artists.value[0].None?)
  }

  function ArtistName(t: TrackObject): Option<string>
    requires !RaisesOnRead(t)
  {
    if HasArtists(t) then GetOr(t.artists.value[0].value.name, UnknownArtist) else Some(UnknownArtist)
  }

  function AlbumName(t: TrackObject): Option<string>
    requires !RaisesOnRead(t)
  {
    match t.album
    case Missing => Some(UnknownAlbum)
    case Present(a) => GetOr(a.name, UnknownAlbum)
  }

  /** The record one listing item contributes. */
  function ExtractTrack(item: PlaylistItem): (e: Extraction)
    ensures e.Skip? <==> !HasTrack(item)
    ensures e.Crash? <==> HasTrack(item) && RaisesOnRead(item.track.value)
    ensures e.Extracted? ==> item.track.Present? && var t := item.track.value;
      && (t.name.Missing? ==> e.track.name == Some(UnknownTrack))
      && (t.name.Null? ==> e.track.name == None)
      && (t.name.Present? ==> e.track.name == Some(t.name.value))
      && (!HasArtists(t) ==> e.track.artist == Some(UnknownArtist))
      && (HasArtists(t) && t.artists.value[0].value.name.Missing? ==> e.track.artist == Some(UnknownArtist))
      && (HasArtists(t) && t.artists.value[0].value.name.Null? ==> e.track.artist == None)
      && (HasArtists(t) && t.artists.value[0].value.name.Present? ==>
            e.track.artist == Some(t.artists.value[0].value.name.value))
      && (t.album.Missing? || t.album.value.name.Missing? ==> e.track.album == Some(UnknownAlbum))
      && (t.album.Present? && t.album.value.name.Null? ==> e.track.album == None)
      && (t.album.Present? && t.album.value.name.Present? ==> e.track.album == Some(t.album.value.name.value))
  {
    if !HasTrack(item) then Skip
    else
      var t := item.track.value;
      if RaisesOnRead(t) then Crash
      else Extracted(Track(GetOr(t.name, UnknownTrack), ArtistName(t), AlbumName(t)))
  }

  /** No item of the page raises when it is read. */
  predicate NoCrash(items: seq<PlaylistItem>)
  {
    forall i :: 0 <= i < |items| ==> !ExtractTrack(items[i]).Crash?
  }

  /** Reference definition: the records of the items that yield one, in order. */
  function ExtractAll(items: seq<PlaylistItem>): seq<Track>
  {
    if |items| == 0 then []
    else
      var e := ExtractTrack(items[0]);
      (if e.Extracted? then [e.track] else []) + ExtractAll(items[1..])
  }

  /** One page's item loop: appends the record of every item to `acc`, in
      order; `None` when an item raises. */
  function ExtractInto(items: seq<PlaylistItem>, acc: seq<Track>): Option<seq<Track>>
  {
    if |items| == 0 then Some(acc)
    else
      match ExtractTrack(items[0])
      case Skip => ExtractInto(items[1..], acc)
      case Crash => None
      case Extracted(t) => ExtractInto(items[1..], acc + [t])
  }

  lemma {:induction false} ExtractAllAppend(a: seq<PlaylistItem>, b: seq<PlaylistItem>)
    ensures ExtractAll(a + b) == ExtractAll(a) + ExtractAll(b)
  {
    if |a| > 0 {
      assert (a + b)[1..] == a[1..] + b;
      ExtractAllAppend(a[1..], b);
    } else {
      assert a + b == b;
    }
  }

  /** The item loop keeps exactly the records of the page's items, in order,
      after what was collected before, and fails exactly when an item raises. */
  lemma {:induction false} ExtractIntoCollects(items: seq<PlaylistItem>, acc: seq<Track>)
    ensures ExtractInto(items, acc).Some? <==> NoCrash(items)
    ensures NoCrash(items) ==> ExtractInto(items, acc) == Some(acc + ExtractAll(items))
  {
    if |items| > 0 {
      var e := ExtractTrack(items[0]);
      var next := if e.Extracted? then acc + [e.track] else acc;
      ExtractIntoCollects(items[1..], next);
      if NoCrash(items[1..]) && !e.Crash? {
        forall i | 0 <= i < |items| ensures !ExtractTrack(items[i]).Crash? {
          if i > 0 { assert items[i] == items[1..][i - 1]; }
        }
      }
      if NoCrash(items) {
        forall i | 0 <= i < |items[1..]| ensures !ExtractTrack(items[1..][i]).Crash? {
          assert items[1..][i] == items[i + 1];
        }
        var head := if e.Extracted? then [e.track] else [];
        assert next == acc + head;
        assert ExtractAll(items) == head + ExtractAll(items[1..]);
        assert acc + head + ExtractAll(items[1..]) == acc + (head + ExtractAll(items[1..]));
      }
    } else {
      assert acc + [] == acc;
    }
  }
}
