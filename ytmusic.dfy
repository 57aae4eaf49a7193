/** The destination catalog as the transfer sees it, the rule that picks a
    match out of a ranked search result list, and the duplicate-free queue
    of matched media identifiers. */
module YtMusic {
  import opened Json

  /** Every search asks for at most this many results. */
  const SearchLimit: nat := 5

  datatype SearchFilter = Songs | Videos

  /** One ranked search result: its category and its media identifier, each
      possibly absent. */
  datatype SearchHit = SearchHit(resultType: Option<string>, videoId: Option<string>)

  datatype SearchResponse = Results(hits: seq<SearchHit>) | SearchFailed
  datatype CreateResponse = Created(playlistId: string) | CreateFailed

  /** The destination's answers: creating a playlist from a title (possibly
      `null`) and a description, and searching for a query in a category. */
  datatype YtMusicApi = YtMusicApi(
    create: (Option<string>, string) -> CreateResponse,
    search: (string, SearchFilter) -> SearchResponse)

  /** One call made to the destination catalog. */
  datatype YtCall =
    | CreatePlaylist(title: Option<string>, description: string)
    | Search(query: string, filter: SearchFilter, limit: nat)
    | AddPlaylistItems(playlistId: string, videoIds: seq<string>)

  /** A hit the selection accepts for this category: it has a (truthy) media
      identifier and exactly this result type. */
  predicate Playable(h: SearchHit, kind: string)
  {
    NonEmpty(h.videoId) && h.resultType == Some(kind)
  }

  /** The media identifier of the first acceptable hit, if any. */
  function FirstPlayable(hits: seq<SearchHit>, kind: string): (r: Option<string>)
    ensures r.Some? ==> r.value != ""
  {
    if |hits| == 0 then None
    else if Playable(hits[0], kind) then hits[0].videoId
    else FirstPlayable(hits[1..], kind)
  }

  /** No acceptable hit exactly when the selection finds none. */
  lemma {:induction false} FirstPlayableNone(hits: seq<SearchHit>, kind: string)
    ensures FirstPlayable(hits, kind).None? <==> forall i :: 0 <= i < |hits| ==> !Playable(hits[i], kind)
  {
    if |hits| > 0 {
      FirstPlayableNone(hits[1..], kind);
      assert forall i :: 1 <= i < |hits| ==> hits[i] == hits[1..][i - 1];
    }
  }

  /** The selection picks the first acceptable hit and no other. */
  lemma {:induction false} FirstPlayableAt(hits: seq<SearchHit>, kind: string, i: nat)
    requires i < |hits| && Playable(hits[i], kind)
    requires forall j :: 0 <= j < i ==> !Playable(hits[j], kind)
    ensures FirstPlayable(hits, kind) == hits[i].videoId
  {
    if i > 0 {
      FirstPlayableAt(hits[1..], kind, i - 1);
    }
  }

  /** The break-on-first-match loop over a search result list. */
  method FindFirstPlayable(hits: seq<SearchHit>, kind: string) returns (found: Option<string>)
    ensures found == FirstPlayable(hits, kind)
  {
    for i := 0 to |hits|
      invariant FirstPlayable(hits, kind) == FirstPlayable(hits[i..], kind)
    {
      assert hits[i..][1..] == hits[i + 1..];
      if Playable(hits[i], kind) {
        return hits[i].videoId;
      }
    }
    assert hits[|hits|..] == [];
    return None;
  }

  predicate NoDuplicates(s: seq<string>)
  {
    forall i, j :: 0 <= i < j < |s| ==> s[i] != s[j]
  }

  /** Appends an identifier unless it is already queued. */
  function Enqueue(queue: seq<string>, id: string): seq<string>
  {
    if id in queue then queue else queue + [id]
  }

  /** Reference definition: the identifiers of `s` with every repeat after
      the first occurrence removed. */
  function Dedup(s: seq<string>): seq<string>
  {
    if |s| == 0 then [] else Enqueue(Dedup(s[..|s| - 1]), s[|s| - 1])
  }

  /** The position of the first occurrence of `x` in `s` (`|s|` if none). */
  function FirstIndex(s: seq<string>, x: string): nat
  {
    if |s| == 0 then 0
    else if x in s[..|s| - 1] then FirstIndex(s[..|s| - 1], x)
    else if s[|s| - 1] == x then |s| - 1
    else |s|
  }

  lemma {:induction false} FirstIndexIsFirst(s: seq<string>, x: string)
    requires x in s
    ensures FirstIndex(s, x) < |s| && s[FirstIndex(s, x)] == x
    ensures forall j :: 0 <= j < FirstIndex(s, x) ==> s[j] != x
  {
    var init := s[..|s| - 1];
    if x in init {
      FirstIndexIsFirst(init, x);
    }
  }

  /** The queue holds every identifier of `s`, each once, and nothing else. */
  lemma {:induction false} DedupKeepsEachOnce(s: seq<string>)
    ensures NoDuplicates(Dedup(s))
    ensures forall x :: x in Dedup(s) <==> x in s
  {
    if |s| > 0 {
      var init := s[..|s| - 1];
      DedupKeepsEachOnce(init);
      assert s == init + [s[|s| - 1]];
    }
  }

  /** The queue keeps first-occurrence order: an identifier queued before
      another first occurs before it in `s`. */
  lemma {:induction false} DedupKeepsFirstOrder(s: seq<string>)
    ensures forall i, j :: 0 <= i < j < |Dedup(s)| ==> FirstIndex(s, Dedup(s)[i]) < FirstIndex(s, Dedup(s)[j])
  {
    if |s| > 0 {
      var init, y := s[..|s| - 1], s[|s| - 1];
      var d := Dedup(init);
      DedupKeepsFirstOrder(init);
      DedupKeepsEachOnce(init);
      assert s[..|s| - 1] == init;
      forall x | x in init
        ensures FirstIndex(s, x) == FirstIndex(init, x) && FirstIndex(init, x) < |init|
      {
        FirstIndexIsFirst(init, x);
      }
      if y !in d {
        assert FirstIndex(s, y) == |init|;
      }
    }
  }
}
