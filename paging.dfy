/** Offset pagination over a listing endpoint of the source catalog. Both
    fetch loops (playlists, 50 per page; a playlist's tracks, 100 per page)
    follow the same rule: start at offset 0, and advance by exactly the page
    size only after a page that had items and reported a next page. */
module Paging {

  /** The answer to one page request: a page of items with its "next" flag,
      a catalog API error, or any other exception. A missing or `null`
      answer reads like a page without items. */
  datatype Response<T> = Page(items: seq<T>, hasNext: bool) | ApiError | UnexpectedError

  /** The answer to every request an endpoint can receive, by offset. An
      offset the map does not hold gets an empty page, as past the end of a
      listing; the map being finite is what makes every listing end. */
  type Endpoint<T> = map<nat, Response<T>>

  function Fetch<T>(e: Endpoint<T>, offset: nat): Response<T>
  {
    if offset in e then e[offset] else Page([], false)
  }

  /** The loop goes on after this answer: it had items and a next page. */
  predicate Continues<T>(r: Response<T>)
  {
    r.Page? && |r.items| > 0 && r.hasNext
  }

  /** The offsets at or after `offset` that the endpoint still answers with
      something other than the end of the listing; the loops' variant. */
  function Pending<T>(e: Endpoint<T>, offset: nat): set<nat>
  {
    set o | o in e.Keys && o >= offset
  }

  lemma PendingShrinks<T>(e: Endpoint<T>, offset: nat, limit: nat)
    requires limit > 0 && Continues(Fetch(e, offset))
    ensures |Pending(e, offset + limit)| < |Pending(e, offset)|
  {
    var before, after := Pending(e, offset), Pending(e, offset + limit);
    assert offset in before - after;
    assert before == after + (before - after);
  }

  /** Reference definition: the items of every page the paging rule reaches
      from `offset`, in order, when nothing interrupts the loop. */
  function PagedItems<T>(e: Endpoint<T>, limit: nat, offset: nat): seq<T>
    requires limit > 0
    decreases |Pending(e, offset)|
  {
    var r := Fetch(e, offset);
    if Continues(r) then
      PendingShrinks(e, offset, limit);
      r.items + PagedItems(e, limit, offset + limit)
    else if r.Page? then r.items
    else []
  }

  /** The requested offsets follow the paging rule: the k-th request is at
      offset k * limit, and a request is followed by another only when its
      page continued. */
  ghost predicate FollowsPagingRule<T>(e: Endpoint<T>, limit: nat, offsets: seq<nat>)
  {
    && |offsets| > 0
    && (forall k :: 0 <= k < |offsets| ==> offsets[k] == k * limit)
    && (forall k :: 0 <= k < |offsets| - 1 ==> Continues(Fetch(e, offsets[k])))
  }

  function Last<T>(s: seq<T>): T
    requires |s| > 0
  {
    s[|s| - 1]
  }
}
