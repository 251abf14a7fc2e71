/** Cursor pagination as both popups do it. A listing endpoint is represented
    by the responses it gives to successive requests: response k answers the
    request that carries the cursor found in response k - 1 (none for k = 0).
    The cursor strings themselves only ever decide whether to go on. */
module Paging {
  import opened Collections

  /** An HTTP exchange: a parsed body, or a non-2xx status (the `throw` in
      `fetchJson` / the `!response.ok` branch). */
  datatype Response<+T> = Ok(value: T) | Failed(status: int)

  /** One page of a listing: its `data` array (absent counts as empty) and
      its `nextPageCursor` (absent or null counts as ""). */
  datatype Page<+T> = Page(data: seq<T>, nextPageCursor: string)

  /** After this response the loop asks for no further page. */
  predicate Stops<T>(r: Response<Page<T>>) {
    r.Failed? || r.value.nextPageCursor == ""
  }

  /** The listing eventually stops the loop. The source has no guard against
      an upstream that returns a cursor forever; the model requires it. */
  predicate Ends<T>(pages: seq<Response<Page<T>>>) {
    exists k :: 0 <= k < |pages| && Stops(pages[k])
  }

  /** The index of the first response that stops the loop. */
  function StopIndex<T>(pages: seq<Response<Page<T>>>): (k: nat)
    requires Ends(pages)
    ensures k < |pages| && Stops(pages[k])
    ensures forall j :: 0 <= j < k ==> !Stops(pages[j])
  {
    if Stops(pages[0]) then 0
    else
      var w :| 0 <= w < |pages| && Stops(pages[w]);
      assert 0 <= w - 1 < |pages[1..]| && Stops(pages[1..][w - 1]);
      1 + StopIndex(pages[1..])
  }

  /** The data of the successful responses, in order. */
  function AllData<T>(pages: seq<Response<Page<T>>>): seq<T> {
    if pages == [] then []
    else
      var last := pages[|pages| - 1];
      AllData(pages[..|pages| - 1]) + (if last.Ok? then last.value.data else [])
  }

  /** What a loop that reads the first `n` responses returns: the failure of
      the last one read, or all data read, in page order. */
  function Collect<T>(pages: seq<Response<Page<T>>>, n: nat): Response<seq<T>>
    requires 0 < n <= |pages|
  {
    if pages[n - 1].Failed? then Failed(pages[n - 1].status) else Ok(AllData(pages[..n]))
  }

  /** The number of responses an uncapped cursor loop reads. */
  function Consumed<T>(pages: seq<Response<Page<T>>>): (n: nat)
    requires Ends(pages)
    ensures 0 < n <= |pages|
  {
    StopIndex(pages) + 1
  }

  /** The uncapped cursor loop of `fetchAllMembers` (per role) and of
      `fetchUserLimitedRAP`: request, append the page's data, continue while
      the page carries a cursor; a failed request aborts the loop. */
  method FollowCursor<T>(pages: seq<Response<Page<T>>>) returns (r: Response<seq<T>>)
    requires Ends(pages)
    ensures r == Collect(pages, Consumed(pages))
  {
    var items: seq<T> := [];
    var k := 0;
    while true
      invariant k <= StopIndex(pages)
      invariant items == AllData(pages[..k])
      decreases StopIndex(pages) - k
    {
      var page := pages[k];
      assert pages[..k + 1][..k] == pages[..k];
      if page.Failed? {
        return Failed(page.status);
      }
      items := items + page.value.data;
      if page.value.nextPageCursor == "" {
        return Ok(items);
      }
      k := k + 1;
    }
  }

  /** Responses after the one that stops the loop are never consulted: two
      listings that agree up to it give the same result. */
  lemma ResultIgnoresLaterPages<T>(pages: seq<Response<Page<T>>>, other: seq<Response<Page<T>>>)
    requires Ends(pages)
    requires Consumed(pages) <= |other| && other[..Consumed(pages)] == pages[..Consumed(pages)]
    ensures Ends(other) && Consumed(other) == Consumed(pages)
    ensures Collect(other, Consumed(other)) == Collect(pages, Consumed(pages))
  {
    var n := Consumed(pages);
    assert other[n - 1] == pages[..n][n - 1];
    assert forall j :: 0 <= j < n ==> other[j] == pages[..n][j];
  }

  /** Reading fewer responses yields a prefix of the data read by reading more. */
  lemma {:induction false} AllDataPrefix<T>(pages: seq<Response<Page<T>>>, m: nat, n: nat)
    requires m <= n <= |pages|
    ensures AllData(pages[..m]) <= AllData(pages[..n])
    decreases n - m
  {
    if m < n {
      AllDataPrefix(pages, m, n - 1);
      assert pages[..n][..n - 1] == pages[..n - 1];
    }
  }
}
