/**
 * The page fetcher of `ApiHH.__get__rows_for_day` and the request parameters
 * of `ApiHH.__get_vacancies_per_page`. The HTTP round trip and the JSON
 * decoding are a function `fetch` from a request to the decoded page.
 */
module PageFetcher {
  import opened Partitioner
  import opened RowMapper

  /** The query parameters of one GET on the vacancies endpoint. */
  datatype Request = Request(page: int, perPage: int, specialization: int, dateFrom: string, dateTo: string)

  const PerPage: int := 100
  const Specialization: int := 1

  /** `__get_vacancies_per_page(page, ...)`: the parameters it sends for a window. */
  function PageRequest(page: int, w: Window): (r: Request)
    ensures r.page == page && r.perPage == 100 && r.specialization == 1
    ensures r.dateFrom == DateFrom(w) && r.dateTo == DateTo(w)
  {
    Request(page, PerPage, Specialization, DateFrom(w), DateTo(w))
  }

  /**
   * The pages requested when the first response reports `count` pages: page 0,
   * then `range(1, count)`. That is pages 0, 1, 2, ... in increasing order, at
   * least page 0 and otherwise exactly `count` of them.
   */
  function PageIndices(count: int): (ps: seq<int>)
    ensures |ps| == if count > 1 then count else 1
    ensures forall k :: 0 <= k < |ps| ==> ps[k] == k
  {
    [0] + seq(if count > 1 then count - 1 else 0, j => j + 1)
  }

  /**
   * The requests for one window when the first response reports `count`
   * pages: they differ only in the page index, which counts up from 0.
   */
  function Schedule(w: Window, count: int): (reqs: seq<Request>)
    ensures |reqs| == if count > 1 then count else 1
    ensures forall k :: 0 <= k < |reqs| ==>
      reqs[k].page == k && reqs[k].perPage == PerPage && reqs[k].specialization == Specialization &&
      reqs[k].dateFrom == DateFrom(w) && reqs[k].dateTo == DateTo(w)
    ensures forall k :: 0 <= k < |reqs| ==> reqs[k] == PageRequest(k, w)
  {
    var ps := PageIndices(count);
    seq(|ps|, k requires 0 <= k < |ps| => PageRequest(ps[k], w))
  }

  /** The page count the first response for `w` reports. */
  function FirstPageCount(fetch: Request -> Page, w: Window): int {
    fetch(PageRequest(0, w)).pages
  }

  /** Every request issued for one window, in order. */
  function WindowRequests(fetch: Request -> Page, w: Window): seq<Request> {
    Schedule(w, FirstPageCount(fetch, w))
  }

  /** The rows yielded for a series of requests: each response's rows, request after request. */
  function PageRows(fetch: Request -> Page, reqs: seq<Request>): seq<Row> {
    if reqs == [] then [] else PageRows(fetch, reqs[..|reqs| - 1]) + ItemRows(fetch(reqs[|reqs| - 1]).items)
  }

  /** All items of the responses to a series of requests, in request order. */
  function ItemsOf(fetch: Request -> Page, reqs: seq<Request>): seq<Vacancy> {
    if reqs == [] then [] else ItemsOf(fetch, reqs[..|reqs| - 1]) + fetch(reqs[|reqs| - 1]).items
  }

  /** The rows of a series of requests are exactly the rows of all their items: nothing dropped, added or reordered. */
  lemma {:induction false} PageRowsAreItemRows(fetch: Request -> Page, reqs: seq<Request>)
    ensures PageRows(fetch, reqs) == ItemRows(ItemsOf(fetch, reqs))
  {
    if reqs != [] {
      var init := reqs[..|reqs| - 1];
      PageRowsAreItemRows(fetch, init);
      ItemRowsAppend(ItemsOf(fetch, init), fetch(reqs[|reqs| - 1]).items);
    }
  }

  lemma PageRowsSnoc(fetch: Request -> Page, reqs: seq<Request>, r: Request)
    ensures PageRows(fetch, reqs + [r]) == PageRows(fetch, reqs) + ItemRows(fetch(r).items)
  {
  }

  lemma {:induction false} PageRowsAppend(fetch: Request -> Page, a: seq<Request>, b: seq<Request>)
    ensures PageRows(fetch, a + b) == PageRows(fetch, a) + PageRows(fetch, b)
  {
    if b == [] {
      assert a + b == a;
    } else {
      var init, last := b[..|b| - 1], b[|b| - 1];
      var lastRows := ItemRows(fetch(last).items);
      calc {
        PageRows(fetch, a + b);
        { assert a + b == (a + init) + [last]; }
        PageRows(fetch, (a + init) + [last]);
        { PageRowsSnoc(fetch, a + init, last); }
        PageRows(fetch, a + init) + lastRows;
        { PageRowsAppend(fetch, a, init); }
        PageRows(fetch, a) + (PageRows(fetch, init) + lastRows);
        { PageRowsSnoc(fetch, init, last); assert init + [last] == b; }
        PageRows(fetch, a) + PageRows(fetch, b);
      }
    }
  }

  /** The rows `__get__rows_for_day` yields for a window. */
  function RowsForWindow(fetch: Request -> Page, w: Window): seq<Row> {
    PageRows(fetch, WindowRequests(fetch, w))
  }

  /**
   * `__get__rows_for_day`: request page 0, read `pages` from it, then request
   * pages 1 to `pages - 1`; yield the rows of each page as it arrives. `sent`
   * records the requests in the order they were issued.
   */
  method GetRowsForDay(fetch: Request -> Page, w: Window) returns (rows: seq<Row>, sent: seq<Request>)
    ensures sent == WindowRequests(fetch, w)
    ensures rows == RowsForWindow(fetch, w)
  {
    var req := PageRequest(0, w);
    var nowPage := fetch(req);
    sent := [req];
    var count := nowPage.pages;
    ghost var schedule := Schedule(w, count);
    rows := GetRowsFromJson(nowPage);
    assert sent == schedule[..1];
    PageRowsSnoc(fetch, [], req);
    var i := 1;
    while i < count
      invariant 1 <= i <= |schedule|
      invariant sent == schedule[..i]
      invariant rows == PageRows(fetch, sent)
    {
      req := PageRequest(i, w);
      nowPage := fetch(req);
      var pageRows := GetRowsFromJson(nowPage);
      assert schedule[..i + 1] == sent + [req];
      PageRowsSnoc(fetch, sent, req);
      sent := sent + [req];
      rows := rows + pageRows;
      i := i + 1;
    }
    assert schedule[..i] == schedule;
  }
}
