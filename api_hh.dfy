/**
 * `ApiHH.__get_parsed_rows`: the whole pipeline, window by window, page by
 * page, item by item, producing the rows `create_csv` writes.
 */
module ApiHH {
  import opened Partitioner
  import opened RowMapper
  import opened PageFetcher

  /** The rows of a series of windows, window after window. */
  function WindowsRows(fetch: Request -> Page, ws: seq<Window>): seq<Row> {
    if ws == [] then [] else WindowsRows(fetch, ws[..|ws| - 1]) + RowsForWindow(fetch, ws[|ws| - 1])
  }

  /** The requests issued for a series of windows, window after window. */
  function WindowsRequests(fetch: Request -> Page, ws: seq<Window>): seq<Request> {
    if ws == [] then [] else WindowsRequests(fetch, ws[..|ws| - 1]) + WindowRequests(fetch, ws[|ws| - 1])
  }

  lemma WindowsSnoc(fetch: Request -> Page, ws: seq<Window>, i: nat)
    requires i < |ws|
    ensures WindowsRows(fetch, ws[..i + 1]) == WindowsRows(fetch, ws[..i]) + RowsForWindow(fetch, ws[i])
    ensures WindowsRequests(fetch, ws[..i + 1]) == WindowsRequests(fetch, ws[..i]) + WindowRequests(fetch, ws[i])
  {
    assert ws[..i + 1][..i] == ws[..i];
  }

  /** The rows of one run, yesterday being `startDay` and today `endDay`. */
  function ParsedRows(fetch: Request -> Page, startDay: nat, endDay: nat): seq<Row> {
    WindowsRows(fetch, Windows(startDay, endDay))
  }

  /** The requests of one run, in the order they are issued. */
  function Requests(fetch: Request -> Page, startDay: nat, endDay: nat): seq<Request> {
    WindowsRequests(fetch, Windows(startDay, endDay))
  }

  lemma {:induction false} WindowsRowsArePageRows(fetch: Request -> Page, ws: seq<Window>)
    ensures WindowsRows(fetch, ws) == PageRows(fetch, WindowsRequests(fetch, ws))
  {
    if ws != [] {
      var init := ws[..|ws| - 1];
      WindowsRowsArePageRows(fetch, init);
      PageRowsAppend(fetch, WindowsRequests(fetch, init), WindowRequests(fetch, ws[|ws| - 1]));
    }
  }

  /**
   * The rows of a run are the rows of every item of every response, in the
   * order the requests were issued: one row per item, none dropped, none added.
   */
  lemma ParsedRowsAreItemRows(fetch: Request -> Page, startDay: nat, endDay: nat)
    ensures ParsedRows(fetch, startDay, endDay) == ItemRows(ItemsOf(fetch, Requests(fetch, startDay, endDay)))
    ensures |ParsedRows(fetch, startDay, endDay)| == |ItemsOf(fetch, Requests(fetch, startDay, endDay))|
  {
    var ws := Windows(startDay, endDay);
    WindowsRowsArePageRows(fetch, ws);
    PageRowsAreItemRows(fetch, WindowsRequests(fetch, ws));
  }

  /**
   * The requests are ordered by window, then by page: the requests of window
   * `j` follow those of the windows before it, page `k` of it at position `k`
   * among them.
   */
  /** The requests of the first `m` windows are a prefix of the requests of all of them. */
  lemma {:induction false} RequestsPrefix(fetch: Request -> Page, ws: seq<Window>, m: nat)
    requires m <= |ws|
    ensures WindowsRequests(fetch, ws[..m]) <= WindowsRequests(fetch, ws)
  {
    if m == |ws| {
      assert ws[..m] == ws;
    } else {
      var init := ws[..|ws| - 1];
      RequestsPrefix(fetch, init, m);
      assert init[..m] == ws[..m];
    }
  }

  lemma RequestsByWindowThenPage(fetch: Request -> Page, ws: seq<Window>, j: nat, k: nat)
    requires j < |ws| && k < |WindowRequests(fetch, ws[j])|
    ensures |WindowsRequests(fetch, ws[..j])| + k < |WindowsRequests(fetch, ws)|
    ensures WindowsRequests(fetch, ws)[|WindowsRequests(fetch, ws[..j])| + k] == PageRequest(k, ws[j])
  {
    WindowsSnoc(fetch, ws, j);
    RequestsPrefix(fetch, ws, j + 1);
  }



  /** Every window gets its page-0 request, whatever the first response reports. */
  lemma PageZeroRequested(fetch: Request -> Page, ws: seq<Window>, j: nat)
    requires j < |ws|
    ensures PageRequest(0, ws[j]) in WindowsRequests(fetch, ws)
  {
    RequestsByWindowThenPage(fetch, ws, j, 0);
  }

  /**
   * For real days of the month, no request of a run is sent twice: two
   * requests of the run that differ in window or page differ as requests.
   */
  lemma RunRequestsDistinct(startDay: nat, endDay: nat, j1: nat, k1: int, j2: nat, k2: int)
    requires 1 <= startDay <= 31 && 1 <= endDay <= 31
    requires j1 < 24 && j2 < 24 && (j1, k1) != (j2, k2)
    ensures PageRequest(k1, Windows(startDay, endDay)[j1]) != PageRequest(k2, Windows(startDay, endDay)[j2])
  {
  }

  /** Every request of a series of windows is page `k` of one of the windows, at the position `RequestsByWindowThenPage` gives it. */
  lemma {:induction false} LocateRequest(fetch: Request -> Page, ws: seq<Window>, p: nat) returns (j: nat, k: nat)
    requires p < |WindowsRequests(fetch, ws)|
    ensures j < |ws| && k < |WindowRequests(fetch, ws[j])|
    ensures p == |WindowsRequests(fetch, ws[..j])| + k
    ensures WindowsRequests(fetch, ws)[p] == PageRequest(k, ws[j])
  {
    var n := |ws| - 1;
    var init := ws[..n];
    var before := WindowsRequests(fetch, init);
    if p < |before| {
      j, k := LocateRequest(fetch, init, p);
      assert init[..j] == ws[..j] && init[j] == ws[j];
    } else {
      j, k := n, p - |before|;
      assert ws[..j] == init;
    }
  }

  /** For real days of the month, no request appears twice in the requests of a run. */
  lemma RequestsNeverRepeat(fetch: Request -> Page, startDay: nat, endDay: nat, a: nat, b: nat)
    requires 1 <= startDay <= 31 && 1 <= endDay <= 31
    requires a < b < |Requests(fetch, startDay, endDay)|
    ensures Requests(fetch, startDay, endDay)[a] != Requests(fetch, startDay, endDay)[b]
  {
    var ws := Windows(startDay, endDay);
    var j1, k1 := LocateRequest(fetch, ws, a);
    var j2, k2 := LocateRequest(fetch, ws, b);
    RunRequestsDistinct(startDay, endDay, j1, k1, j2, k2);
  }

  /**
   * `__get_parsed_rows`: build the hour and day markers, then for each of the
   * 24 windows yield the rows of `__get__rows_for_day`. `sent` records every
   * request in the order it was issued.
   */
  method GetParsedRows(fetch: Request -> Page, startDay: nat, endDay: nat) returns (rows: seq<Row>, sent: seq<Request>)
    ensures rows == ParsedRows(fetch, startDay, endDay)
    ensures sent == Requests(fetch, startDay, endDay)
  {
    var hours := HourMarkers();
    var days := DayMarkers(startDay, endDay);
    ghost var ws := Windows(startDay, endDay);
    rows, sent := [], [];
    for i := 0 to |hours| - 1
      invariant rows == WindowsRows(fetch, ws[..i])
      invariant sent == WindowsRequests(fetch, ws[..i])
    {
      var w := Window(hours[i], hours[i + 1], days[i], days[i + 1]);
      WindowAt(startDay, endDay, i);
      var windowRows, windowSent := GetRowsForDay(fetch, w);
      WindowsSnoc(fetch, ws, i);
      rows := rows + windowRows;
      sent := sent + windowSent;
    }
    assert ws[..|hours| - 1] == ws;
  }
}
