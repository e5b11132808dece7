# hh.ru daily vacancies export — Dafny model

The script `main.py` downloads the job vacancies of the previous day from the
hh.ru REST API and writes them to `vacancies.csv`. To stay under the API's
result cap it splits the day into 24 one-hour windows. For each window it asks
for page 0, reads the total page count from that answer and then asks for the
remaining pages one after another. Each vacancy becomes one six-column row
`[name, salary from, salary to, currency, area name, published_at]`, with blanks
for missing salary data.

This project models that pipeline as Dafny functions, and the generator loops
of the script as methods with loops that are proved equal to those functions:

- `Decimal` (`decimal.dfy`): Python's `str(n)` for day and hour numbers and the
  `str(x) if x >= 10 else f'0{x}'` zero padding, with `ValueOf` reading a digit
  string back as its number.
- `Partitioner` (`partitioner.dfy`): the 25 hour markers, the 25 day markers,
  the 24 windows built from them, and the `2022-12-{day}T{hour}:00:00` date
  strings of a request. The year and month stay hard-coded as in the script.
  `MonthEndWindow` shows what this does across a month end: the last window
  runs from the 31st back to the 1st of the same month.
- `RowMapper` (`row_mapper.dfy`): decoded vacancies, salaries and pages as
  datatypes (`Option` for JSON `null`), the salary cells, the row of one item,
  and the per-page loop `GetRowsFromJson`.
- `PageFetcher` (`page_fetcher.dfy`): the request parameters, the page schedule
  of one window, and the page loop `GetRowsForDay`. The network is the
  parameter `fetch: Request -> Page`, from the query parameters to the decoded
  response.
- `ApiHH` (`api_hh.dfy`): the loop over the 24 windows, `GetParsedRows`, and
  lemmas about the whole run. It shows that the output is exactly one row per
  item of every response, in the order the requests were sent: by window, then
  by page, then by item.

`GetRowsForDay` and `GetParsedRows` also return `sent`, the list of requests in the
order they were issued, so that the pagination schedule can be stated.

Notes on the source:
- The script keeps yesterday's and today's day of the month as a number when
  it is 10 or more, and as a `'0'`-prefixed string below 10. Both are only ever
  put into the date template, where a number turns into its decimal text. The
  model keeps every day marker as that text.
- The windows are aligned to the calendar: they cover midnight to midnight of
  yesterday, not the 24 hours before the clock reading.
- Salary bounds are JSON numbers and stay numbers in the row. The script leaves
  turning them into text to the CSV writer. In the model they are `Number`
  cells, and everything else is a `Text` cell.

## Model

| member | source | states |
|---|---|---|
| Decimal.Show | main.py:33 | `str(n)` is a non-empty digit string that denotes `n`, has no leading zero unless `n` is 0, and has 1 digit below 10 and 2 digits for 10..99 |
| Decimal.PadTwo | main.py:33-34 | the zero-padded text denotes `x`, is two characters exactly when `x < 100`, and starts with `'0'` exactly when `x < 10` |
| Partitioner.HourMarkers | main.py:33 | 25 markers, each a two-digit string; marker `i` denotes hour `i mod 24`, so they run `"00"`..`"23"` and end with `"00"` |
| Partitioner.DayMarkers | main.py:34 | 25 markers; the first 24 are all the same and denote `startDay`, the last denotes `endDay`; all are two digits for days 1..31 |
| Partitioner.Windows | main.py:36-37 | exactly 24 windows; window `i` ends with the hour and day that window `i+1` starts with; the first starts at `"00"` and the last ends at `"00"` |
| Partitioner.WindowHours | main.py:33-37 | window `i` runs from hour `i` to hour `(i+1) mod 24`, both as two-digit strings |
| Partitioner.WindowDays | main.py:34-37 | every window starts on `startDay`; windows 0..22 also end on it and window 23 ends on `endDay`; days 1..31 are two digits |
| Partitioner.Stamp | main.py:82-83 | a date string starts with `2022-12-`, then holds the day, a `'T'` and the hour, and ends with `:00:00`; built from a two-character day and hour it is 19 characters long and both can be read back |
| Partitioner.WindowDateAffixes | main.py:82-83 | both date strings of every window start with `2022-12-` and end with `:00:00` |
| Partitioner.WindowDatesChain | main.py:82-83 | `date_to` of window `i` is `date_from` of window `i+1`; the run starts at `startDay` hour 00 and ends at `endDay` hour 00 |
| Partitioner.WindowStartsDistinct | main.py:82 | for days 1..31, no two windows have the same `date_from` |
| Partitioner.MonthEndWindow | main.py:82-83 | with yesterday the 31st and today the 1st, the last window is `("23", "00", "31", "01")`, so it runs from the template filled with day `31` hour `23` (`2022-12-31T23:00:00`) back to day `01` hour `00` (`2022-12-01T00:00:00`) |
| RowMapper.GetSalary | main.py:110-117 | three cells; a null salary gives three blanks; each of from, to and currency is its value when present and a blank when null, independently |
| RowMapper.NullSalaryIsAllNullFields | main.py:110-117 | a null salary and a salary with all three sub-fields null give the same cells |
| RowMapper.ItemRow | main.py:100-101 | six cells: the name, the three salary cells, the area name and `published_at`; the salary bounds read back from the row as the item's bounds |
| RowMapper.ItemRows | main.py:99-101 | one row per item: row `i` is the row of item `i` |
| RowMapper.ItemRowsAppend | main.py:99-101 | the rows of two item lists joined are the two lists of rows joined |
| RowMapper.GetRowsFromJson | main.py:93-101 | the loop over `items` yields exactly one row per item, row `i` being the row of item `i` |
| PageFetcher.PageRequest | main.py:78-84 | the parameters of one request: the given page, `per_page=100`, `specialization=1`, and the window's `date_from` and `date_to` |
| PageFetcher.PageIndices | main.py:50-58 | the page indices are page 0 followed by `1..pages-1`: that is `0, 1, 2, ...` in order, `pages` of them, and page 0 alone when `pages <= 1` |
| PageFetcher.Schedule | main.py:58-59 | the requests of one window number `max(pages, 1)`; request `k` asks for page `k` with `per_page=100`, `specialization=1` and the window's own `date_from` and `date_to` |
| PageFetcher.PageRowsAreItemRows | main.py:55-63 | the rows produced for a series of requests are the rows of all items of all responses, in request order |
| PageFetcher.PageRowsAppend | main.py:55-63 | the rows for two joined series of requests are the two row lists joined |
| PageFetcher.GetRowsForDay | main.py:41-63 | the loop sends exactly the window's schedule, in order, and yields the rows of every response in turn |
| ApiHH.WindowsRowsArePageRows | main.py:36-38 | the rows of a series of windows are the rows of the requests of all those windows, in order |
| ApiHH.ParsedRowsAreItemRows | main.py:36-63 | the rows of a run are the rows of every item of every response, in request order; there are as many rows as items |
| ApiHH.RequestsPrefix | main.py:36-38 | the requests sent for the first `m` windows are a prefix of the requests sent for all windows: later windows only append |
| ApiHH.RequestsByWindowThenPage | main.py:36-59 | the requests of window `j` follow those of the earlier windows, and page `k` of window `j` is at position `k` among them |
| ApiHH.PageZeroRequested | main.py:50 | the page-0 request of every window is among the run's requests, whatever the page count |
| ApiHH.RunRequestsDistinct | main.py:36-59 | for days 1..31, two requests of a run for different windows or different pages are different requests, so no request is sent twice |
| ApiHH.LocateRequest | main.py:36-59 | every request of a series of windows is page `k` of some window `j`, sitting at position `k` after the requests of the windows before `j`: nothing else is sent |
| ApiHH.RequestsNeverRepeat | main.py:36-59 | for days 1..31, no two positions of a run's request list hold the same request |
| ApiHH.GetParsedRows | main.py:24-38 | the loop over the 24 windows yields exactly the rows of the run and sends exactly its requests, in order |

## Left out

- `create_csv` (main.py:12-21): opening `vacancies.csv`, the UTF-8 byte-order mark, CSV quoting and turning numbers into text are file I/O and library formatting. The model stops at the list of rows, which is what the writer loop writes in order.
- The HTTP GET and `close` (main.py:86-88) are network I/O. They are the parameter `fetch`. Because it is a function, the model takes the server to answer a request the same way each time; no request is sent twice in a run (`RequestsNeverRepeat`), so this does not change the rows.
- `json.loads` and `int(js_obj['pages'])` (main.py:51-53, 60) are library decoding. The model takes decoded pages with an integer `pages` field and integer salary bounds (JSON fractions are not modelled).
- `datetime.now()` and the one-day `timedelta` (main.py:29-31) read the clock and do calendar arithmetic. Yesterday's and today's day of the month are the parameters `startDay` and `endDay`.
- Failures (network errors, a missing JSON key, file errors) are not handled by the script: they end the run. The model has no error path; it describes a run in which every call succeeds. It also keeps the rows and the requests as two separate lists, so it does not capture that the rows of page k are written before request k+1 is sent, which only shows in what an aborted run leaves in the file.
- `main` (main.py:120-132) only calls `create_csv`.
