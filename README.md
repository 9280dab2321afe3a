# Review analyzer server: a Dafny model

This project models the request handler of a small HTTP service that stores customer
reviews in memory. The handler is `ReviewAnalyzerServer.__call__` in `server.py`.

- A **GET** reads three query parameters: `location`, `start_date` and `end_date`.
  It keeps the stored reviews at that location whose timestamp lies between midnight
  of the start date and midnight of the end date. An empty parameter switches its
  filter off.
- The GET then writes a sentiment score into each kept review and answers with the
  kept reviews ranked by descending `compound` score. The sort is stable.
- A **POST** reads the form fields `ReviewBody` and `Location`. A named location
  outside the 18-entry allow-list is rejected first. A missing body or location is
  rejected next. Otherwise a new review gets a fresh id and the current time, is
  appended to the store, and is returned with status `201 Created`.

## Layout

| file | module | contents |
|---|---|---|
| `wrappers.dfy` | `Wrappers` | `Option` |
| `sequences.dfy` | `Sequences` | `Select`, the list comprehension `[x for x in s if p(x)]`, with order, subsequence and composition lemmas |
| `timestamps.dfy` | `Timestamps` | `DateTime`, the calendar, the `datetime` order, `strptime` for `%Y-%m-%d` and `%Y-%m-%d %H:%M:%S`, `strftime`, round trips |
| `reviews.dfy` | `Reviews` | the stored review record (a class: the server mutates it in place) and `Sentiment` |
| `filtering.dfy` | `Filtering` | the three filters, the filter stage in the server's order, and its properties |
| `ranking.dfy` | `Ranking` | Python's stable `sorted(..., reverse=True)` by a key, proved descending, a permutation, stable and unique |
| `server.dfy` | `Server` | the allow-list, validation, parameter extraction, and the `ReviewAnalyzerServer` class with `Call`, `Get` and `Post` |

How the model is built:

- **Reviews are shared mutable records.** The source keeps each review as a dict.
  The store and every response share those dicts, and a GET writes `sentiment` into
  them (server.py:77). So `Review` is a class. Its four columns are `const`, and only
  its `sentiment` field is a `var`.
- **State.** The store is the `reviews: seq<Review>` field of the server object.
- **GET.** `Get` runs the pure filter stage first. Then the loop in
  `AttachSentiments` scores each kept record in place. Finally `SortDescending` ranks
  them.
- **The ranking key.** The model sorts by the scorer's compound value for the
  review's body. `RankedBySentiment` proves this is the same order as sorting by the
  `sentiment.compound` the loop just stored, which is what the source does.
- **POST.** `Post` validates the fields with `Validate` and appends to `reviews`.
- **The sentiment scorer** is a pure function `string -> Sentiment` given to the
  server's constructor. The uuid and the clock are arguments of `Call`.

Facts about `server.py` that the model keeps:

- `server.py` spells the allow-listed locations "City, State" in full, e.g.
  "Albuquerque, New Mexico" (server.py:111-128).
- A GET writes the sentiment into the stored record itself, and it stays there
  (server.py:77).
- A malformed date raises an uncaught `ValueError` (server.py:67, 72). There is no 400
  response. The model records this as the reply `Raised`.
- Methods other than GET and POST fall off the end of `__call__` (server.py:169) and
  return `None`. The model records this as `Unanswered`.

## Model

| member | source | states |
|---|---|---|
| `Sequences.Select` | server.py:63 | the comprehension keeps exactly the elements satisfying the predicate (both directions of membership) and never grows the list |
| `Sequences.SelectEmbedding` | server.py:60-73 | the kept elements are those at a strictly increasing list of positions, and a position is listed exactly when its element satisfies the predicate |
| `Sequences.SelectIsSubsequence` | server.py:60-73 | a filtered list is a subsequence of its input (relative order preserved) |
| `Sequences.SelectConjunction` | server.py:60-73 | filtering by one predicate and then another equals filtering once by their conjunction |
| `Sequences.SelectCommutes` | server.py:60-73 | two filters give the same result in either order |
| `Timestamps.ParseDate` | server.py:67 | a parsed `%Y-%m-%d` date is a real calendar date (years 1-9999, the right number of days in the month) at midnight |
| `Timestamps.ParseDateTime` | server.py:68 | a parsed `%Y-%m-%d %H:%M:%S` timestamp is a real calendar instant |
| `Timestamps.LessEq` | server.py:68 | the `datetime` comparison used by the filters; on valid instants it is exactly the order of their mixed-radix ranks (31-day months), which order valid instants chronologically |
| `Timestamps.FormatDateTime` | server.py:144 | `strftime("%Y-%m-%d %H:%M:%S")` writes the fixed shape, with each field as its zero-padded digits |
| `Timestamps.ParseDateIsMidnight` | server.py:72-73 | a date parameter compares as the timestamp `date 00:00:00` |
| `Timestamps.LessEqTransitive` | server.py:68 | the `datetime` comparison the filters use is transitive |
| `Timestamps.LessEqTotal` | server.py:73 | that comparison is total and antisymmetric |
| `Timestamps.ParseFormat` | server.py:144 | a timestamp written with `strftime("%Y-%m-%d %H:%M:%S")` parses back to the same instant |
| `Timestamps.FormatParse` | server.py:68 | every text that parses is exactly the formatted spelling of its value (fixed width, one spelling per instant) |
| `Filtering.OnOrAfter` | server.py:68 | the start test of one review; it holds only of a review whose timestamp parses |
| `Filtering.OnOrBefore` | server.py:73 | the end test of one review; it holds only of a review whose timestamp parses |
| `Filtering.ByLocation` | server.py:63 | the location comprehension keeps exactly the stored reviews at that location, and no others |
| `Filtering.ByStart` | server.py:68 | the start comprehension keeps exactly the reviews whose timestamp parses and is at or after the start |
| `Filtering.ByEnd` | server.py:73 | the end comprehension keeps exactly the reviews whose timestamp parses and is at or before the end |
| `Filtering.StartStep` | server.py:66-68 | the start step raises exactly when a non-empty parameter does not parse or a remaining timestamp does not parse; an empty parameter passes the list through; otherwise every kept review is on or after the start |
| `Filtering.EndStep` | server.py:71-73 | the end step raises under the same conditions; an empty parameter passes the list through; otherwise every kept review is on or before the end |
| `Filtering.FilterStage` | server.py:60-73 | the stage in source order: whatever it returns is drawn from the store and no longer than it; with no parameter it is the store; an unparseable non-empty date makes it raise |
| `Filtering.LocationStepSelects` | server.py:62-63 | the location step is the store filtered by "no location given, or the same location" |
| `Filtering.StartStepSelects` | server.py:66-68 | the start step, when it does not raise, is the list filtered by the start bound (or unchanged for an empty parameter) |
| `Filtering.EndStepSelects` | server.py:71-73 | the end step, when it does not raise, is the list filtered by the end bound (or unchanged for an empty parameter) |
| `Filtering.FilterStageDefined` | server.py:66-73 | with well-formed stored timestamps, the filter stage raises exactly when a non-empty date parameter does not parse |
| `Filtering.FilterStageIsConjunction` | server.py:60-73 | the three filters in sequence equal one filter by the conjunction of all bounds, so their order does not matter |
| `Filtering.FilterMembership` | server.py:60-73 | a review is in the result exactly when it is in the store and meets every requested bound |
| `Filtering.FilterWithinStore` | server.py:60-73 | every returned review is a stored review |
| `Filtering.FilterIsSubsequence` | server.py:60-73 | the filtered list is a subsequence of the store, in store order |
| `Filtering.LocationFilterExact` | server.py:56-63 | without dates, a non-empty location keeps exactly the reviews at that location in store order; an empty one keeps the store unchanged |
| `Filtering.FilterDateBounds` | server.py:66-73 | every kept review's timestamp is at or after midnight of the start date and at or before midnight of the end date |
| `Filtering.EndDayExcluded` | server.py:71-73 | a review written after midnight on the end day itself is not kept |
| `Filtering.StartAfterEndIsEmpty` | server.py:66-73 | with well-formed stored timestamps, a start date after the end date yields the empty list and does not raise |
| `Filtering.FiltersCommute` | server.py:60-73 | location, start and end filters commute pairwise |
| `Ranking.Insert` | server.py:81 | inserting adds exactly one item (multiset) and the result starts with the item or the old head |
| `Ranking.SortDescending` | server.py:81 | the ranked list is a permutation of its input |
| `Ranking.SortIsDescending` | server.py:81 | the ranked list has non-increasing keys |
| `Ranking.SortIsStable` | server.py:81 | for every key, the items with that key appear in their input order |
| `Ranking.DescendingUnique` | server.py:81 | two descending lists with the same items per key, in the same order, are equal |
| `Ranking.SortIsTheStableSort` | server.py:81 | any stable descending sort of the input, whatever its algorithm, gives the same list as `SortDescending` |
| `Server.Validate` | server.py:131-142 | a named location outside the allow-list is rejected first, even with an empty body; otherwise an empty body or location is rejected; otherwise the review is accepted, and only then are the body non-empty and the location allow-listed |
| `Server.FirstValue` | server.py:56-58 | a parameter is its first value, and the empty string when it is not given |
| `Server.NoParametersKeepsAll` | server.py:56-73 | a GET naming no parameter keeps every stored review |
| `Reviews.Review.constructor` | server.py:145-151 | a new record holds exactly the given id, body, location and timestamp, and no sentiment |
| `Server.ReviewAnalyzerServer.constructor` | server.py:22-27 | the server starts with the loaded reviews and the given scorer |
| `Server.ReviewAnalyzerServer.Call` | server.py:40-169 | GET and POST behave as below; any other method answers nothing and changes nothing; review ids stay unique |
| `Server.ReviewAnalyzerServer.Get` | server.py:40-93 | the store keeps its length and order. If the filter stage raises, nothing changes. Otherwise each filtered record, and only those, gets the scorer's value for its body, and the answer is `200 OK` with the filtered records ranked by `SortDescending`; every answered record is stored and sentimented, and the list is non-increasing in its stored `compound` |
| `Server.ReviewAnalyzerServer.AttachSentiments` | server.py:75-78 | the loop returns the same records in the same order, each carrying the scorer's value for its body |
| `Server.ReviewAnalyzerServer.RankedBySentiment` | server.py:77-81 | once scored, ranking by the scorer's key is ranking by the stored `compound`, over the same records |
| `Server.ReviewAnalyzerServer.RepeatedGet` | server.py:40-93 | two identical GETs give identical answers |
| `Server.ReviewAnalyzerServer.Post` | server.py:96-169 | location not allowed: 400 "Location not allowed", store unchanged; missing field: 400 "ReviewBody and Location are required", store unchanged; accepted: exactly one new record appended at the end with the given body, location, fresh id and formatted time and no sentiment, earlier records untouched, 201 with that very record; ids stay unique and a well-formed store stays well formed |

## Left out

- The sentiment analyser (VADER, `nltk` downloads, server.py:1-3, 13-20, 29-31) is a foreign library. The model takes it as a pure function given to the constructor. The server's `analyzer` field stands in for `analyze_sentiment` (server.py:29-31) and is applied directly. Its scores are `real`s, so floating-point rounding and NaN are not modelled.
- The unused `adj_noun_pairs_count` and `stop_words` (server.py:18, 20) are not modelled.
- Loading `data/reviews.csv` with pandas (server.py:22) is file I/O. The constructor takes the loaded list and requires its ids to be distinct, which the source does not check.
- `uuid.uuid4()` and `datetime.now()` (server.py:143-144) are not deterministic. They are arguments of `Call` and `Post`, which require the id to be unused and the time to be a real calendar instant.
- Timestamps.ParseDate: parses only the zero-padded, ASCII-digit, fixed-width shape. Python's `strptime` accepts more spellings, and the model treats each of them as raising:
  - unpadded fields such as `2024-1-5`;
  - a space-padded day, the `%d` alternative `" [1-9]"`, such as `2024-01- 5`;
  - non-ASCII decimal digits, because `\d` is compiled without `re.ASCII`.
- Timestamps.ParseDateTime: fixed-width only, for the same reasons. It also does not accept what `strptime` accepts for the format's single space, which is any run of whitespace (`\s+`).
- Timestamps.FormatDateTime: always pads the year to four digits. Some platforms' `strftime` print years below 1000 unpadded.
- Server.ReviewAnalyzerServer.Get: when `strptime` raises, the reply is only `Raised`. The error response the WSGI server then sends is not modelled.
- Server.ReviewAnalyzerServer.Post: requires the new id to be unused by any stored review. This stands for the uniqueness of `uuid4`, which the source takes for granted.
- JSON serialisation (`json.dumps`) and the response headers are not modelled. The dead `json.dumps(reviews)` at server.py:42, whose result is discarded, is not modelled either. Neither is the `Content-Length` header, which is only the byte length of the body.
- The answer's `Payload` holds the records themselves. Their JSON is not modelled.
- Reading `CONTENT_LENGTH` and `wsgi.input` and decoding the body (server.py:101-102) are left out. So is `parse_qs` itself (server.py:49, 105). Query and form fields arrive as the name-to-values map that `parse_qs` returns, with no empty value lists.
- `PATH_INFO` (server.py:52) is read and never used, so it is not modelled.
- `SortDescending` is an insertion sort, not Python's timsort. `Ranking.SortIsTheStableSort` shows that every stable descending sort gives the same list, so the outputs agree.
- The `__main__` block, `PORT` and the WSGI server loop (server.py:176-181) are process plumbing. Concurrency is left out: `serve_forever` (server.py:181) serves one request at a time.
