# Retry wrapper and report builder of the Reddit comment-count script

This project models, in Dafny, the two pieces of sequential logic inside a
script that reads a spreadsheet of submission links, fetches each submission
from the Reddit API, counts the entries of its `comments` attribute
(`len(submission.comments)`, not a total the platform reports), and writes the
low-engagement ones into a traffic-sorted report workbook.

**The rate limiter** (`rate_limiter.dfy`, module `RateLimiter`).
`APIRateLimiter.rate_limit` wraps a coroutine in a retry loop. Here the
coroutine is a script `op`, where `op(i)` is what its i-th call returns or
raises. A call can raise a `ResponseError(status)`, a transport
`RequestError`, or some other exception. The random jitter is an input
`jitter`, limited to what `random.uniform(0, delay * 0.1)` can return.
`Wrapper` is the loop itself, as a method. `RetrySpec` says in closed form
what the loop does, and the lemmas state the promised properties about it:

- attempt counts and wait counts;
- which failures are retried;
- the backoff schedule `initial_delay * 2^(r-1)` and the bounds on each wait;
- when the fallback call after the loop is reached.

The model follows the code on two points:

- The backoff sleep happens inside `async with self.semaphore`, so a
  retrying call keeps its concurrency slot while it sleeps. Every recorded
  backoff belongs to an attempt that holds the slot.
- `max_retries` is an `int`. With a negative value the loop body never runs,
  and the unguarded call after the loop is the only call made. The model
  proves that this is the only case in which that call is reached.

**The report** (`sheet_rows.dfy`, `excel_handler.dfy`, `reddit_client.dfy`).
The output workbook is an ordered list of named sheets. Each sheet is an
ordered list of rows `(url, comments, traffic)`. `ExcelHandler` is a class
whose `sheets` field its methods update in place:

- get-or-create with the fixed header;
- append a row;
- delete the data rows and re-append them;
- sort every sheet.

Pure functions give the workbook each method must produce. The lemmas prove
properties of those functions:

- nothing else changes;
- the header is kept;
- sorting gives a permutation, in non-increasing traffic order, and stable;
- sorting twice changes nothing, sheet by sheet and for the whole workbook;
- every data row stays on the sheet its comment count belongs to.

`RedditAPIClient` holds the skip rules (invalid URL, locked, archived), the
classification by comment count, the nested loop that queues one task per
input row, and `run`. Traffic labels are compared as Python compares `str`
values, by code point. So the report puts "medium" above "low" above "high"
(`SheetRows.SortIsLexical`).

## Model

| member | source | states |
|---|---|---|
| `RateLimiter.Retryable` | rate_limiter.py:31-33 | a RequestException is always retried; a ResponseException is retried exactly when its status is 429; any other exception is never caught |
| `RateLimiter.BaseDelay` | rate_limiter.py:17 | the first retry's base delay is exactly initial_delay, and with a non-negative initial_delay no base delay is smaller than it |
| `RateLimiter.LimiterDefaults` | rate_limiter.py:10-13 | the constructor defaults are max_retries 3, initial_delay 1.0 and 10 concurrent requests; main.py's limiter uses initial_delay 5.0, so its base delays are 5, 10 and 20 seconds |
| `RateLimiter.WaitTime` | rate_limiter.py:18-19 | with jitter between 0 and delay*0.1, the wait lies between delay and 1.1*delay (in that order when delay >= 0); the wait equals the delay exactly when the jitter is 0 |
| `RateLimiter.BaseDelaySchedule` | rate_limiter.py:17 | the first backoff uses exactly initial_delay; each later base delay is twice the one before |
| `RateLimiter.BaseDelayMonotonic` | rate_limiter.py:17 | with a non-negative initial delay, base delays never shrink as the retry number grows |
| `RateLimiter.FailStreak` | rate_limiter.py:27-35 | counts the leading retryable failures among the first n calls: all of them are retryable and the next call (if within n) is not |
| `RateLimiter.Wrapper` | rate_limiter.py:25-39 | the retry loop produces exactly the run RetrySpec describes; with max_retries >= 0 every call happens inside the semaphore |
| `RateLimiter.RetriedAttemptsShape` | rate_limiter.py:34-38 | after k retryable failures there have been k calls, all holding the slot, and k backoffs; backoff i is for retry i+1 and waits the jittered base delay for i+1; no error has been logged |
| `RateLimiter.AlwaysRetryableExhausts` | rate_limiter.py:26-37 | an operation that always fails retryably is called max_retries+1 times, with max_retries backoffs and one error log, and its last failure is re-raised |
| `RateLimiter.TransportFailuresExhaust` | rate_limiter.py:31-32 | a RequestException is always retried, so an operation that always fails in transport exhausts the retries and re-raises the transport failure |
| `RateLimiter.StopsAtFirstNonRetryable` | rate_limiter.py:30-35 | after k <= max_retries retryable failures, a call that returns or raises something else ends the run: k+1 calls, k backoffs, no error log, and that call's outcome passed through unchanged |
| `RateLimiter.NonRateLimitErrorPropagates` | rate_limiter.py:32-33 | a response error with a status other than 429 on the first call is re-raised at once, whatever max_retries is: one call, no backoff |
| `RateLimiter.BackoffSchedule` | rate_limiter.py:16-19 | in every run, backoff i is for retry i+1, its wait lies between the base delay and 1.1 times it, and there are at most max_retries backoffs |
| `RateLimiter.FallbackReachedIffNegativeBudget` | rate_limiter.py:27-39 | the unguarded call after the loop happens if and only if max_retries is negative |
| `SheetRows.SortByTraffic` | main.py:130 | the sorted list has as many rows as the input (that it is a stable, non-increasing permutation is SortByTrafficCorrect) |
| `SheetRows.SortByTrafficCorrect` | main.py:130 | the sort keeps the length, is a permutation, is non-increasing by traffic, and keeps the relative order of the rows within each traffic label (stable) |
| `SheetRows.SortByTrafficKeepsSorted` | main.py:130 | rows already in non-increasing traffic order come back unchanged |
| `SheetRows.SortIsLexical` | main.py:130 | labels "low", "high", "medium" are sorted as text, giving medium, low, high |
| `Excel.SheetIndex` | main.py:115-116 | finds the first sheet with the given name, and finds none exactly when no sheet has that name |
| `Excel.WithRow` | main.py:106-120 | after a write, the sheet names are the old names, plus the new name at the end when it was absent; every sheet with another name is unchanged; an existing sheet gains the row at its end; a new sheet holds the header and the row; distinct names stay distinct |
| `Excel.WithRowExisting` | main.py:114-116 | writing to an existing sheet changes that sheet alone, by appending exactly one row and no header |
| `Excel.WithRowNew` | main.py:117-120 | writing to an absent sheet appends one new sheet holding the header and then the row, after all the others |
| `Excel.SortedWorkbook` | main.py:122-126 | sorting keeps the number of sheets and sorts each sheet on its own |
| `Excel.SortSheetDataByTraffic` | main.py:129-130 | a sheet with at most one row yields no data rows; otherwise the data rows number one fewer than the sheet's rows, the first row being left out |
| `Excel.HeaderRows` | main.py:133 | deleting from row 2 on leaves the first row of a non-empty sheet, and nothing of an empty one |
| `Excel.SortedSheetShape` | main.py:129-135 | a sorted sheet keeps its name, its first row and its row count; its other rows are a permutation of the old ones, non-increasing by traffic, and stable within each label |
| `Excel.SortedSheetIdempotent` | main.py:129-135 | sorting a sheet a second time changes nothing |
| `Excel.SortedWorkbookIdempotent` | main.py:122-135 | sorting the whole workbook a second time changes nothing |
| `Excel.SortedWorkbookNames` | main.py:123-126 | sorting keeps the sheet names and their order |
| `Excel.ExcelHandler.constructor` | main.py:83 | a new write workbook holds one empty sheet called "Sheet" |
| `Excel.ExcelHandler.GetOrCreateSheet` | main.py:114-120 | an existing sheet is returned and nothing changes; otherwise one sheet holding just the header is appended at the end and returned |
| `Excel.ExcelHandler.WriteDataToSheet` | main.py:106-108 | the workbook afterwards is WithRow of the workbook before, and sheet names stay distinct |
| `Excel.ExcelHandler.ReplaceSheetData` | main.py:132-135 | only the chosen sheet changes: it keeps its first row, followed by the given rows in order |
| `Excel.ExcelHandler.SortOutputByTraffic` | main.py:122-127 | the workbook afterwards is SortedWorkbook of the workbook before |
| `RedditClient.Classify` | main.py:52-56 | a count of 0 gives the row (url, 0, traffic) on "No comments"; a count from 1 to 3 gives (url, count, traffic) on "3 or less comments"; a larger count gives no row |
| `RedditClient.SubmissionWrite` | main.py:38-48 | a row is written if and only if the URL is valid, the submission is neither locked nor archived, and it has at most 3 comments; the row is the one Classify gives |
| `RedditClient.SubmissionWriteFits` | main.py:38-56 | a write keeps every data row on the sheet its count belongs to |
| `RedditClient.SortedWorkbookFits` | main.py:122-135 | sorting keeps every data row on the sheet its count belongs to |
| `RedditClient.SheetTasksRows` | main.py:64-71 | a sheet queues exactly one task per row, in row order, leaving out row 0 when skip_header is set |
| `RedditClient.NoTasksForHeaderOnly` | main.py:66-68 | with skip_header, a sheet that is empty or holds only a header queues nothing |
| `RedditClient.QueueTasks` | main.py:64-71 | the nested loop builds the tasks of all sheets, sheet after sheet |
| `RedditClient.ProcessAll` | main.py:73 | processing the tasks keeps the existing sheets' names in place and can only append sheets, each named "No comments" or "3 or less comments" |
| `RedditClient.ProcessAllKeepsValid` | main.py:73 | processing any sequence of tasks keeps sheet names distinct and every data row on its sheet |
| `RedditClient.RunKeepsRowsOnTheirSheets` | main.py:58-75 | after run, "No comments" holds only zero counts and "3 or less comments" only counts from 1 to 3 |
| `RedditClient.ClassificationScenario` | main.py:52-56 | submissions with 0, 2 and 10 comments on a fresh workbook yield a "No comments" sheet with the first, a "3 or less comments" sheet with the second, and nothing for the third |
| `RedditClient.RedditAPIClient.constructor` | main.py:23-29 | a new client owns a fresh handler with an empty default sheet |
| `RedditClient.RedditAPIClient.WriteCommentsToExcel` | main.py:52-56 | the workbook gains the row Classify chooses, or is unchanged when there is none |
| `RedditClient.RedditAPIClient.GetSubmissionComments` | main.py:38-48 | the workbook gains the row SubmissionWrite chooses, or is unchanged for a skipped submission |
| `RedditClient.RedditAPIClient.Run` | main.py:58-75 | with no input data, nothing is queued and the workbook is unchanged (no sort); otherwise one task is queued per row, each writes its row, and then every sheet is sorted |

## Left out

- Concurrency: the `asyncio.Semaphore` admission control (rate_limiter.py:13, 28) and `asyncio.gather` (main.py:73). `max_concurrent_requests` is only stored. The model keeps only the fact that each wrapped call, and the backoff after it, happen while the call holds a slot.
- Sleeping and randomness: `asyncio.sleep` and `random.uniform` (rate_limiter.py:18, 21). The wait is a recorded value, and the jitter is an input within the range uniform can return.
- Floating point: delays and waits are exact reals, not Python floats.
- Logging: the messages and their text are left out, and so is `args[1]` (the target named in the error message). The run record keeps only where a backoff warning and the "max retries exceeded" error occur.
- The Reddit client: creating it, `reddit.submission`, `len(submission.comments)` and `reddit.close` (main.py:24-35, 40, 47). What the platform answers for a task is an input `Fetch`.
- RedditClient.RedditAPIClient.Run: the tasks finish in queue order, and each one's answer is given as a `Fetch`. So the model covers one completion order of `gather`. It also leaves out a wrapped call that exhausts its retries or raises a non-retryable error, which would abort `gather` before the sort. The retry wrapper is modelled on its own, not composed with `get_submission_comments`.
- Spreadsheet file I/O: `read_data`, `_extract_data_from_workbook`, `load_workbook`, `_save_workbook` and their error handling (main.py:85-104, 109, 111-112, 127). `Run` takes the result of `read_data` as an `Option`, where `None` is what the three error branches return.
- openpyxl internals: the model takes `delete_rows(2, max_row)` to remove every row after the first, and `append` to add a row right after the last one.
- Sort keys: traffic is always a string. With cell values of mixed types, Python's sort would raise a TypeError (main.py:130).
- Row shape: `url, traffic = row` (main.py:69) is a precondition (`Unpackable`) rather than a modelled ValueError.
- Environment, CLI and timing: `load_dotenv`, `logging.basicConfig`, `sys.argv`, `time.time`, `main` (main.py:14-18, 138-153).
