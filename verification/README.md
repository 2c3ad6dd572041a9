# Strava incremental sync: a Dafny model of the run protocol

The Cloud Function `nunis-ingest-function` copies a Strava athlete's activities
into a BigQuery table. Each invocation does the following:

1. It downloads an INI configuration from a Cloud Storage bucket.
2. It exchanges the stored refresh token for an access token and a rotated
   refresh token.
3. It pages through the activity API. Every request carries `per_page = 200` and
   an `after` bound. In `load_new` mode the bound is the stored cursor
   `strava_current_epoch`; in `load_all` mode it is 0. The function stops at the
   first page that holds fewer than 200 records.
4. When anything came back, it loads the records into `project.dataset.table` and
   archives the raw response to the bucket. A `load_all` load truncates the
   table; a `load_new` load appends to it.
5. It writes the configuration back. The write-back always carries the rotated
   refresh token. It carries a new cursor, the time the page loop ended, only
   when records were fetched.

This project models that protocol as `main.py` writes it:

- **`Ingest.IngestFunction`** is the function as an object.
  - Its fields are the module-level globals: ACTION, CONFIGURATION,
    STRAVA_ACCESS_TOKEN, CALLED_EPOCH and WRITE_EPOCH.
  - A further field logs every request made to an outside service.
  - Each Python function is a method that updates those fields in place.
  - A raised exception is a `Fail` / `Err` result that `Run` passes on at once.
- **`Steps`** states each method's effect as a pure function from the globals
  before the call to the globals after it, together with the call's result.
  - Every method is proved to follow its step.
  - `Invoke` composes the steps as `run` does, and `Run` is proved equal to it.
- **`Invocation`** describes one invocation declaratively, as `Expected`.
  - `Expected` lists the calls phase by phase: startup, token, pages, load,
    archive, write-back.
  - `InvokeMatchesExpected` proves that the step-by-step run makes exactly those
    calls, in that order, and ends the same way.
  - The protocol's guarantees are lemmas about `Expected`. One of them covers two
    consecutive runs: the cursor written by one run is the `after` bound of
    every page request of the next.
- **`Protocol`** holds the data and the pure decisions:
  - cursor selection;
  - where pagination stops;
  - the in-order accumulation of records;
  - the write disposition;
  - the destination name.
- **`EpochText`** writes the cursor as decimal text and proves that reading the
  text back gives the same number.

Outside services are not called. A `World` value holds what each of them answers
during one invocation:

- the two environment variables;
- the stored configuration, or a storage failure;
- the token grant;
- the page responses;
- the clock;
- the cursor parser `int(float(s))`;
- the load job;
- the archive and upload results.

A blank cursor is handled as the code handles it. `main.py:94` tests
`not current_epoch and not current_epoch.strip()`, so only the empty string
means "no cursor, fetch everything". A whitespace-only cursor goes to
`int(float(...))`, which reads such a string as an error.

## Model

| member | source | states |
|---|---|---|
| `EpochText.Text` | main.py:172 | the written cursor is a non-empty string of decimal digits with no leading zero |
| `EpochText.ValueOfText` | main.py:172 | reading the written cursor back as a number gives the epoch that was written |
| `Protocol.SelectAfter` | main.py:89-98 | `load_all` selects 0 whatever is stored; otherwise an empty cursor selects 0 and any other cursor, whitespace-only ones included, selects what the parser makes of it (None when it raises) |
| `Protocol.FirstStop` | main.py:100-121 | the loop ends at the first response that is short (under 200 records) or failed; every earlier response was a full page |
| `Protocol.CollectedExtends` | main.py:114 | accumulation only appends: the records of the first m pages, then page m's records, stand unchanged at the front of what any later page count gives |
| `Protocol.CollectedEmpty` | main.py:114-117 | nothing has accumulated exactly when every page so far was empty, which is when WRITE_EPOCH stays down |
| `Protocol.PageCallsAt` | main.py:103-107 | the i-th request asks for page i + 1 with per_page 200, the selected bound and the bearer token, and there are exactly n of them |
| `Protocol.DispositionFor` | main.py:133-137 | the load truncates exactly in `load_all` mode and appends in every other mode |
| `Protocol.Destination` | main.py:142-146 | the destination exists exactly when project, dataset and table are configured, and is `project.dataset.table` |
| `Steps.ReadConfig` | main.py:34-56 | a missing GCS_BUCKET or CONFIG_FILE fails with nothing changed; otherwise exactly one download of that file, which fails on a storage error and on success merges the stored keys over the current ones, stored values winning and other keys kept; nothing but the configuration and the log changes |
| `Steps.LoadToken` | main.py:59-79 | a missing client id, secret or refresh token fails with nothing changed; otherwise exactly one exchange, which fails without a grant and on success stores the granted refresh token, keeps every other key and sets the access token to the granted one |
| `Steps.Fetch` | main.py:82-123 | a missing cursor key or an unreadable cursor fails with nothing changed; otherwise the page loop runs; on success it returns the records of pages 1 to the first short page, sets CALLED_EPOCH to the loop-end time, and WRITE_EPOCH is raised iff it was already or records came back; on failure CALLED_EPOCH is untouched; no setting changes |
| `Steps.Paginate` | main.py:100-121 | exactly the requests for pages 1 to k + 1 are made, k + 1 being the first short or failed response; the loop succeeds iff that response is a page; a failure leaves CALLED_EPOCH alone and raises WRITE_EPOCH iff some earlier page had records |
| `Steps.Import` | main.py:126-151 | a missing project, dataset or table fails before any call; otherwise exactly one load of the given records to `Destination` with `DispositionFor(ACTION)`, which succeeds iff a job comes back, with its id |
| `Steps.ArchiveRows` | main.py:154-166 | no call is made iff the table setting or the bucket is missing; otherwise exactly one archive write; it succeeds iff the table and bucket exist and the write succeeds |
| `Steps.WriteConfig` | main.py:169-191 | the cursor is overwritten with CALLED_EPOCH's text iff WRITE_EPOCH is raised, every other key is kept; the log gains exactly one upload, carrying the resulting configuration, iff the bucket and file are set; it succeeds iff that upload was made and succeeded |
| `Steps.Invoke` | main.py:194-205 | the mode is the payload or `load_new`; a missing environment variable fails with no call made; a successful run has made calls and the last one uploads the final configuration to the configured file |
| `Steps.Sync` | main.py:201-205 | from the page loop on, the run never reports a missing environment and a success ends with the upload of the final configuration |
| `Steps.Store` | main.py:202-205 | from the load on, the run never reports a missing environment and a success ends with the upload of the final configuration |
| `Invocation.Expected` | main.py:194-205 | the reference trace: each phase but the page loop makes at most one call, and each phase happens only after the one before it (the token after startup, pages after the token, load and write-back after pages, archive after load); a success has written back |
| `Invocation.Fetching` | main.py:82-123 | from the page loop on: the earlier phases are kept, the page phase, when it happens, is exactly k + 1 requests, the later phases make at most one call each and in order, and a success has written back |
| `Invocation.Storing` | main.py:202-205 | after a successful page loop: no load or archive without records; a load, when made, is the whole fetched list to `Destination` with the mode's disposition; an archive only after a load; the run succeeds iff it wrote back and the upload succeeded |
| `Invocation.InvokeMatchesExpected` | main.py:194-205 | the composed steps make exactly the calls of the phase-by-phase reference, in order, and end with the same outcome |
| `Invocation.SyncMatchesFetching` | main.py:201-205 | from the page loop on, the steps agree with the reference's fetch phase and everything after it |
| `Invocation.StoreMatchesStoring` | main.py:202-205 | after a successful page loop, the steps agree with the reference's load, archive and write-back phases |
| `Invocation.MissingEnvironmentCallsNothing` | main.py:36-42 | without GCS_BUCKET or CONFIG_FILE the run fails at startup before any outside call |
| `Invocation.PagesRequestedUpToFirstShortPage` | main.py:100-121 | pages are requested iff every step before the loop succeeded; they are pages 1 to k + 1, where k + 1 is the first short or failed page; all requests use per_page 200, the selected bound and the exchanged access token; every earlier page was full |
| `Invocation.FullModeResetsCursorAndTruncates` | main.py:91-93 | in `load_all` mode every request has `after = 0` and every load truncates |
| `Invocation.IncrementalModeUsesCursorAndAppends` | main.py:94-98 | in any other mode every request's bound is 0 for an empty stored cursor and the parsed cursor otherwise, and every load appends |
| `Invocation.LoadAndArchiveOnlyWhenRecordsExist` | main.py:201-204 | the load and the archive each happen at most once, with the whole fetched list, only when it is non-empty; a successful run has loaded and archived iff something was fetched |
| `Invocation.WriteBackOnlyAtTheEnd` | main.py:199-205 | the write-back happens at most once and is the last call; a run without it has failed; the run succeeds iff it wrote back and the upload succeeded; a write-back means every earlier step succeeded |
| `Invocation.EmptyFetchWritesBackRotatedToken` | main.py:199-205 | when every step before the loop succeeds and the loop ends on a page with nothing fetched, nothing is loaded or archived and the run writes back the stored configuration with the rotated refresh token, succeeding iff that upload does |
| `Invocation.RecordsAreLoadedArchivedAndWrittenBack` | main.py:199-205 | when every step before the loop succeeds, the loop ends on a page, records came back and the destination is set, the whole list is loaded; a returned job leads to the archive; a successful archive leads to the write-back with the loop-end cursor and the rotated token, succeeding iff that upload does |
| `Invocation.WriteBackRotatesTokenAndGatesCursor` | main.py:170-174 | the written configuration has the stored keys, the refresh token from the exchange, the stored cursor unchanged when nothing was fetched and the loop-end time otherwise, and every other value unchanged |
| `Invocation.NextRunResumesFromWatermark` | main.py:89-98 | after a successful run that loaded records, the next incremental run requests every page after this run's loop-end time, given a parser that reads decimal numerals below `EpochLimit` exactly and a clock below it |
| `Ingest.IngestFunction.constructor` | main.py:24-28 | a fresh process starts in `load_new` mode with an empty configuration, no token, no CALLED_EPOCH and WRITE_EPOCH down |
| `Ingest.IngestFunction.ReadConfigFromBucket` | main.py:34-56 | missing environment variables fail before any call; otherwise one download, after which a storage failure fails and success merges the stored keys over the current ones |
| `Ingest.IngestFunction.LoadStravaAccessToken` | main.py:59-79 | missing credentials fail before the exchange; otherwise one exchange with the stored id, secret and refresh token, which on success rotates the stored refresh token and keeps the access token |
| `Ingest.IngestFunction.FetchStravaActivities` | main.py:82-123 | follows `Steps.Fetch`: a missing or unreadable cursor fails before any request; otherwise the page loop makes the requests and sets the flags `Steps.Fetch` states |
| `Ingest.IngestFunction.ImportActivitiesToBq` | main.py:126-151 | one load of the given records to `Destination` with `DispositionFor(ACTION)`; a missing table setting fails before the load |
| `Ingest.IngestFunction.WriteResponseToGcs` | main.py:154-166 | one archive write under `nunis-ingest-function/<table>-`; a missing table setting or bucket fails |
| `Ingest.IngestFunction.WriteConfigToBucket` | main.py:169-191 | follows `Steps.WriteConfig`: the cursor is gated by WRITE_EPOCH, then one upload of the whole configuration |
| `Ingest.IngestFunction.Run` | main.py:194-205 | from a fresh process, makes exactly the calls of `Expected` in order and returns its outcome, so every lemma above holds of the object |

## Left out

- Logging, and the Cloud Storage, BigQuery, Strava and Cloud Logging clients. They are not called. What they answer is part of `World`, and what is asked of them is recorded as a `Call`.
- Serialising the configuration as INI text. It is a map from (section, option) to text. Sections that hold no keys are not represented.
- Decoding the base64 payload. `Run` takes the decoded action, or none when the event has no `data`. A payload that fails to decode is not modelled.
- Floating point. The clock is a whole number of seconds. The written cursor is its decimal text, where the code writes Python's float repr (for example `1700000000.123`). `int(float(s))` is the oracle `parseEpoch`, which is None when it raises. Its log line, `datetime.fromtimestamp`, can also raise; that counts as part of the same None.
- The archive object's timestamp suffix. `Archive` records the name up to it, `nunis-ingest-function/<table>-`.
- Ingest.IngestFunction.Run: requires a fresh process (the module-level initial values). A warm Cloud Functions instance keeps ACTION, WRITE_EPOCH and CALLED_EPOCH from the previous invocation; that carry-over is not modelled.
- Protocol.FirstStop: requires the page source to answer some request with a short page or a failure (`Terminates`). A source that returns full pages forever makes the code loop forever, and that case is not modelled.
- A page body that is JSON but not a list. An error object, for example, would be iterated by `activities += data` as its keys. Each response is modelled as a list of records or a failure, and a failed `resp.json()` counts as a failure.
- A token response holding only one of `access_token` and `refresh_token`. The grant holds both or the exchange fails.
- Concurrent invocations, and their race on the stored configuration.
- Ingest.IngestFunction.FetchStravaActivities: the page requests of one call are appended to the call log when the loop ends, not one by one. Nothing else is requested while the loop runs, so the log's order is the same.
- Invocation.NextRunResumesFromWatermark: assumes the cursor parser reads every decimal numeral below `EpochLimit` (253402300800, the start of the year 10000) as its value, and that the loop-end time is below it. Above it `datetime.fromtimestamp` raises, and floats above 2^53 lose precision.
