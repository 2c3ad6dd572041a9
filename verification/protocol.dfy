/**
  Data of the incremental-sync job and the pure decisions it takes.

  The configuration is an INI document read as a map from (section, option) to
  text. Every outside service (object storage, the token exchange, the activity
  API, the warehouse) appears only as the answers collected in a `World`, and
  every request made to one of them is recorded as a `Call`.
 */
module Protocol {
  import EpochText

  datatype Option<+T> = None | Some(value: T)

  const FunctionName: string := "nunis-ingest-function"
  const LoadNew: string := "load_new"
  const LoadAll: string := "load_all"
  /** The fixed `per_page` of every activity request. */
  const PerPage: nat := 200

  datatype Key = Key(section: string, option: string)
  type Configuration = map<Key, string>

  const ClientId: Key := Key("strava_client", "strava_client_id")
  const ClientSecret: Key := Key("strava_client", "strava_client_secret")
  const RefreshToken: Key := Key("strava_client", "strava_refresh_token")
  const CurrentEpoch: Key := Key("strava_client", "strava_current_epoch")
  const ProjectId: Key := Key("gcp_dwh", "gcp_project_id")
  const Dataset: Key := Key("gcp_dwh", "gcp_bq_dataset")
  const Table: Key := Key("gcp_dwh", "gcp_bq_table")

  /** One activity record as the API returns it; its content is never inspected. */
  datatype Activity = Activity(json: string)

  /** The `access_token` / `refresh_token` pair of a successful token exchange. */
  datatype TokenGrant = TokenGrant(accessToken: string, refreshToken: string)

  /** The answer to one page request: the records of that page, or a failed request. */
  datatype PageResponse = Records(items: seq<Activity>) | ApiFailure

  datatype PageRequest = PageRequest(page: nat, perPage: nat, after: int, bearer: string)

  datatype Disposition = WriteTruncate | WriteAppend

  /** A request made to an outside service, in the order the job makes it. */
  datatype Call =
    | DownloadConfig(bucket: string, path: string)
    | ExchangeToken(clientId: string, clientSecret: string, refreshToken: string)
    | GetPage(request: PageRequest)
    | LoadTable(rows: seq<Activity>, destination: string, disposition: Disposition)
    | Archive(bucket: string, objectPrefix: string, rows: seq<Activity>)
    | UploadConfig(bucket: string, path: string, contents: Configuration)

  /** Every failure is fatal: the run stops at the first one. */
  datatype Failure =
    | MissingEnvironment  // GCS_BUCKET or CONFIG_FILE is not set
    | StorageError        // a transaction with object storage failed
    | MissingSetting      // a configuration key is missing (KeyError)
    | IdentityError       // the token exchange failed
    | BadEpoch            // the stored cursor is not a number (ValueError)
    | SourceApiError      // a page request failed
    | WarehouseError      // the load job could not be submitted

  datatype Outcome = Success | Fail(failure: Failure)

  datatype Result<T> = Ok(value: T) | Err(failure: Failure)

  /**
    What the outside world answers during one invocation.
    `pages[i]` answers the request for page i + 1; `parseEpoch` is `int(float(s))`
    (None when it raises); `clock` is the reading of the clock when the page loop ends.
   */
  datatype World = World(
    gcsBucket: Option<string>,
    configFile: Option<string>,
    storedConfig: Option<Configuration>,
    grant: Option<TokenGrant>,
    pages: seq<PageResponse>,
    clock: nat,
    parseEpoch: string -> Option<int>,
    loadJob: Option<string>,
    archiveOk: bool,
    uploadOk: bool)

  /**
    The `after` bound of every page request, chosen from the run mode and the
    stored cursor. The test is `not epoch and not epoch.strip()`; its second half
    holds whenever the first does, so only the empty string counts as "no cursor"
    and a whitespace-only cursor goes to the parse.
   */
  function SelectAfter(action: string, epoch: string, parse: string -> Option<int>): (after: Option<int>)
    ensures action == LoadAll ==> after == Some(0)
    ensures action != LoadAll && epoch == "" ==> after == Some(0)
    ensures action != LoadAll && epoch != "" ==> after == parse(epoch)
  {
    if action == LoadAll then Some(0)
    else if epoch == "" then Some(0)
    else parse(epoch)
  }

  /** A response that ends pagination: a failed request or a short page. */
  predicate Stops(p: PageResponse) {
    p.ApiFailure? || |p.items| < PerPage
  }

  /** The page source answers some request with a short page or a failure. */
  predicate Terminates(pages: seq<PageResponse>) {
    exists k :: 0 <= k < |pages| && Stops(pages[k])
  }

  /** The index of the first response that ends pagination. */
  function FirstStop(pages: seq<PageResponse>): (k: nat)
    requires Terminates(pages)
    ensures k < |pages| && Stops(pages[k])
    ensures forall j :: 0 <= j < k ==> !Stops(pages[j])
    decreases |pages|
  {
    if Stops(pages[0]) then 0
    else
      assert Terminates(pages[1..]) by {
        var k :| 0 <= k < |pages| && Stops(pages[k]);
        assert k > 0 && Stops(pages[1..][k - 1]);
      }
      1 + FirstStop(pages[1..])
  }

  function Items(p: PageResponse): seq<Activity> {
    if p.Records? then p.items else []
  }

  /** The records of the first n responses, page after page, in API order. */
  function Collected(pages: seq<PageResponse>, n: nat): seq<Activity>
    requires n <= |pages|
  {
    if n == 0 then [] else Collected(pages, n - 1) + Items(pages[n - 1])
  }

  /**
    Accumulation only appends: what the first m pages gave stands, unchanged, at
    the front of what the first n pages give, and page m's records follow it.
   */
  lemma {:induction false} CollectedExtends(pages: seq<PageResponse>, m: nat, n: nat)
    requires m < n <= |pages|
    ensures Collected(pages, m) + Items(pages[m]) <= Collected(pages, n)
    decreases n
  {
    if n > m + 1 {
      CollectedExtends(pages, m, n - 1);
    }
  }

  /** Nothing was accumulated exactly when every page so far was empty. */
  lemma {:induction false} CollectedEmpty(pages: seq<PageResponse>, n: nat)
    requires n <= |pages|
    ensures Collected(pages, n) == [] <==> forall j :: 0 <= j < n ==> Items(pages[j]) == []
  {
    if n > 0 {
      CollectedEmpty(pages, n - 1);
      var before, last := Collected(pages, n - 1), Items(pages[n - 1]);
      assert Collected(pages, n) == before + last;
      assert |before + last| == |before| + |last|;
    }
  }

  /** The warehouse write disposition: truncate exactly for `load_all`. */
  function DispositionFor(action: string): (d: Disposition)
    ensures d == WriteTruncate <==> action == LoadAll
    ensures d == WriteAppend <==> action != LoadAll
  {
    if action == LoadAll then WriteTruncate else WriteAppend
  }

  /** The `project.dataset.table` destination, when the `gcp_dwh` section names all three. */
  function Destination(config: Configuration): (dest: Option<string>)
    ensures dest.Some? <==> ProjectId in config && Dataset in config && Table in config
    ensures dest.Some? ==> dest.value == config[ProjectId] + "." + config[Dataset] + "." + config[Table]
  {
    if ProjectId in config && Dataset in config && Table in config
    then Some(config[ProjectId] + "." + config[Dataset] + "." + config[Table])
    else None
  }

  /** The archive object name up to its timestamp: `<function>/<table>-`. */
  function ArchivePrefix(table: string): string {
    FunctionName + "/" + table + "-"
  }

  /** The first n page requests, pages 1 to n, all with the same bound and token. */
  function PageCalls(after: int, bearer: string, n: nat): (calls: seq<Call>)
    ensures |calls| == n
  {
    if n == 0 then [] else PageCalls(after, bearer, n - 1) + [GetPage(PageRequest(n, PerPage, after, bearer))]
  }

  /** Request i (counting from 0) asks for page i + 1 of 200 records with the given bound and token. */
  lemma {:induction false} PageCallsAt(after: int, bearer: string, n: nat)
    ensures forall i :: 0 <= i < n ==> PageCalls(after, bearer, n)[i] == GetPage(PageRequest(i + 1, PerPage, after, bearer))
  {
    if n > 0 {
      PageCallsAt(after, bearer, n - 1);
    }
  }

  /**
    The first second of the year 10000. `datetime.fromtimestamp` raises from
    here on, so the parser (which logs the date) is None on such cursors.
    Every smaller whole number is below 2^53, so `float` holds it exactly.
   */
  const EpochLimit: nat := 253402300800

  /**
    The epoch parser reads every decimal numeral below `EpochLimit` as the
    number it denotes, as `int(float(s))` does.
   */
  ghost predicate ReadsEpochNumerals(parse: string -> Option<int>) {
    forall s :: EpochText.IsNumeral(s) && EpochText.Value(s) < EpochLimit ==> parse(s) == Some(EpochText.Value(s))
  }
}
