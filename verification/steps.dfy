/**
  What each function of main.py does to the module-level globals, as a pure
  function from the globals before the call to the globals after it and the
  call's result. The methods of `Ingest.IngestFunction` are proved to follow
  these steps; `Invoke` composes them the way `run` does.
 */
module Steps {
  import opened Protocol
  import EpochText

  /**
    ACTION, CONFIGURATION, STRAVA_ACCESS_TOKEN, CALLED_EPOCH and WRITE_EPOCH,
    plus the requests made to outside services so far, oldest first.
    `calledEpoch` is None while CALLED_EPOCH still holds its initial empty string.
   */
  datatype Globals = Globals(
    action: string,
    configuration: Configuration,
    accessToken: string,
    calledEpoch: Option<nat>,
    writeEpoch: bool,
    calls: seq<Call>)

  /** The values a fresh process starts from. */
  const Start: Globals := Globals(LoadNew, map[], "", None, false, [])

  /** The globals after a call, and what the call returned or raised. */
  datatype Step<T> = Step(after: Globals, result: T)

  /**
    read_config_from_bucket: only CONFIGURATION and the call log change. Without
    GCS_BUCKET or CONFIG_FILE it fails before any call; otherwise it downloads
    the configuration object once and succeeds exactly when the download does,
    every stored key then overriding the value held before.
   */
  function ReadConfig(g: Globals, w: World): (s: Step<Outcome>)
    ensures s.after.(configuration := g.configuration, calls := g.calls) == g
    ensures s.result == Fail(MissingEnvironment) <==> w.gcsBucket.None? || w.configFile.None?
    ensures s.result == Fail(MissingEnvironment) ==> s.after == g
    ensures s.result != Fail(MissingEnvironment) ==>
      s.after.calls == g.calls + [DownloadConfig(w.gcsBucket.value, w.configFile.value)]
    ensures s.result.Success? <==> w.gcsBucket.Some? && w.configFile.Some? && w.storedConfig.Some?
    ensures s.result.Success? ==>
      && s.after.configuration.Keys == g.configuration.Keys + w.storedConfig.value.Keys
      && (forall key :: key in w.storedConfig.value ==> s.after.configuration[key] == w.storedConfig.value[key])
      && (forall key :: key in g.configuration && key !in w.storedConfig.value ==> s.after.configuration[key] == g.configuration[key])
    ensures s.result in {Success, Fail(MissingEnvironment), Fail(StorageError)}
  {
    if w.gcsBucket.None? || w.configFile.None? then Step(g, Fail(MissingEnvironment))
    else
      var g' := g.(calls := g.calls + [DownloadConfig(w.gcsBucket.value, w.configFile.value)]);
      if w.storedConfig.None? then Step(g', Fail(StorageError))
      else Step(g'.(configuration := g.configuration + w.storedConfig.value), Success)
  }

  /**
    load_strava_access_token: only CONFIGURATION, the access token and the call
    log change. With a credential missing it fails before the exchange;
    otherwise it makes one exchange with the stored client id, secret and refresh
    token. On success the refresh token is replaced by the rotated one, no other
    key changes, and the access token is the one granted.
   */
  function LoadToken(g: Globals, w: World): (s: Step<Outcome>)
    ensures s.after.(configuration := g.configuration, accessToken := g.accessToken, calls := g.calls) == g
    ensures var c := g.configuration;
      s.result == Fail(MissingSetting) <==> RefreshToken !in c || ClientId !in c || ClientSecret !in c
    ensures s.result == Fail(MissingSetting) ==> s.after == g
    ensures var c := g.configuration;
      s.result != Fail(MissingSetting) ==>
        s.after.calls == g.calls + [ExchangeToken(c[ClientId], c[ClientSecret], c[RefreshToken])]
    ensures s.result.Success? ==>
      && w.grant.Some?
      && s.after.configuration.Keys == g.configuration.Keys
      && s.after.configuration[RefreshToken] == w.grant.value.refreshToken
      && (forall key :: key in g.configuration && key != RefreshToken ==> s.after.configuration[key] == g.configuration[key])
      && s.after.accessToken == w.grant.value.accessToken
    ensures s.result == Fail(IdentityError) <==> s.result != Fail(MissingSetting) && w.grant.None?
    ensures s.result in {Success, Fail(MissingSetting), Fail(IdentityError)}
  {
    var c := g.configuration;
    if RefreshToken !in c || ClientId !in c || ClientSecret !in c then Step(g, Fail(MissingSetting))
    else
      var g' := g.(calls := g.calls + [ExchangeToken(c[ClientId], c[ClientSecret], c[RefreshToken])]);
      if w.grant.None? then Step(g', Fail(IdentityError))
      else Step(g'.(configuration := c[RefreshToken := w.grant.value.refreshToken],
                    accessToken := w.grant.value.accessToken), Success)
  }

  /**
    fetch_strava_activities: only the call log, WRITE_EPOCH and CALLED_EPOCH
    change. A missing cursor key or an unreadable cursor fails before any
    request; otherwise the pages are fetched with the selected bound.
   */
  function Fetch(g: Globals, w: World): (s: Step<Result<seq<Activity>>>)
    requires Terminates(w.pages)
    ensures s.after.(calls := g.calls, writeEpoch := g.writeEpoch, calledEpoch := g.calledEpoch) == g
    ensures s.result == Err(MissingSetting) <==> CurrentEpoch !in g.configuration
    ensures s.result == Err(BadEpoch) <==>
      CurrentEpoch in g.configuration && SelectAfter(g.action, g.configuration[CurrentEpoch], w.parseEpoch).None?
    ensures s.result in {Err(MissingSetting), Err(BadEpoch)} ==> s.after == g
    ensures s.result.Ok? ==>
      && s.result.value == Collected(w.pages, FirstStop(w.pages) + 1)
      && s.after.calledEpoch == Some(w.clock)
      && (s.after.writeEpoch <==> g.writeEpoch || s.result.value != [])
    ensures s.result.Err? ==> s.after.calledEpoch == g.calledEpoch
    ensures s.result.Err? ==> s.result.failure in {MissingSetting, BadEpoch, SourceApiError}
  {
    if CurrentEpoch !in g.configuration then Step(g, Err(MissingSetting))
    else
      var after := SelectAfter(g.action, g.configuration[CurrentEpoch], w.parseEpoch);
      if after.None? then Step(g, Err(BadEpoch))
      else Paginate(g, after.value, w)
  }

  /**
    The page loop: the requests are pages 1 to the first stopping page, with
    per_page 200, bound `after` and the held access token, appended to the log in
    that order. It succeeds exactly when that last page is a short page, and then
    returns every record of the requested pages; CALLED_EPOCH becomes the
    loop-end time only then. WRITE_EPOCH ends up raised when it already was or
    anything accumulated before the loop ended.
   */
  function Paginate(g: Globals, after: int, w: World): (s: Step<Result<seq<Activity>>>)
    requires Terminates(w.pages)
    ensures s.after.(calls := g.calls, writeEpoch := g.writeEpoch, calledEpoch := g.calledEpoch) == g
    ensures s.after.calls == g.calls + PageCalls(after, g.accessToken, FirstStop(w.pages) + 1)
    ensures s.result.Ok? <==> w.pages[FirstStop(w.pages)].Records?
    ensures s.result.Err? ==> s.result == Err(SourceApiError) && s.after.calledEpoch == g.calledEpoch
    ensures s.result.Ok? ==>
      && s.result.value == Collected(w.pages, FirstStop(w.pages) + 1)
      && s.after.calledEpoch == Some(w.clock)
      && (s.after.writeEpoch <==> g.writeEpoch || s.result.value != [])
    ensures s.result.Err? ==>
      (s.after.writeEpoch <==> g.writeEpoch || exists j :: 0 <= j < FirstStop(w.pages) && Items(w.pages[j]) != [])
  {
    var k := FirstStop(w.pages);
    CollectedEmpty(w.pages, k);
    var g' := g.(calls := g.calls + PageCalls(after, g.accessToken, k + 1));
    if w.pages[k].ApiFailure? then
      Step(g'.(writeEpoch := g.writeEpoch || Collected(w.pages, k) != []), Err(SourceApiError))
    else
      var rows := Collected(w.pages, k + 1);
      Step(g'.(writeEpoch := g.writeEpoch || rows != [], calledEpoch := Some(w.clock)), Ok(rows))
  }

  /**
    import_activites_to_bq: only the call log changes. Without the project,
    dataset and table settings it fails before any call; otherwise it submits
    one load of exactly the given records to `project.dataset.table`, truncating
    for `load_all` and appending otherwise, and succeeds exactly when the job is
    accepted, returning its id.
   */
  function Import(g: Globals, rows: seq<Activity>, w: World): (s: Step<Result<string>>)
    ensures s.after.(calls := g.calls) == g
    ensures s.result == Err(MissingSetting) <==> Destination(g.configuration).None?
    ensures s.result == Err(MissingSetting) ==> s.after == g
    ensures s.result != Err(MissingSetting) ==>
      s.after.calls == g.calls + [LoadTable(rows, Destination(g.configuration).value, DispositionFor(g.action))]
    ensures s.result.Ok? <==> Destination(g.configuration).Some? && w.loadJob.Some?
    ensures s.result.Ok? ==> s.result.value == w.loadJob.value
    ensures s.result.Err? ==> s.result.failure in {MissingSetting, WarehouseError}
  {
    var dest := Destination(g.configuration);
    if dest.None? then Step(g, Err(MissingSetting))
    else
      var g' := g.(calls := g.calls + [LoadTable(rows, dest.value, DispositionFor(g.action))]);
      Step(g', if w.loadJob.Some? then Ok(w.loadJob.value) else Err(WarehouseError))
  }

  /**
    write_response_to_gcs: only the call log changes. Without the table setting
    or the bucket it fails before any call; otherwise it writes the given records
    once under `nunis-ingest-function/<table>-` and succeeds exactly when that
    write does.
   */
  function ArchiveRows(g: Globals, rows: seq<Activity>, w: World): (s: Step<Outcome>)
    ensures s.after.(calls := g.calls) == g
    ensures s.after.calls == g.calls <==> Table !in g.configuration || w.gcsBucket.None?
    ensures s.after.calls != g.calls ==>
      s.after.calls == g.calls + [Archive(w.gcsBucket.value, ArchivePrefix(g.configuration[Table]), rows)]
    ensures s.result.Success? <==> Table in g.configuration && w.gcsBucket.Some? && w.archiveOk
    ensures s.result in {Success, Fail(MissingSetting), Fail(StorageError)}
  {
    if Table !in g.configuration then Step(g, Fail(MissingSetting))
    else if w.gcsBucket.None? then Step(g, Fail(StorageError))
    else
      var g' := g.(calls := g.calls + [Archive(w.gcsBucket.value, ArchivePrefix(g.configuration[Table]), rows)]);
      Step(g', if w.archiveOk then Success else Fail(StorageError))
  }

  /**
    write_config_to_bucket: only CONFIGURATION and the call log change. When
    WRITE_EPOCH is raised the stored cursor becomes the decimal text of
    CALLED_EPOCH (which fails if CALLED_EPOCH was never set); otherwise the
    configuration is left exactly as it is. Every other key keeps its value. The
    one upload, made when both environment variables are set, carries the
    resulting configuration, and the call succeeds exactly when it does.
   */
  function WriteConfig(g: Globals, w: World): (s: Step<Outcome>)
    ensures s.after.(configuration := g.configuration, calls := g.calls) == g
    ensures s.result == Fail(BadEpoch) <==> g.writeEpoch && g.calledEpoch.None?
    ensures s.result == Fail(BadEpoch) ==> s.after == g
    ensures s.result != Fail(BadEpoch) ==>
      && (forall key :: key in g.configuration && key != CurrentEpoch ==>
            key in s.after.configuration && s.after.configuration[key] == g.configuration[key])
      && (g.writeEpoch ==> s.after.configuration == g.configuration[CurrentEpoch := EpochText.Text(g.calledEpoch.value)])
      && (!g.writeEpoch ==> s.after.configuration == g.configuration)
    ensures s.after.calls != g.calls <==> s.result != Fail(BadEpoch) && w.gcsBucket.Some? && w.configFile.Some?
    ensures s.after.calls != g.calls ==>
      s.after.calls == g.calls + [UploadConfig(w.gcsBucket.value, w.configFile.value, s.after.configuration)]
    ensures s.result.Success? <==> s.after.calls != g.calls && w.uploadOk
    ensures s.result in {Success, Fail(BadEpoch), Fail(StorageError)}
  {
    if g.writeEpoch && g.calledEpoch.None? then Step(g, Fail(BadEpoch))
    else
      var c := if g.writeEpoch then g.configuration[CurrentEpoch := EpochText.Text(g.calledEpoch.value)]
               else g.configuration;
      var g' := g.(configuration := c);
      if w.gcsBucket.None? || w.configFile.None? then Step(g', Fail(StorageError))
      else Step(g'.(calls := g.calls + [UploadConfig(w.gcsBucket.value, w.configFile.value, c)]),
                if w.uploadOk then Success else Fail(StorageError))
  }

  /** The decoded trigger payload, or `load_new` when the event carries none. */
  function ActionOf(payload: Option<string>): string {
    if payload.Some? then payload.value else LoadNew
  }

  /**
    run(event) on a fresh process: the steps in order, stopping at the first
    failure. ACTION is the payload's action throughout; a missing environment
    variable means no call at all; a run that succeeds has ended with the upload
    of the configuration it holds at the end.
   */
  function Invoke(payload: Option<string>, w: World): (s: Step<Outcome>)
    requires Terminates(w.pages)
    ensures s.after.action == ActionOf(payload)
    ensures s.result == Fail(MissingEnvironment) <==> w.gcsBucket.None? || w.configFile.None?
    ensures s.result == Fail(MissingEnvironment) ==> s.after.calls == []
    ensures s.result.Success? ==>
      && w.gcsBucket.Some? && w.configFile.Some? && s.after.calls != []
      && s.after.calls[|s.after.calls| - 1] == UploadConfig(w.gcsBucket.value, w.configFile.value, s.after.configuration)
  {
    var read := ReadConfig(Start.(action := ActionOf(payload)), w);
    if read.result.Fail? then read
    else
      var token := LoadToken(read.after, w);
      if token.result.Fail? then token
      else Sync(token.after, w)
  }

  /** The rest of run(event) once the token is exchanged: fetch, then store what came back. */
  function Sync(g: Globals, w: World): (s: Step<Outcome>)
    requires Terminates(w.pages)
    ensures s.after.action == g.action
    ensures s.result.Success? ==>
      && w.gcsBucket.Some? && w.configFile.Some? && s.after.calls != []
      && s.after.calls[|s.after.calls| - 1] == UploadConfig(w.gcsBucket.value, w.configFile.value, s.after.configuration)
    ensures s.result != Fail(MissingEnvironment)
  {
    var fetched := Fetch(g, w);
    if fetched.result.Err? then Step(fetched.after, Fail(fetched.result.failure))
    else Store(fetched.after, fetched.result.value, w)
  }

  /** Load and archive the records only when there are any, then write the configuration back. */
  function Store(g: Globals, rows: seq<Activity>, w: World): (s: Step<Outcome>)
    ensures s.after.action == g.action
    ensures s.result.Success? ==>
      && w.gcsBucket.Some? && w.configFile.Some? && s.after.calls != []
      && s.after.calls[|s.after.calls| - 1] == UploadConfig(w.gcsBucket.value, w.configFile.value, s.after.configuration)
    ensures s.result != Fail(MissingEnvironment)
  {
    if rows == [] then WriteConfig(g, w)
    else
      var loaded := Import(g, rows, w);
      if loaded.result.Err? then Step(loaded.after, Fail(loaded.result.failure))
      else
        var archived := ArchiveRows(loaded.after, rows, w);
        if archived.result.Fail? then archived
        else WriteConfig(archived.after, w)
  }
}
