/**
  One invocation of the job, as a value: the calls it makes to outside services,
  phase by phase, and how it ends. The class in module Ingest is proved to make
  exactly these calls; the lemmas below state the sync protocol's guarantees on
  this reference.
 */
module Invocation {
  import opened Protocol
  import opened Steps
  import EpochText

  /**
    The calls of one run grouped by phase: reading the configuration, the token
    exchange, the page requests, the warehouse load, the archive write and the
    configuration write-back. A phase the run never reached is empty.
   */
  datatype Trace = Trace(
    startup: seq<Call>,
    token: seq<Call>,
    pages: seq<Call>,
    load: seq<Call>,
    archive: seq<Call>,
    writeBack: seq<Call>,
    outcome: Outcome)
  {
    function Calls(): seq<Call> {
      startup + token + pages + load + archive + writeBack
    }
  }

  /** The records the page loop accumulates: pages 1 to the first short page, in API order. */
  function FetchedRows(w: World): seq<Activity>
    requires Terminates(w.pages)
  {
    Collected(w.pages, FirstStop(w.pages) + 1)
  }

  /** The configuration after the token exchange: the stored one with the refresh token rotated. */
  function Rotated(w: World): Configuration
    requires w.storedConfig.Some? && w.grant.Some?
  {
    w.storedConfig.value[RefreshToken := w.grant.value.refreshToken]
  }

  function UploadOutcome(w: World): Outcome {
    if w.uploadOk then Success else Fail(StorageError)
  }

  /**
    The run of `run(event)` on a fresh process, given what the world answers.
    Every phase but the page loop makes at most one call; each phase makes calls
    only when the one before it did (the load and the write-back come after the
    page loop); a successful run has written the configuration back.
   */
  function Expected(payload: Option<string>, w: World): (t: Trace)
    requires Terminates(w.pages)
    ensures |t.startup| <= 1 && |t.token| <= 1 && |t.load| <= 1 && |t.archive| <= 1 && |t.writeBack| <= 1
    ensures t.token != [] ==> t.startup != []
    ensures t.pages != [] ==> t.token != []
    ensures t.load != [] || t.writeBack != [] ==> t.pages != []
    ensures t.archive != [] ==> t.load != []
    ensures t.outcome.Success? ==> t.writeBack != []
  {
    var nothing := Trace([], [], [], [], [], [], Success);
    if w.gcsBucket.None? || w.configFile.None? then nothing.(outcome := Fail(MissingEnvironment))
    else
      var t := nothing.(startup := [DownloadConfig(w.gcsBucket.value, w.configFile.value)]);
      if w.storedConfig.None? then t.(outcome := Fail(StorageError))
      else
        var stored := w.storedConfig.value;
        if RefreshToken !in stored || ClientId !in stored || ClientSecret !in stored then
          t.(outcome := Fail(MissingSetting))
        else
          var t' := t.(token := [ExchangeToken(stored[ClientId], stored[ClientSecret], stored[RefreshToken])]);
          if w.grant.None? then t'.(outcome := Fail(IdentityError))
          else Fetching(ActionOf(payload), w, t')
  }

  /** The run from the page loop on, once the token has been exchanged; `t` holds the calls so far. */
  function Fetching(action: string, w: World, t: Trace): (r: Trace)
    requires Terminates(w.pages) && w.storedConfig.Some? && w.grant.Some?
    requires w.gcsBucket.Some? && w.configFile.Some?
    requires t.pages == [] && t.load == [] && t.archive == [] && t.writeBack == []
    ensures r.startup == t.startup && r.token == t.token
    ensures r.pages != [] ==> |r.pages| == FirstStop(w.pages) + 1
    ensures |r.load| <= 1 && |r.archive| <= 1 && |r.writeBack| <= 1
    ensures r.load != [] || r.writeBack != [] ==> r.pages != []
    ensures r.archive != [] ==> r.load != []
    ensures r.outcome.Success? ==> r.writeBack != []
  {
    var config := Rotated(w);
    if CurrentEpoch !in config then t.(outcome := Fail(MissingSetting))
    else
      var after := SelectAfter(action, config[CurrentEpoch], w.parseEpoch);
      if after.None? then t.(outcome := Fail(BadEpoch))
      else
        var k := FirstStop(w.pages);
        var t' := t.(pages := PageCalls(after.value, w.grant.value.accessToken, k + 1));
        if w.pages[k].ApiFailure? then t'.(outcome := Fail(SourceApiError))
        else Storing(action, w, t')
  }

  /** The run after a successful page loop: load and archive when records came back, then write back. */
  function Storing(action: string, w: World, t: Trace): (r: Trace)
    requires Terminates(w.pages) && w.storedConfig.Some? && w.grant.Some?
    requires w.gcsBucket.Some? && w.configFile.Some?
    requires t.load == [] && t.archive == [] && t.writeBack == []
    ensures r.startup == t.startup && r.token == t.token && r.pages == t.pages
    ensures FetchedRows(w) == [] ==> r.load == [] && r.archive == []
    ensures r.load == [] || (Destination(Rotated(w)).Some? && r.load == [LoadTable(FetchedRows(w), Destination(Rotated(w)).value, DispositionFor(action))])
    ensures r.archive != [] ==> r.load != [] && |r.archive| == 1
    ensures |r.writeBack| <= 1
    ensures r.outcome.Success? <==> r.writeBack != [] && w.uploadOk
  {
    var bucket, path, config, rows := w.gcsBucket.value, w.configFile.value, Rotated(w), FetchedRows(w);
    if rows == [] then
      t.(writeBack := [UploadConfig(bucket, path, config)], outcome := UploadOutcome(w))
    else if Destination(config).None? then t.(outcome := Fail(MissingSetting))
    else
      var t' := t.(load := [LoadTable(rows, Destination(config).value, DispositionFor(action))]);
      if w.loadJob.None? then t'.(outcome := Fail(WarehouseError))
      else
        var t'' := t'.(archive := [Archive(bucket, ArchivePrefix(config[Table]), rows)]);
        if !w.archiveOk then t''.(outcome := Fail(StorageError))
        else
          var written := config[CurrentEpoch := EpochText.Text(w.clock)];
          t''.(writeBack := [UploadConfig(bucket, path, written)], outcome := UploadOutcome(w))
  }

  /** Once the token is exchanged, the rest of the run is `Fetching` from the calls made so far. */
  lemma ExpectedAfterExchange(payload: Option<string>, w: World)
    requires Terminates(w.pages)
    requires w.gcsBucket.Some? && w.configFile.Some? && w.storedConfig.Some? && w.grant.Some?
    requires RefreshToken in w.storedConfig.value && ClientId in w.storedConfig.value && ClientSecret in w.storedConfig.value
    ensures Expected(payload, w) == Fetching(ActionOf(payload), w, ExchangedTrace(w))
  {
  }

  /** The three ways the page phase ends, given the calls `t` made before it. */
  lemma FetchingCases(action: string, w: World, t: Trace)
    requires Terminates(w.pages) && w.storedConfig.Some? && w.grant.Some?
    requires w.gcsBucket.Some? && w.configFile.Some?
    requires t.pages == [] && t.load == [] && t.archive == [] && t.writeBack == []
    ensures CurrentEpoch !in Rotated(w) ==>
      Fetching(action, w, t) == t.(outcome := Fail(MissingSetting))
    ensures CurrentEpoch in Rotated(w) && SelectAfter(action, Rotated(w)[CurrentEpoch], w.parseEpoch).None? ==>
      Fetching(action, w, t) == t.(outcome := Fail(BadEpoch))
    ensures CurrentEpoch in Rotated(w) && SelectAfter(action, Rotated(w)[CurrentEpoch], w.parseEpoch).Some? ==>
      var pages := PageCalls(SelectAfter(action, Rotated(w)[CurrentEpoch], w.parseEpoch).value, w.grant.value.accessToken, FirstStop(w.pages) + 1);
      && t.(pages := pages).Calls() == t.Calls() + pages
      && Fetching(action, w, t) ==
           if w.pages[FirstStop(w.pages)].ApiFailure? then t.(pages := pages, outcome := Fail(SourceApiError))
           else Storing(action, w, t.(pages := pages))
  {
  }

  /** The ways the storing phase ends, given the calls `t` made before it. */
  lemma StoringCases(action: string, w: World, t: Trace)
    requires Terminates(w.pages) && w.storedConfig.Some? && w.grant.Some?
    requires w.gcsBucket.Some? && w.configFile.Some?
    requires t.load == [] && t.archive == [] && t.writeBack == []
    ensures var config := Rotated(w);
      var upload := UploadConfig(w.gcsBucket.value, w.configFile.value, config);
      FetchedRows(w) == [] ==>
        && t.(writeBack := [upload]).Calls() == t.Calls() + [upload]
        && Storing(action, w, t) == t.(writeBack := [upload], outcome := UploadOutcome(w))
    ensures FetchedRows(w) != [] && Destination(Rotated(w)).None? ==>
      Storing(action, w, t) == t.(outcome := Fail(MissingSetting))
    ensures var config := Rotated(w);
      FetchedRows(w) != [] && Destination(config).Some? ==>
        var load := LoadTable(FetchedRows(w), Destination(config).value, DispositionFor(action));
        var archive := Archive(w.gcsBucket.value, ArchivePrefix(config[Table]), FetchedRows(w));
        var upload := UploadConfig(w.gcsBucket.value, w.configFile.value, config[CurrentEpoch := EpochText.Text(w.clock)]);
        && t.(load := [load]).Calls() == t.Calls() + [load]
        && t.(load := [load], archive := [archive]).Calls() == t.Calls() + [load] + [archive]
        && t.(load := [load], archive := [archive], writeBack := [upload]).Calls() == t.Calls() + [load] + [archive] + [upload]
        && Storing(action, w, t) ==
             if w.loadJob.None? then t.(load := [load], outcome := Fail(WarehouseError))
             else if !w.archiveOk then t.(load := [load], archive := [archive], outcome := Fail(StorageError))
             else t.(load := [load], archive := [archive], writeBack := [upload], outcome := UploadOutcome(w))
  {
  }

  /** The calls up to the token exchange: the download, then the exchange of the stored credentials. */
  function ExchangedTrace(w: World): Trace
    requires w.gcsBucket.Some? && w.configFile.Some? && w.storedConfig.Some?
    requires RefreshToken in w.storedConfig.value && ClientId in w.storedConfig.value && ClientSecret in w.storedConfig.value
  {
    var stored := w.storedConfig.value;
    Trace([DownloadConfig(w.gcsBucket.value, w.configFile.value)],
          [ExchangeToken(stored[ClientId], stored[ClientSecret], stored[RefreshToken])],
          [], [], [], [], Success)
  }

  /**
    The step-by-step run of the module's functions over its globals makes exactly
    the calls of the phase-by-phase reference, in the same order, and ends the same way.
   */
  lemma InvokeMatchesExpected(payload: Option<string>, w: World)
    requires Terminates(w.pages)
    ensures Invoke(payload, w).after.calls == Expected(payload, w).Calls()
    ensures Invoke(payload, w).result == Expected(payload, w).outcome
  {
    var read := ReadConfig(Start.(action := ActionOf(payload)), w);
    if read.result.Success? && LoadToken(read.after, w).result.Success? {
      var g := Globals(ActionOf(payload), Rotated(w), w.grant.value.accessToken, None, false, ExchangedTrace(w).Calls());
      assert read.after.configuration == w.storedConfig.value;
      assert LoadToken(read.after, w).after == g;
      ExpectedAfterExchange(payload, w);
      SyncMatchesFetching(w, g, ExchangedTrace(w));
    }
  }

  /** From the page loop on, the steps make the calls of `Fetching` after those of `t`. */
  lemma SyncMatchesFetching(w: World, g: Globals, t: Trace)
    requires Terminates(w.pages) && w.storedConfig.Some? && w.grant.Some?
    requires w.gcsBucket.Some? && w.configFile.Some?
    requires t.pages == [] && t.load == [] && t.archive == [] && t.writeBack == []
    requires g == Globals(g.action, Rotated(w), w.grant.value.accessToken, None, false, t.Calls())
    ensures Sync(g, w).after.calls == Fetching(g.action, w, t).Calls()
    ensures Sync(g, w).result == Fetching(g.action, w, t).outcome
  {
    FetchingCases(g.action, w, t);
    var fetched := Fetch(g, w);
    if fetched.result.Ok? {
      var t' := t.(pages := fetched.after.calls[|t.Calls()|..]);
      assert t'.Calls() == fetched.after.calls;
      StoreMatchesStoring(w, fetched.after, t');
    }
  }

  /** After a successful page loop, the steps make the calls of `Storing` after those of `t`. */
  lemma StoreMatchesStoring(w: World, g: Globals, t: Trace)
    requires Terminates(w.pages) && w.storedConfig.Some? && w.grant.Some?
    requires w.gcsBucket.Some? && w.configFile.Some?
    requires t.load == [] && t.archive == [] && t.writeBack == []
    requires g == Globals(g.action, Rotated(w), w.grant.value.accessToken, Some(w.clock), FetchedRows(w) != [], t.Calls())
    ensures Store(g, FetchedRows(w), w).after.calls == Storing(g.action, w, t).Calls()
    ensures Store(g, FetchedRows(w), w).result == Storing(g.action, w, t).outcome
  {
    StoringCases(g.action, w, t);
  }

  /** The run reaches the page loop: every step before it succeeded. */
  predicate ReachesFetch(payload: Option<string>, w: World) {
    && w.gcsBucket.Some? && w.configFile.Some?
    && w.storedConfig.Some?
    && RefreshToken in w.storedConfig.value
    && ClientId in w.storedConfig.value
    && ClientSecret in w.storedConfig.value
    && w.grant.Some?
    && CurrentEpoch in w.storedConfig.value
    && SelectAfter(ActionOf(payload), w.storedConfig.value[CurrentEpoch], w.parseEpoch).Some?
  }

  /** Without GCS_BUCKET or CONFIG_FILE the run stops before any call. */
  lemma MissingEnvironmentCallsNothing(payload: Option<string>, w: World)
    requires Terminates(w.pages)
    requires w.gcsBucket.None? || w.configFile.None?
    ensures Expected(payload, w).Calls() == []
    ensures Expected(payload, w).outcome == Fail(MissingEnvironment)
  {
  }

  /**
    Pages are requested as 1, 2, ..., k + 1 where k + 1 is the first short (or
    failing) page; every request carries per_page = 200, the selected bound and
    the exchanged access token; every page before the last one was full.
   */
  lemma PagesRequestedUpToFirstShortPage(payload: Option<string>, w: World)
    requires Terminates(w.pages)
    ensures var t := Expected(payload, w);
      && (t.pages != [] <==> ReachesFetch(payload, w))
      && (ReachesFetch(payload, w) ==>
            var after := SelectAfter(ActionOf(payload), w.storedConfig.value[CurrentEpoch], w.parseEpoch).value;
            && |t.pages| == FirstStop(w.pages) + 1
            && (forall i :: 0 <= i < |t.pages| ==>
                  t.pages[i] == GetPage(PageRequest(i + 1, PerPage, after, w.grant.value.accessToken)))
            && (forall i :: 0 <= i < |t.pages| - 1 ==> w.pages[i].Records? && |w.pages[i].items| >= PerPage))
  {
    var t := Expected(payload, w);
    if ReachesFetch(payload, w) {
      assert Rotated(w)[CurrentEpoch] == w.storedConfig.value[CurrentEpoch];
      var after := SelectAfter(ActionOf(payload), w.storedConfig.value[CurrentEpoch], w.parseEpoch).value;
      PageCallsAt(after, w.grant.value.accessToken, FirstStop(w.pages) + 1);
    }
  }

  /** In `load_all` mode every page request uses after = 0, whatever the stored cursor, and the load truncates. */
  lemma FullModeResetsCursorAndTruncates(w: World)
    requires Terminates(w.pages)
    ensures var t := Expected(Some(LoadAll), w);
      && (forall i :: 0 <= i < |t.pages| ==> t.pages[i].GetPage? && t.pages[i].request.after == 0)
      && (forall i :: 0 <= i < |t.load| ==> t.load[i].LoadTable? && t.load[i].disposition == WriteTruncate)
  {
    PagesRequestedUpToFirstShortPage(Some(LoadAll), w);
  }

  /**
    In any other mode the bound is 0 for an empty stored cursor and the parsed
    cursor otherwise (a whitespace-only cursor is parsed), and the load appends.
   */
  lemma IncrementalModeUsesCursorAndAppends(payload: Option<string>, w: World)
    requires Terminates(w.pages)
    requires payload != Some(LoadAll)
    ensures var t := Expected(payload, w);
      && (t.pages != [] ==>
            var epoch := w.storedConfig.value[CurrentEpoch];
            forall i :: 0 <= i < |t.pages| ==>
              t.pages[i].GetPage? &&
              Some(t.pages[i].request.after) == (if epoch == "" then Some(0) else w.parseEpoch(epoch)))
      && (forall i :: 0 <= i < |t.load| ==> t.load[i].LoadTable? && t.load[i].disposition == WriteAppend)
  {
    PagesRequestedUpToFirstShortPage(payload, w);
  }

  /**
    The load and the archive each happen at most once, always with the whole
    fetched list, and only when that list is non-empty; a run that completes
    has loaded and archived exactly when something was fetched.
   */
  lemma LoadAndArchiveOnlyWhenRecordsExist(payload: Option<string>, w: World)
    requires Terminates(w.pages)
    ensures var t := Expected(payload, w);
      && |t.load| <= 1 && |t.archive| <= 1
      && (t.load != [] ==> ReachesFetch(payload, w) && FetchedRows(w) != [] && t.load[0].LoadTable? && t.load[0].rows == FetchedRows(w))
      && (t.archive != [] ==> t.load != [] && t.archive[0].Archive? && t.archive[0].rows == FetchedRows(w))
      && (t.outcome.Success? ==> ReachesFetch(payload, w) && (t.load != [] <==> FetchedRows(w) != []) && (t.archive != [] <==> FetchedRows(w) != []))
  {
  }

  /**
    The write-back happens at most once, as the last call; a run that writes
    nothing back has failed, and any failure before the write-back skips it.
   */
  lemma WriteBackOnlyAtTheEnd(payload: Option<string>, w: World)
    requires Terminates(w.pages)
    ensures var t := Expected(payload, w);
      && |t.writeBack| <= 1
      && (t.writeBack != [] ==> t.writeBack[0].UploadConfig? && t.Calls()[|t.Calls()| - 1] == t.writeBack[0])
      && (t.writeBack == [] ==> t.outcome.Fail?)
      && (t.outcome.Success? <==> t.writeBack != [] && w.uploadOk)
      && (t.writeBack != [] ==>
            && ReachesFetch(payload, w) && w.pages[FirstStop(w.pages)].Records?
            && (FetchedRows(w) != [] ==> Destination(Rotated(w)).Some? && w.loadJob.Some? && w.archiveOk))
  {
  }

  /**
    A run whose page loop ends on a short page and which fetched nothing makes
    no load and no archive, and writes back the stored configuration with the
    rotated refresh token.
   */
  lemma EmptyFetchWritesBackRotatedToken(payload: Option<string>, w: World)
    requires Terminates(w.pages)
    requires ReachesFetch(payload, w) && w.pages[FirstStop(w.pages)].Records? && FetchedRows(w) == []
    ensures var t := Expected(payload, w);
      && t.load == [] && t.archive == []
      && t.writeBack == [UploadConfig(w.gcsBucket.value, w.configFile.value, Rotated(w))]
      && t.writeBack[0].contents[RefreshToken] == w.grant.value.refreshToken
      && t.outcome == UploadOutcome(w)
  {
    assert Rotated(w)[CurrentEpoch] == w.storedConfig.value[CurrentEpoch];
  }

  /**
    A run whose page loop ends on a short page with records loads them all once
    when the destination is configured, archives them once when the load job was
    submitted, and then writes back the rotated refresh token and the loop-end
    time as the cursor when the archive succeeded.
   */
  lemma RecordsAreLoadedArchivedAndWrittenBack(payload: Option<string>, w: World)
    requires Terminates(w.pages)
    requires ReachesFetch(payload, w) && w.pages[FirstStop(w.pages)].Records? && FetchedRows(w) != []
    requires Destination(Rotated(w)).Some?
    ensures var t, rows, config := Expected(payload, w), FetchedRows(w), Rotated(w);
      && t.load == [LoadTable(rows, Destination(config).value, DispositionFor(ActionOf(payload)))]
      && (w.loadJob.Some? ==> t.archive == [Archive(w.gcsBucket.value, ArchivePrefix(config[Table]), rows)])
      && (w.loadJob.Some? && w.archiveOk ==>
            && t.writeBack == [UploadConfig(w.gcsBucket.value, w.configFile.value, config[CurrentEpoch := EpochText.Text(w.clock)])]
            && t.writeBack[0].contents[RefreshToken] == w.grant.value.refreshToken
            && t.outcome == UploadOutcome(w))
  {
    assert Rotated(w)[CurrentEpoch] == w.storedConfig.value[CurrentEpoch];
  }

  /**
    The written configuration: the refresh token is always the one the exchange
    returned; the cursor is the loop-end time when records were fetched and is
    byte-for-byte the stored one otherwise; no other key is added, removed or changed.
   */
  lemma WriteBackRotatesTokenAndGatesCursor(payload: Option<string>, w: World)
    requires Terminates(w.pages)
    ensures var t := Expected(payload, w);
      t.writeBack != [] ==>
        var stored, written := w.storedConfig.value, t.writeBack[0].contents;
        && written.Keys == stored.Keys
        && written[RefreshToken] == w.grant.value.refreshToken
        && written[CurrentEpoch] == (if FetchedRows(w) == [] then stored[CurrentEpoch] else EpochText.Text(w.clock))
        && (forall key :: key in stored && key != RefreshToken && key != CurrentEpoch ==> written[key] == stored[key])
  {
    var t := Expected(payload, w);
    if t.writeBack != [] {
      var stored := w.storedConfig.value;
      assert RefreshToken in stored && CurrentEpoch in stored;
      assert Rotated(w).Keys == stored.Keys;
    }
  }

  /**
    A run that loaded records leaves a cursor that the next incremental run reads
    back as this run's loop-end time: every page request of the next run uses it
    as its `after` bound.
   */
  lemma NextRunResumesFromWatermark(payload: Option<string>, w: World, next: World)
    requires Terminates(w.pages) && Terminates(next.pages)
    requires Expected(payload, w).outcome.Success? && FetchedRows(w) != []
    requires next.storedConfig == Some(Expected(payload, w).writeBack[0].contents)
    requires ReadsEpochNumerals(next.parseEpoch) && w.clock < EpochLimit
    ensures var t' := Expected(None, next);
      forall i :: 0 <= i < |t'.pages| ==> t'.pages[i].GetPage? && t'.pages[i].request.after == w.clock
  {
    WriteBackRotatesTokenAndGatesCursor(payload, w);
    var epoch := EpochText.Text(w.clock);
    assert next.storedConfig.value[CurrentEpoch] == epoch;
    EpochText.ValueOfText(w.clock);
    assert next.parseEpoch(epoch) == Some(w.clock);
    IncrementalModeUsesCursorAndAppends(None, next);
  }
}
