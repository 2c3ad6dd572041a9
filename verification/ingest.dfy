/**
  The Cloud Function of main.py as an object: its module-level globals are the
  fields, each Python function is a method that changes them in place, and every
  request to an outside service is appended to `calls`. A Python exception is a
  `Fail` / `Err` result that the caller passes on at once.
 */
module Ingest {
  import opened Protocol
  import opened Steps
  import opened Invocation
  import EpochText

  class IngestFunction {
    var action: string
    var configuration: Configuration
    var accessToken: string
    /** CALLED_EPOCH: None while it still holds its initial empty string. */
    var calledEpoch: Option<nat>
    var writeEpoch: bool
    /** The requests made to outside services so far, oldest first. */
    var calls: seq<Call>

    /** The globals as one value. */
    function Snapshot(): Globals
      reads this
    {
      Globals(action, configuration, accessToken, calledEpoch, writeEpoch, calls)
    }

    /** The module-level values of main.py. */
    constructor ()
      ensures Snapshot() == Start
    {
      action := LoadNew;
      configuration := map[];
      accessToken := "";
      calledEpoch := None;
      writeEpoch := false;
      calls := [];
    }

    /**
      read_config_from_bucket: both environment variables must be set; the
      configuration object is downloaded and its keys merged over the current ones.
     */
    method ReadConfigFromBucket(w: World) returns (outcome: Outcome)
      modifies this`configuration, this`calls
      ensures Snapshot() == ReadConfig(old(Snapshot()), w).after
      ensures outcome == ReadConfig(old(Snapshot()), w).result
    {
      if w.gcsBucket.None? || w.configFile.None? {
        return Fail(MissingEnvironment);
      }
      calls := calls + [DownloadConfig(w.gcsBucket.value, w.configFile.value)];
      if w.storedConfig.None? {
        return Fail(StorageError);
      }
      configuration := configuration + w.storedConfig.value;
      outcome := Success;
    }

    /**
      load_strava_access_token: exchange the stored credentials, store the rotated
      refresh token in the configuration and keep the access token.
     */
    method LoadStravaAccessToken(w: World) returns (outcome: Outcome)
      modifies this`configuration, this`accessToken, this`calls
      ensures Snapshot() == LoadToken(old(Snapshot()), w).after
      ensures outcome == LoadToken(old(Snapshot()), w).result
    {
      if RefreshToken !in configuration || ClientId !in configuration || ClientSecret !in configuration {
        return Fail(MissingSetting);
      }
      calls := calls + [ExchangeToken(configuration[ClientId], configuration[ClientSecret], configuration[RefreshToken])];
      if w.grant.None? {
        return Fail(IdentityError);
      }
      configuration := configuration[RefreshToken := w.grant.value.refreshToken];
      accessToken := w.grant.value.accessToken;
      outcome := Success;
    }

    /**
      fetch_strava_activities: the stored cursor must be present and, unless the
      mode is `load_all` or the cursor is empty, readable as a number. Then pages
      1, 2, ... are requested with the selected bound until a page holds fewer
      than 200 records, accumulating them in order. WRITE_EPOCH is raised once
      anything has accumulated; CALLED_EPOCH is set only when the loop ends on a
      short page. The page requests of the loop are appended to `calls` when the
      loop ends (nothing else is requested meanwhile).
     */
    method FetchStravaActivities(w: World) returns (r: Result<seq<Activity>>)
      requires Terminates(w.pages)
      modifies this`calledEpoch, this`writeEpoch, this`calls
      ensures Snapshot() == Fetch(old(Snapshot()), w).after
      ensures r == Fetch(old(Snapshot()), w).result
    {
      var page: nat := 1;
      var activities: seq<Activity> := [];
      if CurrentEpoch !in configuration {
        return Err(MissingSetting);
      }
      var afterEpoch := SelectAfter(action, configuration[CurrentEpoch], w.parseEpoch);
      if afterEpoch.None? {
        return Err(BadEpoch);
      }
      var requested: seq<Call> := [];
      ghost var k := FirstStop(w.pages);
      while true
        invariant 1 <= page <= k + 1
        invariant activities == Collected(w.pages, page - 1)
        invariant requested == PageCalls(afterEpoch.value, accessToken, page - 1)
        invariant writeEpoch == (old(writeEpoch) || activities != [])
        invariant calls == old(calls) && calledEpoch == old(calledEpoch)
        decreases k + 1 - page
      {
        requested := requested + [GetPage(PageRequest(page, PerPage, afterEpoch.value, accessToken))];
        var data := w.pages[page - 1];
        if data.ApiFailure? {
          assert page - 1 == k;
          calls := calls + requested;
          return Err(SourceApiError);
        }
        activities := activities + data.items;
        if |activities| > 0 {
          writeEpoch := true;
        }
        if |data.items| < PerPage {
          assert page - 1 == k;
          calledEpoch := Some(w.clock);
          break;
        }
        page := page + 1;
      }
      calls := calls + requested;
      r := Ok(activities);
    }

    /**
      import_activites_to_bq: submit one load job of the given records to
      `project.dataset.table`, truncating for `load_all` and appending otherwise.
     */
    method ImportActivitiesToBq(activityJson: seq<Activity>, w: World) returns (r: Result<string>)
      modifies this`calls
      ensures Snapshot() == Import(old(Snapshot()), activityJson, w).after
      ensures r == Import(old(Snapshot()), activityJson, w).result
    {
      var disposition: Disposition;
      if action == LoadAll {
        disposition := WriteTruncate;
      } else {
        disposition := WriteAppend;
      }
      if ProjectId !in configuration || Dataset !in configuration || Table !in configuration {
        return Err(MissingSetting);
      }
      var destination := configuration[ProjectId] + "." + configuration[Dataset] + "." + configuration[Table];
      calls := calls + [LoadTable(activityJson, destination, disposition)];
      if w.loadJob.None? {
        return Err(WarehouseError);
      }
      r := Ok(w.loadJob.value);
    }

    /** write_response_to_gcs: archive the raw records under `<function>/<table>-<time>.json`. */
    method WriteResponseToGcs(activityJson: seq<Activity>, w: World) returns (outcome: Outcome)
      modifies this`calls
      ensures Snapshot() == ArchiveRows(old(Snapshot()), activityJson, w).after
      ensures outcome == ArchiveRows(old(Snapshot()), activityJson, w).result
    {
      if Table !in configuration {
        return Fail(MissingSetting);
      }
      var prefix := ArchivePrefix(configuration[Table]);
      if w.gcsBucket.None? {
        return Fail(StorageError);
      }
      calls := calls + [Archive(w.gcsBucket.value, prefix, activityJson)];
      outcome := if w.archiveOk then Success else Fail(StorageError);
    }

    /**
      write_config_to_bucket: when WRITE_EPOCH is set, overwrite the stored cursor
      with CALLED_EPOCH; then upload the whole configuration.
     */
    method WriteConfigToBucket(w: World) returns (outcome: Outcome)
      modifies this`configuration, this`calls
      ensures Snapshot() == WriteConfig(old(Snapshot()), w).after
      ensures outcome == WriteConfig(old(Snapshot()), w).result
    {
      if writeEpoch {
        if calledEpoch.None? {
          return Fail(BadEpoch);
        }
        configuration := configuration[CurrentEpoch := EpochText.Text(calledEpoch.value)];
      }
      if w.gcsBucket.None? || w.configFile.None? {
        return Fail(StorageError);
      }
      calls := calls + [UploadConfig(w.gcsBucket.value, w.configFile.value, configuration)];
      outcome := if w.uploadOk then Success else Fail(StorageError);
    }

    /**
      run: set the action from the trigger payload, read the configuration, rotate
      the token, fetch; load and archive only when records came back; write the
      configuration back. The first failure ends the run.
     */
    method Run(payload: Option<string>, w: World) returns (outcome: Outcome)
      requires Snapshot() == Start && Terminates(w.pages)
      modifies this
      ensures Snapshot() == Invoke(payload, w).after && outcome == Invoke(payload, w).result
      ensures calls == Expected(payload, w).Calls() && outcome == Expected(payload, w).outcome
    {
      InvokeMatchesExpected(payload, w);
      if payload.Some? {
        action := payload.value;
      }
      outcome := ReadConfigFromBucket(w);
      if outcome.Fail? {
        return;
      }
      outcome := LoadStravaAccessToken(w);
      if outcome.Fail? {
        return;
      }
      var fetched := FetchStravaActivities(w);
      if fetched.Err? {
        return Fail(fetched.failure);
      }
      var activities := fetched.value;
      if |activities| > 0 {
        var job := ImportActivitiesToBq(activities, w);
        if job.Err? {
          return Fail(job.failure);
        }
        outcome := WriteResponseToGcs(activities, w);
        if outcome.Fail? {
          return;
        }
      }
      outcome := WriteConfigToBucket(w);
    }
  }
}
