/**
 * FetchChallengerSummoners: refuse to run without an API key, fetch the
 * Challenger league of every region and raise on any status but 200,
 * then connect once, make sure the table exists and apply
 * insert-if-absent for every fetched record, even when there are none.
 */
module ChallengerSummoners {
  import opened Riot
  import opened League
  import opened SummonersTable

  /** The region loop of `main`; every status but 200, 429 included, raises. */
  method CollectSummoners(api: Region -> LeagueResponse) returns (outcome: FetchOutcome, log: seq<Event>)
    ensures (outcome, log) == Collect(Strict, api, Regions)
  {
    var summoners: seq<Record> := [];
    log := [];
    for i := 0 to |Regions|
      invariant Collect(Strict, api, Regions[..i]) == (Fetched(summoners), log)
    {
      var region := Regions[i];
      var response := api(region);
      log := log + [LeagueRequest(region)];

      if response.status != StatusOk {
        outcome := FetchFailed(UpstreamStatus(region, response.status));
        CollectAbort(Strict, api, Regions, i);
        return;
      }

      if response.entries.None? {
        // challenger_data["entries"] raises KeyError
        outcome := FetchFailed(MissingEntries(region));
        CollectAbort(Strict, api, Regions, i);
        return;
      }

      var appended := AppendEntries(summoners, response.entries.value, region);
      if appended.None? {
        // entry["summonerId"] raises KeyError
        outcome := FetchFailed(MissingSummonerId(region));
        CollectAbort(Strict, api, Regions, i);
        return;
      }
      summoners := appended.value;
      CollectExtend(Strict, api, Regions, i);
    }
    assert Regions[..|Regions|] == Regions;
    outcome := Fetched(summoners);
  }

  /**
   * `main`: an empty API key or a failed fetch answers 500 before the
   * database is touched; a failed connection answers 500 with the table
   * unchanged; otherwise the table exists afterwards, holds every fetched
   * pair, and the answer is 200 even when nothing was fetched.
   */
  method HandleRequest(db: SummonersDb, apiKey: string, api: Region -> LeagueResponse, connection: Attempt)
    returns (status: int, log: seq<Event>)
    requires db.Valid()
    modifies db
    ensures db.Valid()
    ensures apiKey == "" ==> status == StatusServerError && log == [] && unchanged(db)
    ensures apiKey != "" ==>
            var (fetched, fetchLog) := Collect(Strict, api, Regions);
            match fetched
            case FetchFailed(_) =>
              status == StatusServerError && log == fetchLog && unchanged(db)
            case Fetched(records) =>
              && log == fetchLog + [ConnectAttempt]
              && (connection.Succeeds? ==>
                    status == StatusOk && db.tableExists && db.rows == InsertedAll(old(db.rows), records))
              && (connection.Fails? ==> status == StatusServerError && unchanged(db))
  {
    if apiKey == "" {
      // ValueError: the key is not set
      return StatusServerError, [];
    }
    var fetched;
    fetched, log := CollectSummoners(api);
    if fetched.FetchFailed? {
      return StatusServerError, log;
    }
    log := log + [ConnectAttempt];
    if connection.Fails? {
      return StatusServerError, log;
    }
    db.CreateTableIfNotExists();
    db.InsertSummoners(fetched.records);
    status := StatusOk;
  }
}
