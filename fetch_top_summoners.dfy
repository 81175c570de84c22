/**
 * FetchTopSummoners: fetch the Challenger league of every region, skipping
 * a region that answers 429 after sleeping for its `Retry-After`, return
 * 204 when nothing was fetched, otherwise connect with retries and apply
 * insert-if-absent for every fetched record.
 */
module TopSummoners {
  import opened Riot
  import opened League
  import opened SummonersTable
  import opened ConnectRetry

  /** The defaults of `connect_to_database`, which `main` relies on. */
  const ConnectRetries: int := 3
  const ConnectDelay: nat := 5

  /** The region loop of `main`; 429s are slept through and skipped. */
  method CollectSummoners(api: Region -> LeagueResponse) returns (outcome: FetchOutcome, log: seq<Event>)
    ensures (outcome, log) == Collect(Lenient, api, Regions)
  {
    var summoners: seq<Record> := [];
    log := [];
    for i := 0 to |Regions|
      invariant Collect(Lenient, api, Regions[..i]) == (Fetched(summoners), log)
    {
      var region := Regions[i];
      ghost var logBefore := log;
      var response := api(region);
      log := log + [LeagueRequest(region)];

      if response.status == StatusTooManyRequests {
        var retryAfter: int;
        match response.retryAfter {
          case Absent =>
            retryAfter := 60;
          case Seconds(n) =>
            retryAfter := n;
          case Unparsable =>
            // int() of the header raises ValueError
            outcome := FetchFailed(InvalidRetryAfter(region));
            CollectAbort(Lenient, api, Regions, i);
            return;
        }
        if retryAfter < 0 {
          // time.sleep of a negative duration raises ValueError
          outcome := FetchFailed(InvalidRetryAfter(region));
          CollectAbort(Lenient, api, Regions, i);
          return;
        }
        log := log + [Sleep(retryAfter)];
        assert log == logBefore + [LeagueRequest(region), Sleep(retryAfter)];
        assert summoners + [] == summoners;
        CollectExtend(Lenient, api, Regions, i);
        continue;
      }

      if response.status != StatusOk {
        outcome := FetchFailed(UpstreamStatus(region, response.status));
        CollectAbort(Lenient, api, Regions, i);
        return;
      }

      if response.entries.None? {
        outcome := FetchFailed(MissingEntries(region));
        CollectAbort(Lenient, api, Regions, i);
        return;
      }

      var appended := AppendEntries(summoners, response.entries.value, region);
      if appended.None? {
        // entry["summonerId"] raises KeyError
        outcome := FetchFailed(MissingSummonerId(region));
        CollectAbort(Lenient, api, Regions, i);
        return;
      }
      summoners := appended.value;
      CollectExtend(Lenient, api, Regions, i);
    }
    assert Regions[..|Regions|] == Regions;
    outcome := Fetched(summoners);
  }

  /**
   * `main`: any exception before the connection leaves the table alone and
   * answers 500; no records answer 204 without touching the database;
   * otherwise the table ends up with every fetched pair inserted if absent.
   */
  method HandleRequest(db: SummonersDb, api: Region -> LeagueResponse, attempts: nat -> Attempt)
    returns (status: int, log: seq<Event>)
    requires db.Valid()
    modifies db
    ensures db.Valid()
    ensures var (fetched, fetchLog) := Collect(Lenient, api, Regions);
            match fetched
            case FetchFailed(_) =>
              status == StatusServerError && log == fetchLog && unchanged(db)
            case Fetched(records) =>
              if records == [] then
                status == StatusNoContent && log == fetchLog && unchanged(db)
              else
                var (conn, connectLog) := Connect(attempts, ConnectRetries, ConnectDelay);
                && log == fetchLog + connectLog
                && (conn.Connected? ==>
                      status == StatusOk && db.tableExists && db.rows == InsertedAll(old(db.rows), records))
                && (!conn.Connected? ==> status == StatusServerError && unchanged(db))
    ensures status != StatusOk ==> unchanged(db)
    ensures status == StatusNoContent || Collect(Lenient, api, Regions).0.FetchFailed? ==>
              Occurrences(log, ConnectAttempt) == 0
  {
    var fetched, fetchLog := CollectSummoners(api);
    CollectNeverConnects(Lenient, api, Regions);
    log := fetchLog;
    if fetched.FetchFailed? {
      return StatusServerError, log;
    }
    var summoners := fetched.records;
    if summoners == [] {
      return StatusNoContent, log;
    }
    var conn, connectLog := ConnectToDatabase(attempts, ConnectRetries, ConnectDelay);
    log := log + connectLog;
    if !conn.Connected? {
      // the re-raised pyodbc.Error, or `with None` failing
      return StatusServerError, log;
    }
    db.CreateTableIfNotExists();
    db.InsertSummoners(summoners);
    status := StatusOk;
  }
}
