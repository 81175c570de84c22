/**
 * The loop both leaderboard functions run over the region list: one GET of
 * the Challenger league per region, its response turned into records
 * tagged "Challenger" and the region, appended to the `summoners` list.
 *
 * The two functions differ only in how one response is judged, which the
 * `Policy` names: FetchTopSummoners sleeps on a 429 and skips the region
 * (`Lenient`), FetchChallengerSummoners raises on every status but 200
 * (`Strict`).
 */
module League {
  import opened Riot

  datatype Policy = Lenient | Strict

  /** What one region adds to the run: records and events, or the exception it raises. */
  datatype RegionResult =
    | Contributed(records: seq<Record>, log: seq<Event>)
    | Aborted(error: Error, log: seq<Event>)

  /** The `summoners` list after the loop, or the exception that ended it. */
  datatype FetchOutcome = Fetched(records: seq<Record>) | FetchFailed(error: Error)

  /** The seconds `int(response.headers.get("Retry-After", 60))` yields, when it yields any. */
  function RetryDelay(h: RetryAfter): Option<int>
  {
    match h
    case Absent => Some(60)
    case Seconds(n) => Some(n)
    case Unparsable => None
  }

  /** A 200 response whose body has `entries` and whose every entry has a `summonerId`. */
  predicate UsableBody(resp: LeagueResponse)
  {
    && resp.status == StatusOk
    && resp.entries.Some?
    && forall i :: 0 <= i < |resp.entries.value| ==> resp.entries.value[i].summonerId.Some?
  }

  /** A 429 whose `Retry-After` is absent or a whole number of seconds that `time.sleep` accepts. */
  predicate SleepableRateLimit(resp: LeagueResponse)
  {
    && resp.status == StatusTooManyRequests
    && RetryDelay(resp.retryAfter).Some?
    && RetryDelay(resp.retryAfter).value >= 0
  }

  /** One iteration of the region loop under `policy`. */
  function Step(policy: Policy, api: Region -> LeagueResponse, region: Region): (r: RegionResult)
    ensures |r.log| >= 1 && r.log[0] == LeagueRequest(region)
    ensures r.Contributed? <==> UsableBody(api(region)) || (policy == Lenient && SleepableRateLimit(api(region)))
    ensures r.Contributed? && api(region).status == StatusOk ==>
              r.log == [LeagueRequest(region)] && Some(r.records) == EntryRecords(api(region).entries.value, region)
    ensures r.Contributed? && api(region).status != StatusOk ==>
              r.records == [] && r.log == [LeagueRequest(region), Sleep(RetryDelay(api(region).retryAfter).value)]
    ensures r.Aborted? ==> r.log == [LeagueRequest(region)]
  {
    var resp := api(region);
    var request := [LeagueRequest(region)];
    if policy == Lenient && resp.status == StatusTooManyRequests then
      match RetryDelay(resp.retryAfter)
      case None => Aborted(InvalidRetryAfter(region), request)
      case Some(seconds) =>
        if seconds < 0 then Aborted(InvalidRetryAfter(region), request)
        else Contributed([], request + [Sleep(seconds)])
    else if resp.status != StatusOk then Aborted(UpstreamStatus(region, resp.status), request)
    else
      match resp.entries
      case None => Aborted(MissingEntries(region), request)
      case Some(entries) =>
        match EntryRecords(entries, region)
        case None => Aborted(MissingSummonerId(region), request)
        case Some(records) => Contributed(records, request)
  }

  /** The reference behaviour of the region loop over `regions`. */
  function Collect(policy: Policy, api: Region -> LeagueResponse, regions: seq<Region>): (FetchOutcome, seq<Event>)
  {
    if regions == [] then (Fetched([]), [])
    else
      var (outcome, log) := Collect(policy, api, regions[..|regions| - 1]);
      if outcome.FetchFailed? then (outcome, log)
      else
        match Step(policy, api, regions[|regions| - 1])
        case Contributed(records, more) => (Fetched(outcome.records + records), log + more)
        case Aborted(e, more) => (FetchFailed(e), log + more)
  }

  /** Once a prefix of the regions has raised, the later regions are never requested. */
  lemma {:induction false} CollectFailureSticks(policy: Policy, api: Region -> LeagueResponse, regions: seq<Region>, i: nat)
    requires i <= |regions|
    requires Collect(policy, api, regions[..i]).0.FetchFailed?
    ensures Collect(policy, api, regions) == Collect(policy, api, regions[..i])
    decreases |regions| - i
  {
    if i < |regions| {
      assert regions[..|regions| - 1][..i] == regions[..i];
      CollectFailureSticks(policy, api, regions[..|regions| - 1], i);
    } else {
      assert regions[..i] == regions;
    }
  }

  /** One more region that contributes extends the records and the log. */
  lemma CollectExtend(policy: Policy, api: Region -> LeagueResponse, regions: seq<Region>, i: nat)
    requires i < |regions|
    requires Collect(policy, api, regions[..i]).0.Fetched?
    requires Step(policy, api, regions[i]).Contributed?
    ensures Collect(policy, api, regions[..i + 1])
         == (Fetched(Collect(policy, api, regions[..i]).0.records + Step(policy, api, regions[i]).records),
             Collect(policy, api, regions[..i]).1 + Step(policy, api, regions[i]).log)
  {
    assert regions[..i + 1][..i] == regions[..i];
  }

  /** A region that raises ends the whole loop with its error. */
  lemma CollectAbort(policy: Policy, api: Region -> LeagueResponse, regions: seq<Region>, i: nat)
    requires i < |regions|
    requires Collect(policy, api, regions[..i]).0.Fetched?
    requires Step(policy, api, regions[i]).Aborted?
    ensures Collect(policy, api, regions)
         == (FetchFailed(Step(policy, api, regions[i]).error),
             Collect(policy, api, regions[..i]).1 + Step(policy, api, regions[i]).log)
  {
    assert regions[..i + 1][..i] == regions[..i];
    CollectFailureSticks(policy, api, regions, i + 1);
  }

  /** The region loop only requests leaderboards and sleeps: it never tries to connect to the database. */
  lemma {:induction false} CollectNeverConnects(policy: Policy, api: Region -> LeagueResponse, regions: seq<Region>)
    ensures Occurrences(Collect(policy, api, regions).1, ConnectAttempt) == 0
  {
    if regions != [] {
      var init := regions[..|regions| - 1];
      CollectNeverConnects(policy, api, init);
      var prior := Collect(policy, api, init);
      var step := Step(policy, api, regions[|regions| - 1]);
      if prior.0.Fetched? {
        assert Collect(policy, api, regions).1 == prior.1 + step.log;
        assert step.log == [LeagueRequest(regions[|regions| - 1])] || step.log[1].Sleep?;
        assert ConnectAttempt !in step.log;
        OccurrencesAppend(prior.1, step.log, ConnectAttempt);
      }
    }
  }

  /**
   * The `for entry in challenger_data["entries"]` loop both functions run:
   * one record per entry appended to `summoners`, or None when an entry
   * has no `summonerId` and the lookup raises KeyError.
   */
  method AppendEntries(summoners: seq<Record>, entries: seq<Entry>, region: Region) returns (r: Option<seq<Record>>)
    ensures r.Some? <==> EntryRecords(entries, region).Some?
    ensures r.Some? ==> r.value == summoners + EntryRecords(entries, region).value
  {
    var acc := summoners;
    for j := 0 to |entries|
      invariant EntryRecords(entries[..j], region).Some?
      invariant acc == summoners + EntryRecords(entries[..j], region).value
    {
      assert entries[..j + 1][..j] == entries[..j];
      match entries[j].summonerId {
        case None =>
          return None;
        case Some(id) =>
          acc := acc + [Record(id, Challenger, region)];
      }
    }
    assert entries[..|entries|] == entries;
    return Some(acc);
  }

  /**
   * The loop completes exactly when every region's response is usable or,
   * under the lenient policy, a 429 it can sleep through; in particular
   * any other status, a body without `entries` or an entry without a
   * `summonerId` ends the run.
   */
  lemma {:induction false} CollectSucceedsIff(policy: Policy, api: Region -> LeagueResponse, regions: seq<Region>)
    ensures Collect(policy, api, regions).0.Fetched? <==>
            forall i :: 0 <= i < |regions| ==>
              UsableBody(api(regions[i])) || (policy == Lenient && SleepableRateLimit(api(regions[i])))
  {
    if regions != [] {
      var init := regions[..|regions| - 1];
      CollectSucceedsIff(policy, api, init);
      assert forall i :: 0 <= i < |init| ==> init[i] == regions[i];
    }
  }

  /** Every collected record is tagged "Challenger" and one of the queried regions. */
  lemma {:induction false} CollectTagged(policy: Policy, api: Region -> LeagueResponse, regions: seq<Region>)
    requires Collect(policy, api, regions).0.Fetched?
    ensures forall rec :: rec in Collect(policy, api, regions).0.records ==>
              rec.rank == Challenger && rec.region in regions
  {
    if regions != [] {
      var init := regions[..|regions| - 1];
      CollectTagged(policy, api, init);
      var last := regions[|regions| - 1];
      var step := Step(policy, api, last);
      if api(last).status == StatusOk {
        assert forall i :: 0 <= i < |step.records| ==> step.records[i].rank == Challenger && step.records[i].region == last;
      }
    }
  }

  /** The records of `records` that belong to `region`, in their order. */
  function OfRegion(records: seq<Record>, region: Region): seq<Record>
  {
    if records == [] then []
    else OfRegion(records[..|records| - 1], region)
         + (if records[|records| - 1].region == region then [records[|records| - 1]] else [])
  }

  lemma {:induction false} OfRegionAppend(a: seq<Record>, b: seq<Record>, region: Region)
    ensures OfRegion(a + b, region) == OfRegion(a, region) + OfRegion(b, region)
    decreases |b|
  {
    if b == [] {
      assert a + b == a;
    } else {
      assert (a + b)[..|a + b| - 1] == a + b[..|b| - 1];
      OfRegionAppend(a, b[..|b| - 1], region);
    }
  }

  lemma {:induction false} OfRegionAll(records: seq<Record>, region: Region)
    requires forall i :: 0 <= i < |records| ==> records[i].region == region
    ensures OfRegion(records, region) == records
  {
    if records != [] {
      OfRegionAll(records[..|records| - 1], region);
    }
  }

  lemma {:induction false} OfRegionNone(records: seq<Record>, region: Region)
    requires forall i :: 0 <= i < |records| ==> records[i].region != region
    ensures OfRegion(records, region) == []
  {
    if records != [] {
      OfRegionNone(records[..|records| - 1], region);
    }
  }

  /** A run that completed over `regions` completed over all but the last, which then contributed. */
  lemma CollectSnoc(policy: Policy, api: Region -> LeagueResponse, regions: seq<Region>)
    requires regions != []
    requires Collect(policy, api, regions).0.Fetched?
    ensures Collect(policy, api, regions[..|regions| - 1]).0.Fetched?
    ensures Step(policy, api, regions[|regions| - 1]).Contributed?
    ensures Collect(policy, api, regions).0.records
         == Collect(policy, api, regions[..|regions| - 1]).0.records + Step(policy, api, regions[|regions| - 1]).records
  {
  }

  /** A region contributes records of that region only. */
  lemma StepRegion(policy: Policy, api: Region -> LeagueResponse, region: Region)
    requires Step(policy, api, region).Contributed?
    ensures forall i :: 0 <= i < |Step(policy, api, region).records| ==> Step(policy, api, region).records[i].region == region
  {
  }

  /**
   * Restricted to one region, the collected records are exactly what that
   * region's own response contributed: one record per entry, in entry
   * order, for a 200; nothing for a 429 the lenient loop slept through.
   */
  lemma {:induction false} CollectPerRegion(policy: Policy, api: Region -> LeagueResponse, regions: seq<Region>, k: nat)
    requires Distinct(regions)
    requires k < |regions|
    requires Collect(policy, api, regions).0.Fetched?
    ensures Step(policy, api, regions[k]).Contributed?
    ensures OfRegion(Collect(policy, api, regions).0.records, regions[k]) == Step(policy, api, regions[k]).records
  {
    var init := regions[..|regions| - 1];
    var last := regions[|regions| - 1];
    CollectSnoc(policy, api, regions);
    var prior := Collect(policy, api, init).0.records;
    var step := Step(policy, api, last);
    OfRegionAppend(prior, step.records, regions[k]);
    StepRegion(policy, api, last);
    if k == |regions| - 1 {
      CollectTagged(policy, api, init);
      assert forall i :: 0 <= i < |prior| ==> prior[i].region != last by {
        forall i | 0 <= i < |prior| ensures prior[i].region != last {
          assert prior[i] in prior;
        }
      }
      OfRegionNone(prior, last);
      OfRegionAll(step.records, last);
    } else {
      assert init[k] == regions[k] != last;
      OfRegionNone(step.records, regions[k]);
      CollectPerRegion(policy, api, init, k);
    }
  }

  /**
   * The records keep region order: a record never comes after a record of
   * a region queried later.
   */
  lemma {:induction false} CollectRegionOrder(policy: Policy, api: Region -> LeagueResponse, regions: seq<Region>)
    requires Distinct(regions)
    requires Collect(policy, api, regions).0.Fetched?
    ensures var records := Collect(policy, api, regions).0.records;
            forall a, b, x, y ::
              (&& 0 <= a < b < |records| && 0 <= x < |regions| && 0 <= y < |regions|
               && records[a].region == regions[x] && records[b].region == regions[y]) ==> x <= y
  {
    if regions != [] {
      var init := regions[..|regions| - 1];
      var last := regions[|regions| - 1];
      var prior := Collect(policy, api, init).0.records;
      var step := Step(policy, api, last);
      var records := Collect(policy, api, regions).0.records;
      CollectRegionOrder(policy, api, init);
      CollectTagged(policy, api, init);
      if api(last).status == StatusOk {
        assert forall i :: 0 <= i < |step.records| ==> step.records[i].region == last;
      }
      assert records == prior + step.records;
      forall a, b, x, y |
        0 <= a < b < |records| && 0 <= x < |regions| && 0 <= y < |regions| &&
        records[a].region == regions[x] && records[b].region == regions[y]
        ensures x <= y
      {
        if b < |prior| {
          assert prior[a] in prior;
          var x' :| 0 <= x' < |init| && init[x'] == prior[a].region;
          var y' :| 0 <= y' < |init| && init[y'] == prior[b].region by {
            assert prior[b] in prior;
          }
          assert regions[x'] == regions[x] && regions[y'] == regions[y];
        } else {
          assert records[b] == step.records[b - |prior|];
          assert regions[y] == last;
        }
      }
    }
  }
}
