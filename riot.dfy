/**
 * Types shared by the three Azure functions of the function app: summoner
 * identities, the records fetched from the Riot leaderboard API, the
 * responses of that API, and the log of externally visible events
 * (HTTP requests, sleeps, connection attempts) a run produces.
 */
module Riot {

  datatype Option<+T> = None | Some(value: T)

  type SummonerId = string
  type Region = string
  type Puuid = string

  /** A row of the Summoners table is identified by its (SummonerID, Region) pair. */
  datatype Key = Key(summonerId: SummonerId, region: Region)

  /** One element of the `summoners` list built by the region loops. */
  datatype Record = Record(summonerId: SummonerId, rank: string, region: Region)

  function KeyOf(r: Record): Key
  {
    Key(r.summonerId, r.region)
  }

  const Challenger: string := "Challenger"

  /** The regions both leaderboard functions query, in the order they query them. */
  const Regions: seq<Region> := ["euw1", "eun1", "kr", "na1"]

  /** HTTP status codes that the functions inspect or return. */
  const StatusOk: int := 200
  const StatusNoContent: int := 204
  const StatusTooManyRequests: int := 429
  const StatusServerError: int := 500

  /** Externally visible steps of a run, in the order they happen. */
  datatype Event =
    | LeagueRequest(region: Region)      // GET challengerleagues/by-queue/RANKED_SOLO_5x5 on a region
    | SummonerRequest(key: Key)          // GET summoners/{summonerId} on the key's region
    | Sleep(seconds: nat)                // time.sleep
    | ConnectAttempt                     // pyodbc.connect

  /** The outcome of one `pyodbc.connect` call; a connection is an opaque handle. */
  datatype Attempt = Succeeds(conn: nat) | Fails(message: string)

  /** One element of a leaderboard body's `entries` list; the `summonerId` key may be absent. */
  datatype Entry = Entry(summonerId: Option<SummonerId>)

  /** The `Retry-After` header as `int(...)` sees it. */
  datatype RetryAfter = Absent | Seconds(n: int) | Unparsable

  /**
   * A response of the leaderboard endpoint: its status, its `Retry-After`
   * header and, when the JSON body has an `entries` key, that list.
   */
  datatype LeagueResponse = LeagueResponse(status: int, retryAfter: RetryAfter, entries: Option<seq<Entry>>)

  /** The exception that ends a region loop; the enclosing `except` turns it into an HTTP 500. */
  datatype Error =
    | UpstreamStatus(region: Region, status: int)  // the explicit raise on a status other than 200
    | MissingEntries(region: Region)               // a body without "entries"
    | MissingSummonerId(region: Region)            // an entry without "summonerId": KeyError
    | InvalidRetryAfter(region: Region)            // int() or time.sleep rejects the Retry-After

  /** No element occurs twice. */
  predicate Distinct<T(==)>(s: seq<T>)
  {
    forall i, j :: 0 <= i < j < |s| ==> s[i] != s[j]
  }

  /** How many times `e` occurs in `log`. */
  function Occurrences(log: seq<Event>, e: Event): (n: nat)
    ensures n <= |log|
    ensures e !in log ==> n == 0
  {
    if log == [] then 0
    else Occurrences(log[..|log| - 1], e) + (if log[|log| - 1] == e then 1 else 0)
  }

  lemma {:induction false} OccurrencesAppend(a: seq<Event>, b: seq<Event>, e: Event)
    ensures Occurrences(a + b, e) == Occurrences(a, e) + Occurrences(b, e)
    decreases |b|
  {
    if b == [] {
      assert a + b == a;
    } else {
      var b' := b[..|b| - 1];
      assert (a + b)[..|a + b| - 1] == a + b';
      OccurrencesAppend(a, b', e);
    }
  }

  /**
   * The records one successful leaderboard response contributes: one per
   * entry, in entry order, tagged "Challenger" and the region; None when
   * an entry has no `summonerId` (the lookup raises KeyError).
   */
  function EntryRecords(entries: seq<Entry>, region: Region): (r: Option<seq<Record>>)
    ensures r.Some? <==> forall i :: 0 <= i < |entries| ==> entries[i].summonerId.Some?
    ensures r.Some? ==> |r.value| == |entries|
    ensures r.Some? ==> forall i :: 0 <= i < |entries| ==>
              r.value[i] == Record(entries[i].summonerId.value, Challenger, region)
  {
    if entries == [] then Some([])
    else
      match EntryRecords(entries[..|entries| - 1], region)
      case None => None
      case Some(rs) =>
        match entries[|entries| - 1].summonerId
        case None => None
        case Some(id) => Some(rs + [Record(id, Challenger, region)])
  }
}
