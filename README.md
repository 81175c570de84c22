# winning-odds-league ingestion functions, modelled in Dafny

The function app of winning-odds-league fills a SQL table, `Summoners`, with
the Challenger players of four Riot regions, then fills in each player's
PUUID. Three HTTP-triggered Azure functions do the work, and this project
models them:

- **FetchTopSummoners** fetches the Challenger league of `euw1`, `eun1`, `kr`
  and `na1`, in that order.
  - On a 429 it sleeps for the region's `Retry-After` (60 s when the header is
    absent) and skips that region.
  - It answers 204 when nothing was fetched.
  - Otherwise it connects through `connect_to_database`, with 3 attempts and
    5 s between failures. Then it creates the table if needed and runs an
    insert-if-absent keyed on (SummonerID, Region) for every fetched record.
- **FetchChallengerSummoners** does the same fetch, with these differences:
  - it refuses an empty Riot API key;
  - it treats every status but 200, 429 included, as an error;
  - it connects once;
  - it has no 204 short-circuit.
- **FetchPuuids** also refuses an empty key. It selects the rows whose PUUID
  is NULL and requests each row's summoner record in consecutive batches of
  100.
  - The first failed request ends the whole run: no later request and no
    later batch.
  - After every successful batch, the last included, it sleeps 120 s.
  - It writes the PUUIDs only when every batch succeeded.

The HTTP APIs, the connection attempts and the clock are inputs to the
model:
- a leaderboard API is a function `Region -> LeagueResponse`;
- the summoner API is a function `Key -> PuuidResponse`;
- connection attempts are a function `nat -> Attempt`.

Each function returns the status code it answers with. It also returns a log
of the externally visible events (`LeagueRequest`, `SummonerRequest`,
`Sleep(seconds)`, `ConnectAttempt`) in the order they happen.

The `Summoners` table is the class `SummonersDb`. It holds whether the table
exists and a map from (SummonerID, Region) to (Rank, PUUID), with a NULL
PUUID as `None`. Its methods are the SQL statements the functions issue.

Each loop of the source is a `method` with a `while`/`for` loop. The method
is proved equal to a recursive reference function:
- `Connect` for the connection loop, recursing forward over the attempt
  number from 0;
- `Collect` for the region loops, with a `Lenient` or `Strict` policy, and
  the others below, each recursing on all but the last element;
- `FetchChunk` for the inner batch loop and `RunChunks` for the outer one;
- `InsertedAll` and `WithPuuids` for the SQL loops.

What the functions promise is proved as lemmas about those reference
functions.

Modules:
- `Riot` (riot.dfy): shared types, the region list, status codes, and the
  records a leaderboard body yields.
- `SummonersTable` (summoners_table.dfy): the table and its statements.
- `ConnectRetry` (connect_retry.dfy): `connect_to_database`.
- `League` (league.dfy): the region loop both leaderboard functions run.
- `TopSummoners` (fetch_top_summoners.dfy), `ChallengerSummoners`
  (fetch_challenger_summoners.dfy) and `Puuids` (fetch_puuids.dfy): the three
  `main` functions.

What the code does not do, and the model therefore does not do either:
- No rank is ever updated and no row is ever deleted: the only write to an
  existing row is FetchPuuids filling in a NULL PUUID.
- A region that answers 429 is skipped after the sleep, not requested again.
- A failed PUUID request discards the results of the batches before it as
  well: nothing is written unless every batch succeeded.

## Model

| member | source | states |
|---|---|---|
| `Riot.EntryRecords` | winning-odds-league-functionapp/FetchTopSummoners/__init__.py:81-86 | A leaderboard body yields records exactly when every entry has a `summonerId`: one per entry, in entry order, with that id, rank "Challenger" and the region. |
| `SummonersTable.Inserted` | winning-odds-league-functionapp/FetchTopSummoners/__init__.py:117-130 | One insert-if-absent adds the record's pair and nothing else. Every existing row keeps its rank and PUUID. A new row has the record's rank and a NULL PUUID. |
| `SummonersTable.InsertedAllEffect` | winning-odds-league-functionapp/FetchTopSummoners/__init__.py:116-130 | After the insert loop the table's pairs are the old pairs plus the fetched pairs. Pre-existing rows are unchanged. |
| `SummonersTable.InsertedAllFirstWins` | winning-odds-league-functionapp/FetchTopSummoners/__init__.py:116-130 | A pair that was absent gets one row, with the rank of its first record and a NULL PUUID. Later duplicates of the pair insert nothing. |
| `SummonersTable.InsertedAllPresent` | winning-odds-league-functionapp/FetchChallengerSummoners/__init__.py:89-103 | When every fetched pair is already present, the insert loop leaves the table exactly as it was. |
| `SummonersTable.InsertedAllIdempotent` | winning-odds-league-functionapp/FetchChallengerSummoners/__init__.py:89-103 | Running the insert loop a second time with the same records changes nothing. |
| `SummonersTable.WithPuuid` | winning-odds-league-functionapp/FetchPuuids/__init__.py:86-93 | One UPDATE sets the PUUID of the matching row only, keeps its rank, and adds or removes no row. |
| `SummonersTable.WithPuuidsEffect` | winning-odds-league-functionapp/FetchPuuids/__init__.py:85-93 | With no pair updated twice, the UPDATE loop gives each updated row exactly its own update's PUUID. Every other row is unchanged, and the set of pairs is the same. |
| `SummonersTable.SummonersDb.CreateTableIfNotExists` | winning-odds-league-functionapp/FetchTopSummoners/__init__.py:97-113 | Afterwards the table exists. Its rows are the old rows, or none if it was just created. |
| `SummonersTable.SummonersDb.InsertIfAbsent` | winning-odds-league-functionapp/FetchTopSummoners/__init__.py:117-130 | The rows become `Inserted(old rows, record)`. |
| `SummonersTable.SummonersDb.InsertSummoners` | winning-odds-league-functionapp/FetchChallengerSummoners/__init__.py:89-103 | The loop leaves the rows equal to `InsertedAll(old rows, records)`, one insert-if-absent per record in list order. |
| `SummonersTable.SummonersDb.SelectNullPuuid` | winning-odds-league-functionapp/FetchPuuids/__init__.py:48-49 | The SELECT returns each NULL-PUUID row exactly once and no other row, in some order. |
| `SummonersTable.SummonersDb.UpdatePuuid` | winning-odds-league-functionapp/FetchPuuids/__init__.py:86-93 | The rows become `WithPuuid(old rows, update)`. |
| `SummonersTable.SummonersDb.UpdatePuuids` | winning-odds-league-functionapp/FetchPuuids/__init__.py:85-93 | The loop leaves the rows equal to `WithPuuids(old rows, updates)`, in collection order. |
| `ConnectRetry.ConnectToDatabase` | winning-odds-league-functionapp/FetchTopSummoners/__init__.py:10-24 | The retry loop returns exactly the result and events of the reference `Connect`. |
| `ConnectRetry.ConnectFirstSuccess` | winning-odds-league-functionapp/FetchTopSummoners/__init__.py:11-21 | When attempt k < retries is the first success, the result is that attempt's connection, after k+1 attempts with a sleep of `delay` after each of the k failures. |
| `ConnectRetry.ConnectAllFail` | winning-odds-league-functionapp/FetchTopSummoners/__init__.py:17-24 | When all `retries` attempts fail, the last attempt's error is re-raised and no connection is returned. There are `retries` attempts, with a sleep between consecutive ones and none after the last. |
| `ConnectRetry.FailedTriesCounts` | winning-odds-league-functionapp/FetchTopSummoners/__init__.py:19-21 | k failed non-final tries produce exactly k attempts and k sleeps of `delay`. |
| `ConnectRetry.ConnectBounded` | winning-odds-league-functionapp/FetchTopSummoners/__init__.py:10-24 | Whatever the attempts do: there are at most `retries` attempts; there is one sleep fewer than attempts; a connection comes from a succeeding attempt; None is returned, with no attempt at all, exactly when `retries` is not positive. |
| `League.Step` | winning-odds-league-functionapp/FetchTopSummoners/__init__.py:64-86 | One region contributes exactly when it answers 200 with `entries` whose every entry has a `summonerId`, or (lenient only) a 429 with a sleepable `Retry-After`. A 429 contributes no records and logs a sleep of the header's value, 60 if absent. Anything else raises after the region's one request. |
| `League.AppendEntries` | winning-odds-league-functionapp/FetchChallengerSummoners/__init__.py:58-63 | The entry loop appends exactly `EntryRecords` to `summoners`, and raises when and only when an entry lacks `summonerId`. |
| `League.CollectAbort` | winning-odds-league-functionapp/FetchTopSummoners/__init__.py:74-79 | A region that raises ends the loop with its error. Later regions are never requested. |
| `League.CollectSucceedsIff` | winning-odds-league-functionapp/FetchChallengerSummoners/__init__.py:50-63 | The region loop completes if and only if every region's response is usable, or (lenient only) a sleepable 429. |
| `League.CollectTagged` | winning-odds-league-functionapp/FetchChallengerSummoners/__init__.py:45-63 | Every collected record has rank "Challenger" and one of the queried regions. |
| `League.CollectPerRegion` | winning-odds-league-functionapp/FetchTopSummoners/__init__.py:59-86 | The records of one region are exactly what that region's own response contributed: one per entry in entry order for a 200, none for a skipped 429. |
| `League.CollectRegionOrder` | winning-odds-league-functionapp/FetchTopSummoners/__init__.py:59-86 | Records keep region order: no record follows a record of a region queried later. |
| `League.CollectNeverConnects` | winning-odds-league-functionapp/FetchTopSummoners/__init__.py:59-91 | The region loop logs no connection attempt. |
| `TopSummoners.CollectSummoners` | winning-odds-league-functionapp/FetchTopSummoners/__init__.py:59-86 | The lenient region loop, with its `continue` on 429 and its raises, returns exactly `Collect(Lenient, ...)`. |
| `TopSummoners.HandleRequest` | winning-odds-league-functionapp/FetchTopSummoners/__init__.py:26-136 | A failed fetch answers 500 without connecting or touching the table. No records answers 204 without connecting. A failed connection answers 500 with the table unchanged. Otherwise the answer is 200, the table exists and its rows are `InsertedAll(old rows, records)`. |
| `ChallengerSummoners.CollectSummoners` | winning-odds-league-functionapp/FetchChallengerSummoners/__init__.py:44-63 | The strict region loop, where every non-200 raises, returns exactly `Collect(Strict, ...)`. |
| `ChallengerSummoners.HandleRequest` | winning-odds-league-functionapp/FetchChallengerSummoners/__init__.py:9-109 | An empty key answers 500 before any request. A failed fetch or connection answers 500 with the table unchanged. Otherwise the answer is 200 and the rows are `InsertedAll(old rows, records)`, also when no record was fetched. |
| `Puuids.ChunksPartition` | winning-odds-league-functionapp/FetchPuuids/__init__.py:51-56 | The batches concatenate back to the selected rows in order. There are ceil(n/100) of them, none is empty, and only the last may hold fewer than 100. |
| `Puuids.ChunkAt` | winning-odds-league-functionapp/FetchPuuids/__init__.py:55-56 | Batch c exists exactly when row 100c does, and is `rows[100c : 100c + 100]`. |
| `Puuids.FetchChunkAllOk` | winning-odds-league-functionapp/FetchPuuids/__init__.py:60-66 | A batch whose responses are all 200 with a PUUID requests every row once, in order, and collects each row's own PUUID. |
| `Puuids.FetchChunkFirstFailure` | winning-odds-league-functionapp/FetchPuuids/__init__.py:60-70 | The batch stops right after the first response that is not a 200 with a PUUID. It fails on a non-200 and raises on a 200 without a PUUID. |
| `Puuids.BatchesAllSucceed` | winning-odds-league-functionapp/FetchPuuids/__init__.py:55-82 | When every response is usable, the updates are one per row in row order, each with that row's PUUID. The log is each batch's requests, in row order, followed by one 120 s sleep, batch after batch, the last included. |
| `Puuids.BatchesStopAtFirstFailure` | winning-odds-league-functionapp/FetchPuuids/__init__.py:55-82 | When row j is the first unusable one, the run fails (or raises) right after requesting it. Later rows are never requested, and only the j/100 earlier batches were followed by a sleep. |
| `Puuids.BatchesSucceedIff` | winning-odds-league-functionapp/FetchPuuids/__init__.py:55-84 | All batches succeed if and only if every selected row's response is a 200 with a PUUID. |
| `Puuids.UpdatesEnrich` | winning-odds-league-functionapp/FetchPuuids/__init__.py:84-93 | Writing the collected updates for any duplicate-free order of the NULL-PUUID rows fills exactly those rows, each with its own response's PUUID. |
| `Puuids.FetchBatch` | winning-odds-league-functionapp/FetchPuuids/__init__.py:57-70 | The inner loop, with its flag, its `break` and the KeyError, returns exactly `FetchChunk`. |
| `Puuids.FetchBatches` | winning-odds-league-functionapp/FetchPuuids/__init__.py:51-82 | The outer loop, with its flag, its `break` and its sleeps, returns exactly `RunChunks` over the batches. |
| `Puuids.HandleRequest` | winning-odds-league-functionapp/FetchPuuids/__init__.py:10-102 | An empty key answers 500 before connecting. A failed connection or a missing table answers 500. The answer is 200 if and only if every NULL-PUUID row's response is usable. Then the table still exists, each such row gets its own PUUID and nothing else changes; with no such row this makes no request and writes nothing. Every 500 leaves the table unchanged. |

## Left out

- Key Vault secrets, `DefaultAzureCredential`, environment-variable defaults and the connection string are external calls and string assembly. The API key is a parameter, and a connection is an `Attempt` outcome.
- HTTP requests, URLs and headers are the response functions. A body that is not JSON (`response.json()` raising) is not modelled: a body either has the expected key or lacks it.
- SQL text and cursors are the `SummonersDb` methods. A statement that fails on an existing table (a VARCHAR length overflow, a lost connection) is not modelled. The one failure that is modelled is the SELECT on a missing table in FetchPuuids.
- The IDENTITY column `ID` and the column length limits are not modelled.
- The table is a map keyed on (SummonerID, Region), which the insert-if-absent statement keeps unique. Duplicate pairs that other code could insert directly are not modelled.
- Partial writes under `autocommit=True` are not modelled: the insert or UPDATE loop dying halfway through is a database failure mode, not program logic.
- Closing the connection at the end of `with ... as conn` is not modelled.
- Logging and the `HttpResponse` message bodies are not modelled; only the status code is.
- Keys are compared as exact strings. SQL Server's `WHERE SummonerID = ? AND Region = ?` ignores trailing spaces and, under the default case-insensitive collation, case. So the insert-if-absent and the UPDATE can match a stored pair that the map treats as a different pair; pairs that differ only that way are not modelled.
- A JSON `null` value is not modelled: `None` in `Entry.summonerId` and `PuuidResponse.puuid` means the key is absent. In Python, `"puuid": null` raises nothing. The code then collects None, issues `SET PUUID = NULL` and can answer 200, where the model fails the run. Likewise `"summonerId": null` fails only at the NOT NULL insert, after the earlier inserts were written, where the model fails before connecting.
- Concurrent invocations are not modelled: `Puuids.HandleRequest` assumes that nobody else writes the table while the run holds its selected keys across the 120 s sleeps.
- `connect_to_database`'s `delay` is a `nat`. In Python a negative delay makes `time.sleep` raise a ValueError, which is not a `pyodbc.Error` and escapes the retry loop. `main` only ever passes 5.
- `time.sleep` is an event in the log, not elapsed time. A `Retry-After` that `int()` cannot parse, or that is negative, raises and ends the run with 500.
- A `connect_to_database` result of `None` needs `retries <= 0` and cannot happen with the default of 3. The model still answers 500 for it, as the `with None` failure does in Python.
- WriteMyRiotMatches, SayHello, get_challenger_players.py and the old `azure-riot-function` app are not part of this model. WriteMyRiotMatches inserts hard-coded rows, SayHello returns a constant, and get_challenger_players.py dumps one HTTP response to a file. The old app only tests a SQL connection with `SELECT 1`, and creates and lists a test table.
