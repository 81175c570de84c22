/**
 * FetchPuuids: select the rows whose PUUID is NULL, fetch each one's PUUID
 * in consecutive batches of 100, give up at the first failed request
 * (no later request, no later batch), pause two minutes after every
 * successful batch, and write the PUUIDs only when every batch succeeded.
 */
module Puuids {
  import opened Riot
  import opened SummonersTable

  const BatchSize: nat := 100

  /** Seconds of `time.sleep` after each successful batch. */
  const BatchPause: nat := 120

  /** A response of the summoner endpoint: its status and, if the JSON body has one, its `puuid`. */
  datatype PuuidResponse = PuuidResponse(status: int, puuid: Option<Puuid>)

  /** A response the inner loop turns into a PUUID. */
  predicate Fetchable(resp: PuuidResponse)
  {
    resp.status == StatusOk && resp.puuid.Some?
  }

  function Min(a: int, b: int): int
  {
    if a < b then a else b
  }

  // ---------------------------------------------------------------------
  // Batching: `for i in range(0, len(rows), batch_size): batch = rows[i:i + batch_size]`

  /** The batches of `keys`, in order. */
  function Chunks(keys: seq<Key>): seq<seq<Key>>
    decreases |keys|
  {
    if |keys| <= BatchSize then (if keys == [] then [] else [keys])
    else [keys[..BatchSize]] + Chunks(keys[BatchSize..])
  }

  function Flatten(chunks: seq<seq<Key>>): seq<Key>
  {
    if chunks == [] then [] else chunks[0] + Flatten(chunks[1..])
  }

  lemma {:induction false} FlattenSnoc(chunks: seq<seq<Key>>)
    requires chunks != []
    ensures Flatten(chunks) == Flatten(chunks[..|chunks| - 1]) + chunks[|chunks| - 1]
  {
    if |chunks| > 1 {
      FlattenSnoc(chunks[1..]);
      assert chunks[1..][..|chunks[1..]| - 1] == chunks[..|chunks| - 1][1..];
    } else {
      assert chunks[..0] == [];
    }
  }

  /**
   * The batches partition the rows: concatenated they give back the rows in
   * their order, there are ceil(n / 100) of them, none is empty, and only
   * the last may hold fewer than 100.
   */
  lemma {:induction false} ChunksPartition(keys: seq<Key>)
    ensures Flatten(Chunks(keys)) == keys
    ensures |Chunks(keys)| == (|keys| + BatchSize - 1) / BatchSize
    ensures forall c :: 0 <= c < |Chunks(keys)| ==> 1 <= |Chunks(keys)[c]| <= BatchSize
    ensures forall c :: 0 <= c < |Chunks(keys)| - 1 ==> |Chunks(keys)[c]| == BatchSize
    decreases |keys|
  {
    if |keys| > BatchSize {
      var rest := keys[BatchSize..];
      ChunksPartition(rest);
      assert Chunks(keys)[1..] == Chunks(rest);
      assert keys[..BatchSize] + rest == keys;
      forall c | 0 <= c < |Chunks(keys)| ensures 1 <= |Chunks(keys)[c]| <= BatchSize {
        if c > 0 {
          assert Chunks(keys)[c] == Chunks(rest)[c - 1];
        }
      }
      forall c | 0 <= c < |Chunks(keys)| - 1 ensures |Chunks(keys)[c]| == BatchSize {
        if c > 0 {
          assert Chunks(keys)[c] == Chunks(rest)[c - 1];
        }
      }
    } else if keys != [] {
      assert Flatten([keys]) == keys + Flatten([]);
    }
  }

  /** Batch number `c` starts at row `100 * c`, and exists exactly when that row does. */
  lemma {:induction false} ChunkAt(keys: seq<Key>, c: nat)
    ensures c < |Chunks(keys)| <==> BatchSize * c < |keys|
    ensures c < |Chunks(keys)| ==> Chunks(keys)[c] == keys[BatchSize * c .. Min(BatchSize * c + BatchSize, |keys|)]
    decreases |keys|
  {
    if |keys| > BatchSize && c > 0 {
      var rest := keys[BatchSize..];
      ChunkAt(rest, c - 1);
      if c < |Chunks(keys)| {
        assert Chunks(keys)[c] == Chunks(rest)[c - 1];
        assert rest[BatchSize * (c - 1) .. Min(BatchSize * (c - 1) + BatchSize, |rest|)]
            == keys[BatchSize * c .. Min(BatchSize * c + BatchSize, |keys|)];
      }
    }
  }

  /** The batches before batch `c` are the batches of the first `100 * c` rows. */
  lemma {:induction false} ChunksPrefix(keys: seq<Key>, c: nat)
    requires BatchSize * c <= |keys|
    ensures c <= |Chunks(keys)|
    ensures Chunks(keys)[..c] == Chunks(keys[..BatchSize * c])
    decreases c
  {
    if c > 0 {
      if |keys| > BatchSize {
        var rest := keys[BatchSize..];
        ChunksPrefix(rest, c - 1);
        if c > 1 {
          var front := keys[..BatchSize * c];
          assert front[..BatchSize] == keys[..BatchSize];
          assert front[BatchSize..] == rest[..BatchSize * (c - 1)];
          assert Chunks(front) == [keys[..BatchSize]] + Chunks(rest[..BatchSize * (c - 1)]);
          assert Chunks(keys)[..c] == [keys[..BatchSize]] + Chunks(rest)[..c - 1];
        } else {
          assert keys[..BatchSize * c] == keys[..BatchSize];
        }
      } else {
        assert keys[..BatchSize * c] == keys;
      }
    }
  }

  // ---------------------------------------------------------------------
  // The requests of one batch: the inner `for summoner_id, region in batch` loop

  datatype ChunkResult =
    | ChunkOk(updates: seq<PuuidUpdate>)  // batch_success stayed True
    | ChunkFailed                         // a non-200 set batch_success to False
    | ChunkRaised                         // a 200 without "puuid": KeyError

  /** The request events for `keys`, in order. */
  function Requests(keys: seq<Key>): (log: seq<Event>)
    ensures |log| == |keys|
    ensures forall i :: 0 <= i < |keys| ==> log[i] == SummonerRequest(keys[i])
  {
    seq(|keys|, i requires 0 <= i < |keys| => SummonerRequest(keys[i]))
  }

  /** The PUUID updates collected for `keys`, each from that key's own response. */
  function Updates(api: Key -> PuuidResponse, keys: seq<Key>): (us: seq<PuuidUpdate>)
    requires forall k :: k in keys ==> Fetchable(api(k))
    ensures |us| == |keys|
    ensures forall i :: 0 <= i < |keys| ==> keys[i] in keys && Fetchable(api(keys[i])) && us[i] == PuuidUpdate(api(keys[i]).puuid.value, keys[i])
  {
    seq(|keys|, i requires 0 <= i < |keys| => assert keys[i] in keys; assert Fetchable(api(keys[i])); PuuidUpdate(api(keys[i]).puuid.value, keys[i]))
  }

  /** The reference behaviour of the inner loop over one batch. */
  function FetchChunk(api: Key -> PuuidResponse, chunk: seq<Key>): (ChunkResult, seq<Event>)
  {
    if chunk == [] then (ChunkOk([]), [])
    else
      var (result, log) := FetchChunk(api, chunk[..|chunk| - 1]);
      if !result.ChunkOk? then (result, log)
      else
        var key := chunk[|chunk| - 1];
        var resp := api(key);
        var log' := log + [SummonerRequest(key)];
        if resp.status != StatusOk then (ChunkFailed, log')
        else
          match resp.puuid
          case None => (ChunkRaised, log')
          case Some(p) => (ChunkOk(result.updates + [PuuidUpdate(p, key)]), log')
  }

  lemma {:induction false} FetchChunkSticks(api: Key -> PuuidResponse, chunk: seq<Key>, j: nat)
    requires j <= |chunk|
    requires !FetchChunk(api, chunk[..j]).0.ChunkOk?
    ensures FetchChunk(api, chunk) == FetchChunk(api, chunk[..j])
    decreases |chunk| - j
  {
    if j < |chunk| {
      assert chunk[..|chunk| - 1][..j] == chunk[..j];
      FetchChunkSticks(api, chunk[..|chunk| - 1], j);
    } else {
      assert chunk[..j] == chunk;
    }
  }

  /** One more request in a batch that has not failed yet. */
  lemma FetchChunkExtend(api: Key -> PuuidResponse, chunk: seq<Key>, j: nat)
    requires j < |chunk|
    requires FetchChunk(api, chunk[..j]).0.ChunkOk?
    ensures var (before, log) := FetchChunk(api, chunk[..j]);
            var resp := api(chunk[j]);
            (FetchChunk(api, chunk[..j + 1])
             == (if resp.status != StatusOk then ChunkFailed
                 else if resp.puuid.None? then ChunkRaised
                 else ChunkOk(before.updates + [PuuidUpdate(resp.puuid.value, chunk[j])]),
                 log + [SummonerRequest(chunk[j])]))
  {
    assert chunk[..j + 1][..j] == chunk[..j];
  }

  /** A batch whose every response is usable yields every PUUID in order, after one request per row. */
  lemma {:induction false} FetchChunkAllOk(api: Key -> PuuidResponse, chunk: seq<Key>)
    requires forall k :: k in chunk ==> Fetchable(api(k))
    ensures FetchChunk(api, chunk) == (ChunkOk(Updates(api, chunk)), Requests(chunk))
  {
    if chunk != [] {
      var init := chunk[..|chunk| - 1];
      assert forall k :: k in init ==> k in chunk;
      FetchChunkAllOk(api, init);
      assert Updates(api, chunk) == Updates(api, init) + [Updates(api, chunk)[|chunk| - 1]];
      assert Requests(chunk) == Requests(init) + [SummonerRequest(chunk[|chunk| - 1])];
    }
  }

  /** The first unusable response ends the batch right after its own request. */
  lemma {:induction false} FetchChunkFirstFailure(api: Key -> PuuidResponse, chunk: seq<Key>, j: nat)
    requires j < |chunk|
    requires !Fetchable(api(chunk[j]))
    requires forall i :: 0 <= i < j ==> Fetchable(api(chunk[i]))
    ensures FetchChunk(api, chunk)
         == (if api(chunk[j]).status == StatusOk then ChunkRaised else ChunkFailed, Requests(chunk[..j + 1]))
  {
    var front := chunk[..j];
    var upto := chunk[..j + 1];
    assert forall k :: k in front ==> Fetchable(api(k));
    FetchChunkAllOk(api, front);
    assert upto[..j] == front;
    assert Requests(upto) == Requests(front) + [SummonerRequest(chunk[j])];
    FetchChunkSticks(api, chunk, j + 1);
  }

  // ---------------------------------------------------------------------
  // All batches: the outer loop

  datatype BatchOutcome =
    | AllSucceeded(updates: seq<PuuidUpdate>)  // all_batches_success stayed True
    | BatchFailed                              // a batch failed; later batches were not run
    | BatchRaised                              // the KeyError propagated

  /** The reference behaviour of the outer loop over `chunks`. */
  function RunChunks(api: Key -> PuuidResponse, chunks: seq<seq<Key>>): (BatchOutcome, seq<Event>)
  {
    if chunks == [] then (AllSucceeded([]), [])
    else
      var (outcome, log) := RunChunks(api, chunks[..|chunks| - 1]);
      if !outcome.AllSucceeded? then (outcome, log)
      else
        var (result, more) := FetchChunk(api, chunks[|chunks| - 1]);
        match result
        case ChunkOk(us) => (AllSucceeded(outcome.updates + us), log + more + [Sleep(BatchPause)])
        case ChunkFailed => (BatchFailed, log + more)
        case ChunkRaised => (BatchRaised, log + more)
  }

  lemma {:induction false} RunChunksSticks(api: Key -> PuuidResponse, chunks: seq<seq<Key>>, c: nat)
    requires c <= |chunks|
    requires !RunChunks(api, chunks[..c]).0.AllSucceeded?
    ensures RunChunks(api, chunks) == RunChunks(api, chunks[..c])
    decreases |chunks| - c
  {
    if c < |chunks| {
      assert chunks[..|chunks| - 1][..c] == chunks[..c];
      RunChunksSticks(api, chunks[..|chunks| - 1], c);
    } else {
      assert chunks[..c] == chunks;
    }
  }

  /** One more batch after batches that all succeeded. */
  lemma RunChunksExtend(api: Key -> PuuidResponse, chunks: seq<seq<Key>>, c: nat)
    requires c < |chunks|
    requires RunChunks(api, chunks[..c]).0.AllSucceeded?
    ensures var (before, log) := RunChunks(api, chunks[..c]);
            var (result, more) := FetchChunk(api, chunks[c]);
            && (result.ChunkOk? ==>
                  RunChunks(api, chunks[..c + 1]) == (AllSucceeded(before.updates + result.updates), log + more + [Sleep(BatchPause)]))
            && (result.ChunkFailed? ==> RunChunks(api, chunks) == (BatchFailed, log + more))
            && (result.ChunkRaised? ==> RunChunks(api, chunks) == (BatchRaised, log + more))
  {
    assert chunks[..c + 1][..c] == chunks[..c];
    if !FetchChunk(api, chunks[c]).0.ChunkOk? {
      RunChunksSticks(api, chunks, c + 1);
    }
  }

  /** The events of batches that all succeed: each batch's requests, then its pause. */
  function OkLog(chunks: seq<seq<Key>>): seq<Event>
  {
    if chunks == [] then []
    else OkLog(chunks[..|chunks| - 1]) + Requests(chunks[|chunks| - 1]) + [Sleep(BatchPause)]
  }

  lemma UpdatesAppend(api: Key -> PuuidResponse, a: seq<Key>, b: seq<Key>)
    requires forall k :: k in a + b ==> Fetchable(api(k))
    ensures forall k :: k in a ==> Fetchable(api(k))
    ensures forall k :: k in b ==> Fetchable(api(k))
    ensures Updates(api, a + b) == Updates(api, a) + Updates(api, b)
  {
    assert forall k :: k in a ==> k in a + b;
    assert forall k :: k in b ==> k in a + b;
  }

  lemma {:induction false} RunChunksAllOk(api: Key -> PuuidResponse, chunks: seq<seq<Key>>)
    requires forall k :: k in Flatten(chunks) ==> Fetchable(api(k))
    ensures RunChunks(api, chunks) == (AllSucceeded(Updates(api, Flatten(chunks))), OkLog(chunks))
  {
    if chunks != [] {
      var init := chunks[..|chunks| - 1];
      var last := chunks[|chunks| - 1];
      FlattenSnoc(chunks);
      UpdatesAppend(api, Flatten(init), last);
      RunChunksAllOk(api, init);
      FetchChunkAllOk(api, last);
    }
  }

  /** The keys of the summoner requests in `log`, in order. */
  function Requested(log: seq<Event>): seq<Key>
  {
    if log == [] then []
    else Requested(log[..|log| - 1]) + (if log[|log| - 1].SummonerRequest? then [log[|log| - 1].key] else [])
  }

  lemma {:induction false} RequestedAppend(a: seq<Event>, b: seq<Event>)
    ensures Requested(a + b) == Requested(a) + Requested(b)
    decreases |b|
  {
    if b == [] {
      assert a + b == a;
    } else {
      assert (a + b)[..|a + b| - 1] == a + b[..|b| - 1];
      RequestedAppend(a, b[..|b| - 1]);
    }
  }

  lemma {:induction false} RequestedRequests(keys: seq<Key>)
    ensures Requested(Requests(keys)) == keys
    ensures Occurrences(Requests(keys), Sleep(BatchPause)) == 0
  {
    if keys != [] {
      var init := keys[..|keys| - 1];
      assert Requests(keys)[..|keys| - 1] == Requests(init);
      RequestedRequests(init);
    }
  }

  /** All-success events hold one request per row, in row order, and one pause per batch. */
  lemma {:induction false} OkLogShape(chunks: seq<seq<Key>>)
    ensures Requested(OkLog(chunks)) == Flatten(chunks)
    ensures Occurrences(OkLog(chunks), Sleep(BatchPause)) == |chunks|
    ensures chunks != [] ==> OkLog(chunks)[|OkLog(chunks)| - 1] == Sleep(BatchPause)
  {
    if chunks != [] {
      var init := chunks[..|chunks| - 1];
      var last := chunks[|chunks| - 1];
      OkLogShape(init);
      FlattenSnoc(chunks);
      RequestedRequests(last);
      RequestedAppend(OkLog(init), Requests(last));
      RequestedAppend(OkLog(init) + Requests(last), [Sleep(BatchPause)]);
      OccurrencesAppend(OkLog(init), Requests(last), Sleep(BatchPause));
      OccurrencesAppend(OkLog(init) + Requests(last), [Sleep(BatchPause)], Sleep(BatchPause));
      assert [Sleep(BatchPause)][..0] == [];
    }
  }

  /**
   * When every selected row's response is a 200 with a PUUID, every batch
   * succeeds: the collected updates are exactly one per row, in row order,
   * each with that row's own PUUID; every row is requested once, in order;
   * and a pause follows every batch, the last one included.
   */
  lemma BatchesAllSucceed(api: Key -> PuuidResponse, keys: seq<Key>)
    requires forall k :: k in keys ==> Fetchable(api(k))
    ensures var (outcome, log) := RunChunks(api, Chunks(keys));
            && outcome == AllSucceeded(Updates(api, keys))
            && log == OkLog(Chunks(keys))
            && Requested(log) == keys
            && Occurrences(log, Sleep(BatchPause)) == |Chunks(keys)|
            && (keys != [] ==> log[|log| - 1] == Sleep(BatchPause))
  {
    ChunksPartition(keys);
    RunChunksAllOk(api, Chunks(keys));
    OkLogShape(Chunks(keys));
  }

  /**
   * When row `j` is the first whose response is not a 200 with a PUUID, the
   * run stops right after requesting it: rows after `j` are never
   * requested, no pause follows the failed batch, one pause followed each
   * of the `j / 100` batches before it, and nothing is collected. A non-200
   * fails the batch; a 200 without a PUUID raises.
   */
  lemma BatchesStopAtFirstFailure(api: Key -> PuuidResponse, keys: seq<Key>, j: nat)
    requires j < |keys|
    requires !Fetchable(api(keys[j]))
    requires forall i :: 0 <= i < j ==> Fetchable(api(keys[i]))
    ensures var (outcome, log) := RunChunks(api, Chunks(keys));
            && outcome == (if api(keys[j]).status == StatusOk then BatchRaised else BatchFailed)
            && Requested(log) == keys[..j + 1]
            && Occurrences(log, Sleep(BatchPause)) == j / BatchSize
            && log[|log| - 1] == SummonerRequest(keys[j])
  {
    var c := j / BatchSize;
    var start := BatchSize * c;
    assert start <= j < start + BatchSize;
    var okLog := DoneBatchesSucceed(api, keys, c);
    var chunkLog := FailingBatch(api, keys, j, c);
    StoppedLog(keys, start, j, okLog, chunkLog);
  }

  /** The events of the successful batches followed by the failed batch's requests up to row `j`. */
  lemma StoppedLog(keys: seq<Key>, start: nat, j: nat, okLog: seq<Event>, chunkLog: seq<Event>)
    requires start <= j < |keys|
    requires Requested(okLog) == keys[..start]
    requires chunkLog == Requests(keys[start..j + 1])
    ensures Requested(okLog + chunkLog) == keys[..j + 1]
    ensures Occurrences(okLog + chunkLog, Sleep(BatchPause)) == Occurrences(okLog, Sleep(BatchPause))
    ensures (okLog + chunkLog)[|okLog + chunkLog| - 1] == SummonerRequest(keys[j])
  {
    RequestedAppend(okLog, chunkLog);
    RequestedRequests(keys[start..j + 1]);
    OccurrencesAppend(okLog, chunkLog, Sleep(BatchPause));
    assert keys[..start] + keys[start..j + 1] == keys[..j + 1];
  }

  /** The `c` batches before a failure all succeed, requesting the first `100 * c` rows. */
  lemma DoneBatchesSucceed(api: Key -> PuuidResponse, keys: seq<Key>, c: nat) returns (okLog: seq<Event>)
    requires BatchSize * c <= |keys|
    requires forall i :: 0 <= i < BatchSize * c ==> Fetchable(api(keys[i]))
    ensures c <= |Chunks(keys)|
    ensures RunChunks(api, Chunks(keys)[..c]).0.AllSucceeded?
    ensures RunChunks(api, Chunks(keys)[..c]).1 == okLog
    ensures Requested(okLog) == keys[..BatchSize * c]
    ensures Occurrences(okLog, Sleep(BatchPause)) == c
  {
    var front := keys[..BatchSize * c];
    ChunksPrefix(keys, c);
    ChunksPartition(front);
    assert forall k :: k in Flatten(Chunks(front)) ==> Fetchable(api(k));
    RunChunksAllOk(api, Chunks(front));
    OkLogShape(Chunks(front));
    okLog := OkLog(Chunks(front));
  }

  /** Batch `c`, the one holding row `j`, run after successful batches, fails right after requesting row `j`. */
  lemma FailingBatch(api: Key -> PuuidResponse, keys: seq<Key>, j: nat, c: nat) returns (chunkLog: seq<Event>)
    requires j < |keys|
    requires BatchSize * c <= j < BatchSize * c + BatchSize
    requires !Fetchable(api(keys[j]))
    requires forall i :: 0 <= i < j ==> Fetchable(api(keys[i]))
    requires c <= |Chunks(keys)| && RunChunks(api, Chunks(keys)[..c]).0.AllSucceeded?
    ensures chunkLog == Requests(keys[BatchSize * c .. j + 1])
    ensures RunChunks(api, Chunks(keys))
         == (if api(keys[j]).status == StatusOk then BatchRaised else BatchFailed,
             RunChunks(api, Chunks(keys)[..c]).1 + chunkLog)
  {
    var start := BatchSize * c;
    var chunk := RowInChunk(api, keys, j, c);
    FetchChunkFirstFailure(api, chunk, j - start);
    chunkLog := Requests(chunk[..j - start + 1]);
    RunChunksExtend(api, Chunks(keys), c);
  }

  /** Row `j` is at offset `j - 100 * c` of batch `c`, after the rows of that batch before it. */
  lemma RowInChunk(api: Key -> PuuidResponse, keys: seq<Key>, j: nat, c: nat) returns (chunk: seq<Key>)
    requires j < |keys|
    requires BatchSize * c <= j < BatchSize * c + BatchSize
    requires !Fetchable(api(keys[j]))
    requires forall i :: 0 <= i < j ==> Fetchable(api(keys[i]))
    ensures c < |Chunks(keys)| && chunk == Chunks(keys)[c]
    ensures j - BatchSize * c < |chunk| && !Fetchable(api(chunk[j - BatchSize * c]))
    ensures chunk[j - BatchSize * c] == keys[j]
    ensures forall i :: 0 <= i < j - BatchSize * c ==> Fetchable(api(chunk[i]))
    ensures chunk[..j - BatchSize * c + 1] == keys[BatchSize * c .. j + 1]
  {
    var start := BatchSize * c;
    ChunkAt(keys, c);
    chunk := Chunks(keys)[c];
    assert chunk == keys[start .. Min(start + BatchSize, |keys|)];
    assert forall i :: 0 <= i < j - start ==> chunk[i] == keys[start + i];
  }

  /** The first row whose response is not a 200 with a PUUID, when there is one. */
  lemma {:induction false} FirstUnfetchable(api: Key -> PuuidResponse, keys: seq<Key>) returns (j: nat)
    requires exists k :: k in keys && !Fetchable(api(k))
    ensures j < |keys| && !Fetchable(api(keys[j]))
    ensures forall i :: 0 <= i < j ==> Fetchable(api(keys[i]))
  {
    var init := keys[..|keys| - 1];
    if exists k :: k in init && !Fetchable(api(k)) {
      j := FirstUnfetchable(api, init);
      assert keys[j] == init[j];
      assert forall i :: 0 <= i < j ==> keys[i] == init[i];
    } else {
      j := |keys| - 1;
      assert forall i :: 0 <= i < j ==> keys[i] in init;
    }
  }

  /** The batches all succeed exactly when every selected row's response is a 200 with a PUUID. */
  lemma BatchesSucceedIff(api: Key -> PuuidResponse, keys: seq<Key>)
    ensures RunChunks(api, Chunks(keys)).0.AllSucceeded? <==> forall k :: k in keys ==> Fetchable(api(k))
  {
    if forall k :: k in keys ==> Fetchable(api(k)) {
      BatchesAllSucceed(api, keys);
    } else {
      var j := FirstUnfetchable(api, keys);
      BatchesStopAtFirstFailure(api, keys, j);
    }
  }

  // ---------------------------------------------------------------------
  // The function

  /** The table once every NULL PUUID is filled in from its row's own response. */
  function Enriched(t: Table, api: Key -> PuuidResponse): Table
  {
    map k | k in t :: if t[k].puuid.None? then t[k].(puuid := api(k).puuid) else t[k]
  }

  /**
   * Writing the collected updates for a duplicate-free enumeration of the
   * NULL-PUUID rows fills exactly those rows, each with its own PUUID,
   * whatever order the SELECT returned them in.
   */
  lemma UpdatesEnrich(t: Table, api: Key -> PuuidResponse, keys: seq<Key>)
    requires Distinct(keys)
    requires forall k :: k in keys <==> k in NullPuuidKeys(t)
    requires forall k :: k in keys ==> Fetchable(api(k))
    ensures WithPuuids(t, Updates(api, keys)) == Enriched(t, api)
  {
    var us := Updates(api, keys);
    WithPuuidsEffect(t, us);
    var r := WithPuuids(t, us);
    forall k | k in t ensures r[k] == Enriched(t, api)[k] {
      if k in keys {
        var i :| 0 <= i < |keys| && keys[i] == k;
        assert us[i].key == k;
      } else {
        assert forall i :: 0 <= i < |us| ==> us[i].key != k;
      }
    }
  }

  /** The inner loop of `main` over one batch, with its `batch_success` flag and `break`. */
  method FetchBatch(api: Key -> PuuidResponse, batch: seq<Key>) returns (result: ChunkResult, log: seq<Event>)
    ensures (result, log) == FetchChunk(api, batch)
  {
    var batchSuccess := true;
    var batchPuuids: seq<PuuidUpdate> := [];
    log := [];
    var j := 0;
    while j < |batch|
      invariant 0 <= j <= |batch|
      invariant batchSuccess
      invariant FetchChunk(api, batch[..j]) == (ChunkOk(batchPuuids), log)
    {
      FetchChunkExtend(api, batch, j);
      var key := batch[j];
      var response := api(key);
      log := log + [SummonerRequest(key)];
      if response.status == StatusOk {
        if response.puuid.None? {
          // response.json()["puuid"] raises KeyError
          FetchChunkSticks(api, batch, j + 1);
          return ChunkRaised, log;
        }
        batchPuuids := batchPuuids + [PuuidUpdate(response.puuid.value, key)];
      } else {
        batchSuccess := false;
        FetchChunkSticks(api, batch, j + 1);
        break;
      }
      j := j + 1;
    }
    if batchSuccess {
      assert batch[..j] == batch;
      result := ChunkOk(batchPuuids);
    } else {
      result := ChunkFailed;
    }
  }

  /** The outer loop of `main` over the batches, with its `all_batches_success` flag and `break`. */
  method FetchBatches(api: Key -> PuuidResponse, rows: seq<Key>) returns (outcome: BatchOutcome, log: seq<Event>)
    ensures (outcome, log) == RunChunks(api, Chunks(rows))
  {
    var allBatchesSuccess := true;
    var allBatchPuuids: seq<PuuidUpdate> := [];
    log := [];
    var i := 0;
    ghost var c: nat := 0;
    while i < |rows|
      invariant i == BatchSize * c
      invariant c <= |Chunks(rows)|
      invariant c < |Chunks(rows)| <==> i < |rows|
      invariant RunChunks(api, Chunks(rows)[..c]) == (AllSucceeded(allBatchPuuids), log)
      invariant allBatchesSuccess
      decreases |rows| - i
    {
      ChunkAt(rows, c);
      ChunkAt(rows, c + 1);
      var batch := rows[i .. Min(i + BatchSize, |rows|)];
      RunChunksExtend(api, Chunks(rows), c);
      var result, batchLog := FetchBatch(api, batch);
      log := log + batchLog;
      match result {
        case ChunkRaised =>
          // the KeyError propagates out of `main`
          return BatchRaised, log;
        case ChunkFailed =>
          allBatchesSuccess := false;
          break;
        case ChunkOk(batchPuuids) =>
          allBatchPuuids := allBatchPuuids + batchPuuids;
      }
      log := log + [Sleep(BatchPause)];
      i := i + BatchSize;
      c := c + 1;
    }
    if allBatchesSuccess {
      assert Chunks(rows)[..c] == Chunks(rows);
      outcome := AllSucceeded(allBatchPuuids);
    } else {
      outcome := BatchFailed;
    }
  }

  /**
   * `main`: an empty API key answers 500 before any database access; a
   * failed connection or a missing table answers 500 after it; otherwise
   * the NULL-PUUID rows are fetched in batches and the PUUIDs are written
   * only when every batch succeeded, which answers 200. Whatever answers
   * 500 leaves the table as it was. `selected` is the order the SELECT
   * returned the rows in.
   */
  method HandleRequest(db: SummonersDb, apiKey: string, connection: Attempt, api: Key -> PuuidResponse)
    returns (status: int, log: seq<Event>, ghost selected: seq<Key>)
    requires db.Valid()
    modifies db
    ensures db.Valid()
    ensures status == StatusOk || status == StatusServerError
    ensures status != StatusOk ==> unchanged(db)
    ensures apiKey == "" ==> status == StatusServerError && log == []
    ensures apiKey != "" && (connection.Fails? || !old(db.tableExists)) ==>
              status == StatusServerError && log == [ConnectAttempt]
    ensures apiKey != "" && connection.Succeeds? && old(db.tableExists) ==>
              && Distinct(selected)
              && (forall k :: k in selected <==> k in NullPuuidKeys(old(db.rows)))
              && var (outcome, batchLog) := RunChunks(api, Chunks(selected));
                 && log == [ConnectAttempt] + batchLog
                 && (status == StatusOk <==> outcome.AllSucceeded?)
                 && (outcome.AllSucceeded? ==> db.rows == WithPuuids(old(db.rows), outcome.updates))
    ensures status == StatusOk <==>
              && apiKey != "" && connection.Succeeds? && old(db.tableExists)
              && forall k :: k in NullPuuidKeys(old(db.rows)) ==> Fetchable(api(k))
    ensures status == StatusOk ==> db.tableExists && db.rows == Enriched(old(db.rows), api)
    ensures apiKey != "" && connection.Succeeds? && old(db.tableExists) && NullPuuidKeys(old(db.rows)) == {} ==>
              status == StatusOk && log == [ConnectAttempt] && db.rows == old(db.rows)
  {
    selected := [];
    if apiKey == "" {
      // ValueError: the key is not set
      return StatusServerError, [], selected;
    }
    log := [ConnectAttempt];
    if connection.Fails? {
      return StatusServerError, log, selected;
    }
    if !db.tableExists {
      // the SELECT fails on a missing table
      return StatusServerError, log, selected;
    }
    var rows := db.SelectNullPuuid();
    selected := rows;
    var outcome, batchLog := FetchBatches(api, rows);
    log := log + batchLog;

    BatchesSucceedIff(api, rows);
    if outcome.AllSucceeded? {
      BatchesAllSucceed(api, rows);
    }

    if rows == [] {
      assert Chunks(rows) == [];
    }
    if outcome.AllSucceeded? {
      db.UpdatePuuids(outcome.updates);
      UpdatesEnrich(old(db.rows), api, rows);
      status := StatusOk;
    } else {
      status := StatusServerError;
    }
  }
}
