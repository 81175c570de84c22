/**
 * `connect_to_database` of FetchTopSummoners: up to `retries` calls of
 * `pyodbc.connect`, a sleep of `delay` seconds after every failed attempt
 * but the last, and the last attempt's error re-raised when none succeeds.
 * The outcome of attempt number `i` (counting from 0) is `attempts(i)`.
 */
module ConnectRetry {
  import opened Riot

  /**
   * What `connect_to_database` does: return a connection, re-raise the
   * last `pyodbc.Error`, or fall off the end of an empty `range(retries)`
   * and return None.
   */
  datatype ConnectResult = Connected(conn: nat) | Reraised(message: string) | ReturnedNone

  /** The attempts from number `attempt` on: their result and their events. */
  function ConnectFrom(attempts: nat -> Attempt, retries: int, delay: nat, attempt: nat): (ConnectResult, seq<Event>)
    decreases retries - attempt
  {
    if attempt >= retries then (ReturnedNone, [])
    else
      match attempts(attempt)
      case Succeeds(c) => (Connected(c), [ConnectAttempt])
      case Fails(e) =>
        if attempt < retries - 1 then
          var (r, log) := ConnectFrom(attempts, retries, delay, attempt + 1);
          (r, [ConnectAttempt, Sleep(delay)] + log)
        else (Reraised(e), [ConnectAttempt])
  }

  /** The reference behaviour of `connect_to_database(connection_string, retries, delay)`. */
  function Connect(attempts: nat -> Attempt, retries: int, delay: nat): (ConnectResult, seq<Event>)
  {
    ConnectFrom(attempts, retries, delay, 0)
  }

  /** `k` failed attempts, each followed by its sleep. */
  function FailedTries(k: nat, delay: nat): seq<Event>
  {
    if k == 0 then [] else [ConnectAttempt, Sleep(delay)] + FailedTries(k - 1, delay)
  }

  /** One attempt and one sleep. */
  lemma RetryPairCounts(delay: nat)
    ensures Occurrences([ConnectAttempt, Sleep(delay)], ConnectAttempt) == 1
    ensures Occurrences([ConnectAttempt, Sleep(delay)], Sleep(delay)) == 1
  {
    assert [ConnectAttempt, Sleep(delay)][..1] == [ConnectAttempt];
    assert [ConnectAttempt][..0] == [];
  }

  /** `k` failed tries hold `k` attempts and `k` sleeps. */
  lemma {:induction false} FailedTriesCounts(k: nat, delay: nat)
    ensures |FailedTries(k, delay)| == 2 * k
    ensures Occurrences(FailedTries(k, delay), ConnectAttempt) == k
    ensures Occurrences(FailedTries(k, delay), Sleep(delay)) == k
  {
    if k > 0 {
      FailedTriesCounts(k - 1, delay);
      RetryPairCounts(delay);
      OccurrencesAppend([ConnectAttempt, Sleep(delay)], FailedTries(k - 1, delay), ConnectAttempt);
      OccurrencesAppend([ConnectAttempt, Sleep(delay)], FailedTries(k - 1, delay), Sleep(delay));
    }
  }

  lemma {:induction false} ConnectFromFirstSuccess(attempts: nat -> Attempt, retries: int, delay: nat, attempt: nat, k: nat)
    requires attempt <= k < retries
    requires attempts(k).Succeeds?
    requires forall j :: attempt <= j < k ==> attempts(j).Fails?
    ensures ConnectFrom(attempts, retries, delay, attempt)
         == (Connected(attempts(k).conn), FailedTries(k - attempt, delay) + [ConnectAttempt])
    decreases k - attempt
  {
    if attempt < k {
      ConnectFromFirstSuccess(attempts, retries, delay, attempt + 1, k);
      var tail := FailedTries(k - attempt - 1, delay);
      assert [ConnectAttempt, Sleep(delay)] + (tail + [ConnectAttempt])
          == ([ConnectAttempt, Sleep(delay)] + tail) + [ConnectAttempt];
    } else {
      assert FailedTries(0, delay) + [ConnectAttempt] == [ConnectAttempt];
    }
  }

  /**
   * When attempt `k` is the first to succeed and `k < retries`, the
   * connection of that attempt is returned after exactly k + 1 attempts,
   * with a sleep of `delay` after each of the k failures.
   */
  lemma ConnectFirstSuccess(attempts: nat -> Attempt, retries: int, delay: nat, k: nat)
    requires k < retries
    requires attempts(k).Succeeds?
    requires forall j :: 0 <= j < k ==> attempts(j).Fails?
    ensures Connect(attempts, retries, delay) == (Connected(attempts(k).conn), FailedTries(k, delay) + [ConnectAttempt])
  {
    ConnectFromFirstSuccess(attempts, retries, delay, 0, k);
  }

  lemma {:induction false} ConnectFromAllFail(attempts: nat -> Attempt, retries: int, delay: nat, attempt: nat)
    requires attempt < retries
    requires forall j :: attempt <= j < retries ==> attempts(j).Fails?
    ensures ConnectFrom(attempts, retries, delay, attempt)
         == (Reraised(attempts(retries - 1).message), FailedTries(retries - 1 - attempt, delay) + [ConnectAttempt])
    decreases retries - attempt
  {
    if attempt < retries - 1 {
      ConnectFromAllFail(attempts, retries, delay, attempt + 1);
      var tail := FailedTries(retries - 2 - attempt, delay);
      assert [ConnectAttempt, Sleep(delay)] + (tail + [ConnectAttempt])
          == ([ConnectAttempt, Sleep(delay)] + tail) + [ConnectAttempt];
    } else {
      assert FailedTries(0, delay) + [ConnectAttempt] == [ConnectAttempt];
    }
  }

  /**
   * When all `retries` attempts fail, the error of the last one is
   * re-raised, no connection is returned, and there were `retries`
   * attempts and `retries - 1` sleeps: none after the last attempt.
   */
  lemma ConnectAllFail(attempts: nat -> Attempt, retries: int, delay: nat)
    requires retries >= 1
    requires forall j :: 0 <= j < retries ==> attempts(j).Fails?
    ensures Connect(attempts, retries, delay)
         == (Reraised(attempts(retries - 1).message), FailedTries(retries - 1, delay) + [ConnectAttempt])
  {
    ConnectFromAllFail(attempts, retries, delay, 0);
  }

  /**
   * Whatever the attempts do: a connection comes from an attempt that
   * succeeded, there are never more than `retries` attempts, and every
   * attempt but the final one is followed by a sleep.
   */
  lemma {:induction false} ConnectBounded(attempts: nat -> Attempt, retries: int, delay: nat, attempt: nat)
    ensures var (r, log) := ConnectFrom(attempts, retries, delay, attempt);
            && (attempt < retries ==> Occurrences(log, ConnectAttempt) <= retries - attempt)
            && (r.ReturnedNone? <==> attempt >= retries)
            && (r.ReturnedNone? ==> log == [])
            && (!r.ReturnedNone? ==> Occurrences(log, Sleep(delay)) + 1 == Occurrences(log, ConnectAttempt))
            && (r.Connected? ==> exists j :: attempt <= j < retries && attempts(j) == Succeeds(r.conn))
    decreases retries - attempt
  {
    if attempt < retries && attempts(attempt).Fails? && attempt < retries - 1 {
      ConnectBounded(attempts, retries, delay, attempt + 1);
      var (r, log) := ConnectFrom(attempts, retries, delay, attempt + 1);
      OccurrencesAppend([ConnectAttempt, Sleep(delay)], log, ConnectAttempt);
      OccurrencesAppend([ConnectAttempt, Sleep(delay)], log, Sleep(delay));
      RetryPairCounts(delay);
    } else if attempt < retries {
      assert [ConnectAttempt][..0] == [];
    }
  }

  /** `connect_to_database`: the retry loop. */
  method ConnectToDatabase(attempts: nat -> Attempt, retries: int, delay: nat) returns (r: ConnectResult, log: seq<Event>)
    ensures (r, log) == Connect(attempts, retries, delay)
  {
    log := [];
    var attempt: nat := 0;
    assert log + ConnectFrom(attempts, retries, delay, 0).1 == ConnectFrom(attempts, retries, delay, 0).1;
    while attempt < retries
      invariant attempt == 0 || attempt <= retries
      invariant Connect(attempts, retries, delay).0 == ConnectFrom(attempts, retries, delay, attempt).0
      invariant Connect(attempts, retries, delay).1 == log + ConnectFrom(attempts, retries, delay, attempt).1
      decreases retries - attempt
    {
      ghost var before := log;
      log := log + [ConnectAttempt];
      match attempts(attempt)
      case Succeeds(conn) =>
        r := Connected(conn);
        return;
      case Fails(message) =>
        if attempt < retries - 1 {
          log := log + [Sleep(delay)];
          ghost var rest := ConnectFrom(attempts, retries, delay, attempt + 1).1;
          assert before + ([ConnectAttempt, Sleep(delay)] + rest) == log + rest;
        } else {
          r := Reraised(message);
          return;
        }
      attempt := attempt + 1;
    }
    assert log + ConnectFrom(attempts, retries, delay, attempt).1 == log;
    r := ReturnedNone;
  }
}
