/**
 * The `Summoners` SQL table shared by the three functions, and the SQL
 * statements they issue against it: the idempotent CREATE TABLE, the
 * insert-if-absent keyed on (SummonerID, Region), the SELECT of rows whose
 * PUUID is NULL, and the UPDATE that sets a row's PUUID.
 *
 * A row is identified by its (SummonerID, Region) pair, which the
 * insert-if-absent statement keeps unique, so the table is a map from
 * that pair to the remaining columns; the IDENTITY column is not modelled.
 */
module SummonersTable {
  import opened Riot

  /** The Rank and PUUID columns of a row; a NULL PUUID is None. */
  datatype Row = Row(rank: string, puuid: Option<Puuid>)

  type Table = map<Key, Row>

  /** The parameters of one `UPDATE Summoners SET PUUID = ? WHERE SummonerID = ? AND Region = ?`. */
  datatype PuuidUpdate = PuuidUpdate(puuid: Puuid, key: Key)

  /** The (SummonerID, Region) pairs of a list of records. */
  function RecordKeys(records: seq<Record>): set<Key>
  {
    set i | 0 <= i < |records| :: KeyOf(records[i])
  }

  /** The table after one `IF NOT EXISTS (...) INSERT INTO Summoners (SummonerID, Rank, Region)`. */
  function Inserted(t: Table, rec: Record): (r: Table)
    ensures r.Keys == t.Keys + {KeyOf(rec)}
    ensures forall k :: k in t ==> r[k] == t[k]
    ensures KeyOf(rec) !in t ==> r[KeyOf(rec)] == Row(rec.rank, None)
  {
    if KeyOf(rec) in t then t else t[KeyOf(rec) := Row(rec.rank, None)]
  }

  /** The table after the insert loop has run over `records` in order. */
  function InsertedAll(t: Table, records: seq<Record>): Table
  {
    if records == [] then t
    else Inserted(InsertedAll(t, records[..|records| - 1]), records[|records| - 1])
  }

  /**
   * After the insert loop every fetched pair is in the table, no other pair
   * was added, and rows that were there before keep their rank and PUUID.
   */
  lemma {:induction false} InsertedAllEffect(t: Table, records: seq<Record>)
    ensures InsertedAll(t, records).Keys == t.Keys + RecordKeys(records)
    ensures forall k :: k in t ==> InsertedAll(t, records)[k] == t[k]
  {
    if records != [] {
      var init := records[..|records| - 1];
      InsertedAllEffect(t, init);
      assert RecordKeys(records) == RecordKeys(init) + {KeyOf(records[|records| - 1])} by {
        forall k | k in RecordKeys(records) ensures k in RecordKeys(init) + {KeyOf(records[|records| - 1])} {
          var i :| 0 <= i < |records| && KeyOf(records[i]) == k;
          if i < |records| - 1 {
            assert KeyOf(init[i]) == k;
          }
        }
        forall k | k in RecordKeys(init) ensures k in RecordKeys(records) {
          var i :| 0 <= i < |init| && KeyOf(init[i]) == k;
          assert KeyOf(records[i]) == k;
        }
      }
    }
  }

  /**
   * A pair that was not in the table gets a row with a NULL PUUID and the
   * rank of the FIRST record carrying that pair: a duplicate pair later in
   * the list inserts nothing.
   */
  lemma {:induction false} InsertedAllFirstWins(t: Table, records: seq<Record>, i: nat)
    requires i < |records|
    requires KeyOf(records[i]) !in t
    requires forall j :: 0 <= j < i ==> KeyOf(records[j]) != KeyOf(records[i])
    ensures KeyOf(records[i]) in InsertedAll(t, records)
    ensures InsertedAll(t, records)[KeyOf(records[i])] == Row(records[i].rank, None)
  {
    var init := records[..|records| - 1];
    if i == |records| - 1 {
      InsertedAllEffect(t, init);
      assert KeyOf(records[i]) !in RecordKeys(init);
    } else {
      InsertedAllFirstWins(t, init, i);
    }
  }

  /** The insert loop changes nothing when every pair is already in the table. */
  lemma {:induction false} InsertedAllPresent(t: Table, records: seq<Record>)
    requires RecordKeys(records) <= t.Keys
    ensures InsertedAll(t, records) == t
  {
    if records != [] {
      var init := records[..|records| - 1];
      assert RecordKeys(init) <= RecordKeys(records) by {
        forall k | k in RecordKeys(init) ensures k in RecordKeys(records) {
          var i :| 0 <= i < |init| && KeyOf(init[i]) == k;
          assert KeyOf(records[i]) == k;
        }
      }
      InsertedAllPresent(t, init);
      assert KeyOf(records[|records| - 1]) in RecordKeys(records);
    }
  }

  /** Re-running the insert loop with the same records changes nothing. */
  lemma InsertedAllIdempotent(t: Table, records: seq<Record>)
    ensures InsertedAll(InsertedAll(t, records), records) == InsertedAll(t, records)
  {
    InsertedAllEffect(t, records);
    InsertedAllPresent(InsertedAll(t, records), records);
  }

  /** The pairs the `SELECT SummonerID, Region FROM Summoners WHERE PUUID IS NULL` returns. */
  function NullPuuidKeys(t: Table): set<Key>
  {
    set k | k in t && t[k].puuid.None?
  }

  /** The table after one PUUID UPDATE: the matching row, if any, gets the PUUID. */
  function WithPuuid(t: Table, u: PuuidUpdate): (r: Table)
    ensures r.Keys == t.Keys
    ensures u.key in t ==> r[u.key] == t[u.key].(puuid := Some(u.puuid))
    ensures forall k :: k in t && k != u.key ==> r[k] == t[k]
  {
    if u.key in t then t[u.key := t[u.key].(puuid := Some(u.puuid))] else t
  }

  /** The table after the UPDATE loop has run over `updates` in order. */
  function WithPuuids(t: Table, updates: seq<PuuidUpdate>): Table
  {
    if updates == [] then t
    else WithPuuid(WithPuuids(t, updates[..|updates| - 1]), updates[|updates| - 1])
  }

  /**
   * When no pair is updated twice, the UPDATE loop gives each updated row
   * exactly the PUUID of its own update, keeps its rank, adds or removes no
   * row and leaves every other row as it was.
   */
  lemma {:induction false} WithPuuidsEffect(t: Table, updates: seq<PuuidUpdate>)
    requires forall i, j :: 0 <= i < j < |updates| ==> updates[i].key != updates[j].key
    ensures WithPuuids(t, updates).Keys == t.Keys
    ensures forall i :: 0 <= i < |updates| && updates[i].key in t ==>
              WithPuuids(t, updates)[updates[i].key] == t[updates[i].key].(puuid := Some(updates[i].puuid))
    ensures forall k :: k in t && (forall i :: 0 <= i < |updates| ==> updates[i].key != k) ==>
              WithPuuids(t, updates)[k] == t[k]
  {
    if updates != [] {
      var init := updates[..|updates| - 1];
      WithPuuidsEffect(t, init);
      var last := updates[|updates| - 1];
      forall i | 0 <= i < |updates| && updates[i].key in t
        ensures WithPuuids(t, updates)[updates[i].key] == t[updates[i].key].(puuid := Some(updates[i].puuid))
      {
        if i < |updates| - 1 {
          assert init[i] == updates[i];
        }
      }
      forall k | k in t && (forall i :: 0 <= i < |updates| ==> updates[i].key != k)
        ensures WithPuuids(t, updates)[k] == t[k]
      {
        assert forall i :: 0 <= i < |init| ==> init[i].key != k by {
          forall i | 0 <= i < |init| ensures init[i].key != k {
            assert init[i] == updates[i];
          }
        }
        assert last.key != k;
      }
    }
  }

  /**
   * The database as the functions see it: whether the `Summoners` table
   * exists and, if it does, its rows.
   */
  class SummonersDb {
    var tableExists: bool
    var rows: Table

    ghost predicate Valid()
      reads this
    {
      tableExists || rows == map[]
    }

    constructor (tableExists: bool, rows: Table)
      requires tableExists || rows == map[]
      ensures Valid()
      ensures this.tableExists == tableExists && this.rows == rows
    {
      this.tableExists := tableExists;
      this.rows := rows;
    }

    /** `IF NOT EXISTS (SELECT * FROM sys.tables WHERE name = 'Summoners') CREATE TABLE Summoners (...)`. */
    method CreateTableIfNotExists()
      requires Valid()
      modifies this
      ensures Valid()
      ensures tableExists && rows == old(rows)
    {
      if !tableExists {
        tableExists := true;
        rows := map[];
      }
    }

    /** One insert-if-absent statement for one fetched record. */
    method InsertIfAbsent(rec: Record)
      requires tableExists
      modifies this
      ensures tableExists
      ensures rows == Inserted(old(rows), rec)
    {
      var key := KeyOf(rec);
      if key !in rows {
        rows := rows[key := Row(rec.rank, None)];
      }
    }

    /** The loop issuing one insert-if-absent per fetched record, in list order. */
    method InsertSummoners(records: seq<Record>)
      requires tableExists
      modifies this
      ensures tableExists
      ensures rows == InsertedAll(old(rows), records)
    {
      for i := 0 to |records|
        invariant tableExists
        invariant rows == InsertedAll(old(rows), records[..i])
      {
        assert records[..i + 1][..i] == records[..i];
        InsertIfAbsent(records[i]);
      }
      assert records[..|records|] == records;
    }

    /**
     * `SELECT SummonerID, Region FROM Summoners WHERE PUUID IS NULL`: every
     * row whose PUUID is NULL, each once, in an order SQL leaves unspecified.
     */
    method SelectNullPuuid() returns (keys: seq<Key>)
      requires tableExists
      ensures Distinct(keys)
      ensures forall k :: k in keys <==> k in rows && rows[k].puuid.None?
    {
      keys := [];
      var remaining := NullPuuidKeys(rows);
      while remaining != {}
        invariant forall k :: k in NullPuuidKeys(rows) <==> k in remaining || k in keys
        invariant forall k :: k in keys ==> k !in remaining
        invariant Distinct(keys)
        decreases |remaining|
      {
        var k :| k in remaining;
        keys := keys + [k];
        remaining := remaining - {k};
      }
    }

    /** One PUUID UPDATE. */
    method UpdatePuuid(u: PuuidUpdate)
      requires tableExists
      modifies this
      ensures tableExists
      ensures rows == WithPuuid(old(rows), u)
    {
      if u.key in rows {
        rows := rows[u.key := rows[u.key].(puuid := Some(u.puuid))];
      }
    }

    /** The loop issuing one PUUID UPDATE per collected PUUID, in collection order. */
    method UpdatePuuids(updates: seq<PuuidUpdate>)
      requires tableExists
      modifies this
      ensures tableExists
      ensures rows == WithPuuids(old(rows), updates)
    {
      for i := 0 to |updates|
        invariant tableExists
        invariant rows == WithPuuids(old(rows), updates[..i])
      {
        assert updates[..i + 1][..i] == updates[..i];
        UpdatePuuid(updates[i]);
      }
      assert updates[..|updates|] == updates;
    }
  }
}
