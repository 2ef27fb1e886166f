/**
 * The load step: each row is upserted into the `air_quality` table with
 * `INSERT ... ON CONFLICT (id) DO UPDATE`, which writes every column of the
 * row, and the connection's transaction is committed once at the end.
 */
module Loading {
  import opened Transform

  /** Every stored row sits under its own primary key. */
  predicate KeyedById(table: map<string, Row>) {
    forall id :: id in table ==> table[id].id == id
  }

  /** The keys a batch of rows writes. */
  function Ids(batch: seq<Row>): (ids: set<string>)
    ensures forall i :: 0 <= i < |batch| ==> batch[i].id in ids
    ensures forall id :: id in ids ==> exists i :: 0 <= i < |batch| && batch[i].id == id
    decreases |batch|
  {
    if batch == [] then {} else Ids(batch[..|batch| - 1]) + {batch[|batch| - 1].id}
  }

  /** `batch[i]` is the last row of the batch with its key. */
  predicate LastWithId(batch: seq<Row>, i: int)
    requires 0 <= i < |batch|
  {
    forall j :: i < j < |batch| ==> batch[j].id != batch[i].id
  }

  /**
   * The table after upserting the rows of `batch` in order into `table`:
   * a new key is inserted, an existing one has all its columns replaced.
   */
  function ApplyBatch(table: map<string, Row>, batch: seq<Row>): (r: map<string, Row>)
    ensures r.Keys == table.Keys + Ids(batch)
    decreases |batch|
  {
    if batch == [] then table
    else
      var last := batch[|batch| - 1];
      ApplyBatch(table, batch[..|batch| - 1])[last.id := last]
  }

  /** A key the batch does not write keeps what the table had under it. */
  lemma {:induction false} ApplyBatchFrame(table: map<string, Row>, batch: seq<Row>, id: string)
    requires id !in Ids(batch)
    ensures id in ApplyBatch(table, batch) <==> id in table
    ensures id in table ==> ApplyBatch(table, batch)[id] == table[id]
    decreases |batch|
  {
    if batch != [] {
      var init := batch[..|batch| - 1];
      assert forall i :: 0 <= i < |init| ==> init[i] == batch[i];
      ApplyBatchFrame(table, init, id);
    }
  }

  /** A key the batch writes holds the last row of the batch with that key. */
  lemma {:induction false} ApplyBatchLastWins(table: map<string, Row>, batch: seq<Row>, i: int)
    requires 0 <= i < |batch| && LastWithId(batch, i)
    ensures ApplyBatch(table, batch)[batch[i].id] == batch[i]
    decreases |batch|
  {
    if i < |batch| - 1 {
      var init := batch[..|batch| - 1];
      assert forall j :: 0 <= j < |init| ==> init[j] == batch[j];
      assert LastWithId(init, i);
      ApplyBatchLastWins(table, init, i);
      assert batch[|batch| - 1].id != batch[i].id;
    }
  }

  /** Upserting rows that sit under their own keys keeps the table keyed by id. */
  lemma {:induction false} ApplyBatchKeyedById(table: map<string, Row>, batch: seq<Row>)
    requires KeyedById(table)
    ensures KeyedById(ApplyBatch(table, batch))
    decreases |batch|
  {
    if batch != [] {
      ApplyBatchKeyedById(table, batch[..|batch| - 1]);
    }
  }

  /** Upserting `a` then `b` is upserting `a + b`. */
  lemma {:induction false} ApplyBatchConcat(table: map<string, Row>, a: seq<Row>, b: seq<Row>)
    ensures ApplyBatch(ApplyBatch(table, a), b) == ApplyBatch(table, a + b)
    decreases |b|
  {
    if b == [] {
      assert a + b == a;
    } else {
      var init, last := b[..|b| - 1], b[|b| - 1];
      assert (a + b)[..|a + b| - 1] == a + init && (a + b)[|a + b| - 1] == last;
      ApplyBatchConcat(table, a, init);
      calc {
        ApplyBatch(ApplyBatch(table, a), b);
        ApplyBatch(ApplyBatch(table, a), init)[last.id := last];
        ApplyBatch(table, a + init)[last.id := last];
        ApplyBatch(table, a + b);
      }
    }
  }

  /**
   * What a batch leaves under a key does not depend on what was there
   * before, as long as the batch writes that key.
   */
  lemma {:induction false} ApplyBatchOverwrites(t1: map<string, Row>, t2: map<string, Row>, batch: seq<Row>, id: string)
    requires id in Ids(batch)
    ensures ApplyBatch(t1, batch)[id] == ApplyBatch(t2, batch)[id]
    decreases |batch|
  {
    var last := batch[|batch| - 1];
    if last.id != id {
      var init := batch[..|batch| - 1];
      var i :| 0 <= i < |batch| && batch[i].id == id;
      assert init[i] == batch[i];
      ApplyBatchOverwrites(t1, t2, init, id);
    }
  }

  /**
   * Loading the same rows a second time changes nothing: a re-run of the
   * pipeline over the same feed leaves the table as the first run left it.
   */
  lemma ApplyBatchIdempotent(table: map<string, Row>, batch: seq<Row>)
    ensures ApplyBatch(ApplyBatch(table, batch), batch) == ApplyBatch(table, batch)
  {
    var once := ApplyBatch(table, batch);
    var twice := ApplyBatch(once, batch);
    forall id | id in twice ensures twice[id] == once[id] {
      if id in Ids(batch) {
        ApplyBatchOverwrites(once, table, batch, id);
      } else {
        ApplyBatchFrame(once, batch, id);
      }
    }
  }

  /**
   * The `air_quality` table as one connection sees it: `committed` is what
   * other sessions see, `pending` what the open transaction has written.
   */
  class AirQualityTable {
    var committed: map<string, Row>
    var pending: map<string, Row>

    /** Each stored row's `id` column equals the primary key it is stored under. */
    ghost predicate Valid()
      reads this
    {
      KeyedById(committed) && KeyedById(pending)
    }

    /** A connection to a table holding `rows`, with no open changes. */
    constructor (rows: map<string, Row>)
      requires KeyedById(rows)
      ensures Valid() && committed == rows && pending == rows
    {
      committed := rows;
      pending := rows;
    }

    /** `INSERT ... ON CONFLICT (id) DO UPDATE SET (...) = (EXCLUDED...)` for one row. */
    method Upsert(row: Row)
      requires Valid()
      modifies this
      ensures Valid()
      ensures pending == old(pending)[row.id := row] && committed == old(committed)
    {
      pending := pending[row.id := row];
    }

    /** `conn.commit()`: the open changes become visible. */
    method Commit()
      requires Valid()
      modifies this
      ensures Valid() && committed == old(pending) && pending == old(pending)
    {
      committed := pending;
    }

    /** `conn.close()`: changes not yet committed are discarded. */
    method Close()
      requires Valid()
      modifies this
      ensures Valid() && committed == old(committed) && pending == old(committed)
    {
      pending := committed;
    }
  }

  /** The `for row in df.iter_rows(...)` loop: one upsert per row, in order. */
  method LoadRows(table: AirQualityTable, rows: seq<Row>)
    requires table.Valid()
    modifies table
    ensures table.Valid()
    ensures table.pending == ApplyBatch(old(table.pending), rows)
    ensures table.committed == old(table.committed)
  {
    var i := 0;
    while i < |rows|
      invariant 0 <= i <= |rows|
      invariant table.Valid()
      invariant table.pending == ApplyBatch(old(table.pending), rows[..i])
      invariant table.committed == old(table.committed)
    {
      assert rows[..i + 1][..i] == rows[..i];
      table.Upsert(rows[i]);
      i := i + 1;
    }
    assert rows[..i] == rows;
  }
}
