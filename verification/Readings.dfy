/** The `readings` table: one value per (source, metric, ts), and INSERT ... ON CONFLICT DO NOTHING. */
module Readings {

  // Times are integer microseconds, the resolution of TIMESTAMPTZ.
  datatype Key = Key(source: string, metric: string, ts: int)

  datatype Reading = Reading(source: string, metric: string, ts: int, value: real) {
    function RowKey(): Key { Key(source, metric, ts) }
  }

  type Table = map<Key, real>

  const MAX_ROWS_PER_STMT: nat := 1000

  function InsertRow(t: Table, r: Reading): Table {
    if r.RowKey() in t then t else t[r.RowKey() := r.value]
  }

  /** One statement: the rows are tried in order and a row whose key is taken is skipped. */
  function Insert(t: Table, rows: seq<Reading>): Table {
    if rows == [] then t
    else InsertRow(Insert(t, rows[..|rows| - 1]), rows[|rows| - 1])
  }

  /** The row count the database reports: rows whose key was free when their turn came. */
  function RowsAffected(t: Table, rows: seq<Reading>): nat {
    if rows == [] then 0
    else
      var front := rows[..|rows| - 1];
      RowsAffected(t, front) + if rows[|rows| - 1].RowKey() in Insert(t, front) then 0 else 1
  }

  function KeysOf(rows: seq<Reading>): set<Key> {
    set r | r in rows :: r.RowKey()
  }

  /** How many statements a batch of n rows takes. */
  function ChunkCount(n: nat): nat {
    (n + MAX_ROWS_PER_STMT - 1) / MAX_ROWS_PER_STMT
  }

  /** Rows of a batch of n that the first k statements carry. */
  function ChunkEnd(n: nat, k: nat): nat {
    if k * MAX_ROWS_PER_STMT < n then k * MAX_ROWS_PER_STMT else n
  }

  lemma ChunkEndFacts(n: nat, k: nat)
    ensures ChunkEnd(n, k) <= ChunkEnd(n, k + 1) <= n
    ensures ChunkEnd(n, k + 1) - ChunkEnd(n, k) <= MAX_ROWS_PER_STMT
    ensures k < ChunkCount(n) <==> k * MAX_ROWS_PER_STMT < n
    ensures ChunkEnd(n, k) == n <==> k >= ChunkCount(n)
  {
  }

  lemma ChunkEndMonotone(n: nat, i: nat, j: nat)
    requires i <= j
    ensures ChunkEnd(n, i) <= ChunkEnd(n, j) <= n
  {
    assert i * MAX_ROWS_PER_STMT <= j * MAX_ROWS_PER_STMT;
  }

  /** First writer wins, part one: exactly the offered keys are added, and existing keys keep their value. */
  lemma {:induction false} FirstWriterWins(t: Table, rows: seq<Reading>)
    ensures Insert(t, rows).Keys == t.Keys + KeysOf(rows)
    ensures forall k :: k in t ==> Insert(t, rows)[k] == t[k]
  {
    if rows != [] {
      var n := |rows| - 1;
      FirstWriterWins(t, rows[..n]);
      assert rows == rows[..n] + [rows[n]];
      assert KeysOf(rows) == KeysOf(rows[..n]) + {rows[n].RowKey()};
    }
  }

  /** Part two: a new key gets the first value offered for it. */
  lemma {:induction false} FirstOfferTaken(t: Table, rows: seq<Reading>, i: nat)
    requires i < |rows| && rows[i].RowKey() !in t && rows[i].RowKey() !in KeysOf(rows[..i])
    ensures rows[i].RowKey() in Insert(t, rows) && Insert(t, rows)[rows[i].RowKey()] == rows[i].value
  {
    var n := |rows| - 1;
    if i < n {
      assert rows[..n][..i] == rows[..i];
      FirstOfferTaken(t, rows[..n], i);
    } else {
      FirstWriterWins(t, rows[..n]);
    }
  }

  lemma {:induction false} InsertConcat(t: Table, a: seq<Reading>, b: seq<Reading>)
    ensures Insert(t, a + b) == Insert(Insert(t, a), b)
    decreases |b|
  {
    if b == [] {
      assert a + b == a;
    } else {
      var front := b[..|b| - 1];
      assert (a + b)[..|a + b| - 1] == a + front;
      InsertConcat(t, a, front);
    }
  }

  /** Replaying rows whose keys are all present changes nothing. */
  lemma {:induction false} InsertPresent(t: Table, rows: seq<Reading>)
    requires KeysOf(rows) <= t.Keys
    ensures Insert(t, rows) == t
    ensures RowsAffected(t, rows) == 0
  {
    if rows != [] {
      var front := rows[..|rows| - 1];
      assert forall r :: r in front ==> r in rows;
      assert KeysOf(front) <= KeysOf(rows);
      InsertPresent(t, front);
      assert rows[|rows| - 1].RowKey() in KeysOf(rows);
    }
  }

  /** A batch that got part of the way and is then sent whole ends where one whole send ends. */
  lemma ResumeInsert(t: Table, rows: seq<Reading>, k: nat)
    requires k <= |rows|
    ensures Insert(Insert(t, rows[..k]), rows) == Insert(t, rows)
  {
    assert rows == rows[..k] + rows[k..];
    FirstWriterWins(t, rows[..k]);
    InsertPresent(Insert(t, rows[..k]), rows[..k]);
    InsertConcat(Insert(t, rows[..k]), rows[..k], rows[k..]);
    InsertConcat(t, rows[..k], rows[k..]);
  }

  /** Two prefixes of one batch, in either order of arrival, leave the longer one. */
  lemma PrefixesOverlap(t: Table, rows: seq<Reading>, a: nat, b: nat)
    requires a <= |rows| && b <= |rows|
    ensures Insert(Insert(t, rows[..a]), rows[..b]) == Insert(t, rows[..if a < b then b else a])
  {
    if a < b {
      assert rows[..b][..a] == rows[..a];
      ResumeInsert(t, rows[..b], a);
    } else {
      assert forall r :: r in rows[..b] ==> r in rows[..a];
      FirstWriterWins(t, rows[..a]);
      InsertPresent(Insert(t, rows[..a]), rows[..b]);
    }
  }

  /** The reported count is the growth of the table. */
  lemma {:induction false} RowsAffectedIsGrowth(t: Table, rows: seq<Reading>)
    ensures RowsAffected(t, rows) == |Insert(t, rows)| - |t|
  {
    if rows != [] {
      RowsAffectedIsGrowth(t, rows[..|rows| - 1]);
    }
  }

  lemma RowsAffectedConcat(t: Table, a: seq<Reading>, b: seq<Reading>)
    ensures RowsAffected(t, a + b) == RowsAffected(t, a) + RowsAffected(Insert(t, a), b)
  {
    RowsAffectedIsGrowth(t, a + b);
    RowsAffectedIsGrowth(t, a);
    RowsAffectedIsGrowth(Insert(t, a), b);
    InsertConcat(t, a, b);
  }

  predicate DistinctKeys(rows: seq<Reading>) {
    forall i, j :: 0 <= i < j < |rows| ==> rows[i].RowKey() != rows[j].RowKey()
  }

  /** Fresh, pairwise distinct keys: every row lands, once, with its own value. */
  lemma {:induction false} FreshRowsAllLand(t: Table, rows: seq<Reading>)
    requires t.Keys !! KeysOf(rows) && DistinctKeys(rows)
    ensures |Insert(t, rows)| == |t| + |rows|
    ensures forall i :: 0 <= i < |rows| ==>
              rows[i].RowKey() in Insert(t, rows) && Insert(t, rows)[rows[i].RowKey()] == rows[i].value
  {
    FreshGrowth(t, rows);
    forall i | 0 <= i < |rows|
      ensures rows[i].RowKey() in Insert(t, rows) && Insert(t, rows)[rows[i].RowKey()] == rows[i].value
    {
      assert rows[i].RowKey() in KeysOf(rows);
      FirstOfferTaken(t, rows, i);
    }
  }

  lemma {:induction false} FreshGrowth(t: Table, rows: seq<Reading>)
    requires t.Keys !! KeysOf(rows) && DistinctKeys(rows)
    ensures |Insert(t, rows)| == |t| + |rows|
  {
    if rows != [] {
      var n := |rows| - 1;
      var front := rows[..n];
      assert rows == front + [rows[n]];
      FreshGrowth(t, front) by {
        assert KeysOf(front) <= KeysOf(rows);
      }
      LastKeyFresh(t, front, rows[n]);
    }
  }

  lemma LastKeyFresh(t: Table, front: seq<Reading>, r: Reading)
    requires t.Keys !! KeysOf(front + [r]) && DistinctKeys(front + [r])
    ensures r.RowKey() !in Insert(t, front)
  {
    FirstWriterWins(t, front);
    var rows := front + [r];
    assert rows[|front|] in rows;
    forall x | x in front ensures x.RowKey() != r.RowKey() {
      var i :| 0 <= i < |front| && front[i] == x;
      assert rows[i] == x && rows[|front|] == r;
    }
  }

  // ---- inserts by several writers

  /** What is already there wins over an insert, and the insert alone decides the rest. */
  lemma {:induction false} InsertIsMerge(t: Table, rows: seq<Reading>)
    ensures Insert(t, rows) == Insert(map[], rows) + t
  {
    if rows != [] {
      var front, r := rows[..|rows| - 1], rows[|rows| - 1];
      InsertIsMerge(t, front);
      FirstWriterWins(map[], front);
    }
  }

  /** Tables that hold the same value for every key they share. */
  ghost predicate Compatible(a: Table, b: Table) {
    forall k :: k in a && k in b ==> a[k] == b[k]
  }

  /** Two writers that offer the same value first for every key they share. */
  ghost predicate Agree(a: seq<Reading>, b: seq<Reading>) {
    Compatible(Insert(map[], a), Insert(map[], b))
  }

  lemma MergesCommute(t: Table, a: Table, b: Table)
    requires Compatible(a, b)
    ensures b + (a + t) == a + (b + t)
  {
    forall k | k in a + t || k in b ensures (b + (a + t))[k] == (a + (b + t))[k] {
    }
  }

  /** Writers that agree may come in either order. */
  lemma InsertsCommute(t: Table, a: seq<Reading>, b: seq<Reading>)
    requires Agree(a, b)
    ensures Insert(Insert(t, a), b) == Insert(Insert(t, b), a)
  {
    InsertIsMerge(t, a);
    InsertIsMerge(t, b);
    InsertIsMerge(Insert(t, a), b);
    InsertIsMerge(Insert(t, b), a);
    MergesCommute(t, Insert(map[], a), Insert(map[], b));
  }
}
