/** Writing readings: parameterised multi-row statements, 1000 rows at a time. */
module Store {
  import opened Readings

  /** What the caller sees of one statement: it ran, it did not, or it ran and the reply was lost. */
  datatype Exec = Done | Refused | Lost

  datatype Arg = Text(text: string) | Time(micros: int) | Number(number: real)

  // The placeholder numbers of one VALUES tuple.
  datatype Slots = Slots(source: nat, metric: nat, ts: nat, value: nat)

  datatype Statement = Statement(tuples: seq<Slots>, args: seq<Arg>)

  // The wire protocol numbers at most this many parameters.
  const MAX_PARAMETERS := 65535

  predicate IsText(args: seq<Arg>, p: nat) { 1 <= p <= |args| && args[p - 1].Text? }
  predicate IsTime(args: seq<Arg>, p: nat) { 1 <= p <= |args| && args[p - 1].Time? }
  predicate IsNumber(args: seq<Arg>, p: nat) { 1 <= p <= |args| && args[p - 1].Number? }

  predicate TupleBound(args: seq<Arg>, s: Slots) {
    IsText(args, s.source) && IsText(args, s.metric) && IsTime(args, s.ts) && IsNumber(args, s.value)
  }

  predicate WellBound(st: Statement) {
    |st.args| <= MAX_PARAMETERS && forall s :: s in st.tuples ==> TupleBound(st.args, s)
  }

  function BoundRow(args: seq<Arg>, s: Slots): Reading
    requires TupleBound(args, s)
  {
    Reading(args[s.source - 1].text, args[s.metric - 1].text, args[s.ts - 1].micros, args[s.value - 1].number)
  }

  /** The rows a statement offers, its placeholders looked up among its arguments. */
  function BoundRows(st: Statement): (rows: seq<Reading>)
    requires WellBound(st)
    ensures |rows| == |st.tuples|
  {
    seq(|st.tuples|, i requires 0 <= i < |st.tuples| => BoundRow(st.args, st.tuples[i]))
  }

  /** The first of n statements that is not Done, or n. */
  function FirstFault(net: nat -> Exec, n: nat): (k: nat)
    ensures k <= n
    ensures forall i :: 0 <= i < k ==> net(i).Done?
    ensures k < n ==> !net(k).Done?
  {
    if n == 0 then 0
    else
      var k := FirstFault(net, n - 1);
      if k < n - 1 || !net(n - 1).Done? then k else n
  }

  lemma {:induction false} FirstFaultFound(net: nat -> Exec, k: nat, n: nat)
    requires k < n && FirstFault(net, k) == k
    ensures if net(k).Done? then FirstFault(net, k + 1) == k + 1 else FirstFault(net, n) == k
  {
    if k < n - 1 {
      FirstFaultFound(net, k, n - 1);
    }
  }

  /** How many statements of a batch of n rows reach the table. */
  function Committed(net: nat -> Exec, n: nat): nat {
    var k := FirstFault(net, ChunkCount(n));
    if k < ChunkCount(n) && net(k).Lost? then k + 1 else k
  }

  predicate Places(args: seq<Arg>, s: Slots, r: Reading) {
    TupleBound(args, s) && BoundRow(args, s) == r
  }

  /** Placeholders 1..4n in row order, within the parameter limit, and bound they give the chunk back. */
  method BuildStatement(chunk: seq<Reading>) returns (st: Statement)
    requires |chunk| <= MAX_ROWS_PER_STMT
    ensures WellBound(st) && BoundRows(st) == chunk
    ensures |st.args| == 4 * |chunk| <= 4000
    ensures forall i {:trigger st.tuples[i]} :: 0 <= i < |chunk| ==>
              st.tuples[i] == Slots(4 * i + 1, 4 * i + 2, 4 * i + 3, 4 * i + 4)
  {
    var tuples: seq<Slots>, args: seq<Arg> := [], [];
    for i := 0 to |chunk|
      invariant |tuples| == i && |args| == 4 * i
      invariant forall j {:trigger tuples[j]} :: 0 <= j < i ==>
                  tuples[j] == Slots(4 * j + 1, 4 * j + 2, 4 * j + 3, 4 * j + 4)
      invariant forall j :: 0 <= j < i ==> Places(args, tuples[j], chunk[j])
    {
      var n := i * 4;
      var r := chunk[i];
      tuples := tuples + [Slots(n + 1, n + 2, n + 3, n + 4)];
      args := args + [Text(r.source), Text(r.metric), Time(r.ts), Number(r.value)];
    }
    st := Statement(tuples, args);
  }

  /** How much a table grows by the first k statements of a batch. */
  function Growth(t: Table, rows: seq<Reading>, k: nat): nat {
    var part := rows[..ChunkEnd(|rows|, k)];
    RowsAffectedIsGrowth(t, part);
    |Insert(t, part)| - |t|
  }

  lemma NextChunk(t: Table, rows: seq<Reading>, start: nat, end: nat)
    requires start <= end <= |rows|
    ensures Insert(t, rows[..end]) == Insert(Insert(t, rows[..start]), rows[start..end])
  {
    assert rows[..end] == rows[..start] + rows[start..end];
    InsertConcat(t, rows[..start], rows[start..end]);
  }

  /** After k clean statements: the table holds what they carried, and `inserted` is what it gained. */
  ghost predicate Sent(t0: Table, rows: seq<Reading>, net: nat -> Exec, k: nat, t: Table, inserted: int) {
    && k <= ChunkCount(|rows|) && FirstFault(net, k) == k
    && t == Insert(t0, rows[..ChunkEnd(|rows|, k)])
    && inserted == Growth(t0, rows, k)
  }

  /** The batch that InsertReadings leaves when it returns. */
  ghost predicate SentAll(t0: Table, rows: seq<Reading>, net: nat -> Exec, t: Table, inserted: int) {
    && t == Insert(t0, rows[..ChunkEnd(|rows|, Committed(net, |rows|))])
    && inserted == Growth(t0, rows, FirstFault(net, ChunkCount(|rows|)))
  }

  lemma ChunkBounds(n: nat, k: nat, start: nat, end: nat)
    requires start == k * MAX_ROWS_PER_STMT < n
    requires end == if start + MAX_ROWS_PER_STMT > n then n else start + MAX_ROWS_PER_STMT
    ensures start == ChunkEnd(n, k) && end == ChunkEnd(n, k + 1) && k < ChunkCount(n)
  {
    ChunkEndFacts(n, k);
  }

  lemma SentMore(t0: Table, rows: seq<Reading>, net: nat -> Exec, k: nat, t: Table, inserted: int, start: nat, end: nat)
    requires Sent(t0, rows, net, k, t, inserted) && net(k).Done?
    requires k < ChunkCount(|rows|) && start == ChunkEnd(|rows|, k) <= end == ChunkEnd(|rows|, k + 1) <= |rows|
    ensures var t' := Insert(t, rows[start..end]);
            Sent(t0, rows, net, k + 1, t', inserted + |t'| - |t|)
  {
    FirstFaultFound(net, k, ChunkCount(|rows|));
    NextChunk(t0, rows, start, end);
  }

  lemma SentUpTo(t0: Table, rows: seq<Reading>, net: nat -> Exec, k: nat, t: Table, inserted: int, start: nat, end: nat)
    requires Sent(t0, rows, net, k, t, inserted) && !net(k).Done?
    requires k < ChunkCount(|rows|) && start == ChunkEnd(|rows|, k) <= end == ChunkEnd(|rows|, k + 1) <= |rows|
    ensures FirstFault(net, ChunkCount(|rows|)) == k
    ensures SentAll(t0, rows, net, if net(k).Refused? then t else Insert(t, rows[start..end]), inserted)
  {
    FirstFaultFound(net, k, ChunkCount(|rows|));
    assert Committed(net, |rows|) == if net(k).Lost? then k + 1 else k;
    NextChunk(t0, rows, start, end);
  }

  lemma SentEverything(t0: Table, rows: seq<Reading>, net: nat -> Exec, k: nat, t: Table, inserted: int)
    requires Sent(t0, rows, net, k, t, inserted) && k * MAX_ROWS_PER_STMT >= |rows|
    ensures FirstFault(net, ChunkCount(|rows|)) == ChunkCount(|rows|) && SentAll(t0, rows, net, t, inserted)
  {
    ChunkEndFacts(|rows|, k);
  }

  /**
   * A fault on the wire that hides new rows: the statement that ended the batch committed some, and its reply was lost.
   */
  predicate HidesRows(t0: Table, rows: seq<Reading>, net: nat -> Exec) {
    var k := FirstFault(net, ChunkCount(|rows|));
    && k < ChunkCount(|rows|) && net(k).Lost?
    && RowsAffected(Insert(t0, rows[..ChunkEnd(|rows|, k)]), rows[ChunkEnd(|rows|, k)..ChunkEnd(|rows|, k + 1)]) > 0
  }

  lemma ChunkGrowth(t0: Table, rows: seq<Reading>, start: nat, end: nat)
    requires start <= end <= |rows|
    ensures |Insert(t0, rows[..end])|
         == |Insert(t0, rows[..start])| + RowsAffected(Insert(t0, rows[..start]), rows[start..end])
  {
    assert rows[..end] == rows[..start] + rows[start..end];
    RowsAffectedConcat(t0, rows[..start], rows[start..end]);
    RowsAffectedIsGrowth(t0, rows[..start]);
    RowsAffectedIsGrowth(t0, rows[..end]);
  }

  /**
   * When the returned count is the growth of the table: always, but for a fault that hides new rows; never too high.
   */
  lemma CountIsGrowthIff(t0: Table, rows: seq<Reading>, net: nat -> Exec, t: Table, inserted: int)
    requires SentAll(t0, rows, net, t, inserted)
    ensures inserted == |t| - |t0| <==> !HidesRows(t0, rows, net)
    ensures 0 <= inserted <= |t| - |t0|
  {
    var k := FirstFault(net, ChunkCount(|rows|));
    var start, end := ChunkEnd(|rows|, k), ChunkEnd(|rows|, k + 1);
    RowsAffectedIsGrowth(t0, rows[..start]);
    if k < ChunkCount(|rows|) && net(k).Lost? {
      assert t == Insert(t0, rows[..end]);
      ChunkGrowth(t0, rows, start, end);
    } else {
      assert t == Insert(t0, rows[..start]);
    }
  }

  /** It does happen: one new row whose reply is lost is in the table and not in the count. */
  lemma LostReplyHidesRow(t0: Table, r: Reading, net: nat -> Exec, t: Table, inserted: int)
    requires r.RowKey() !in t0 && net(0).Lost?
    requires SentAll(t0, [r], net, t, inserted)
    ensures HidesRows(t0, [r], net)
    ensures inserted == 0 && |t| == |t0| + 1
  {
    assert ChunkCount(1) == 1 && FirstFault(net, 1) == 0;
    assert [r][..0] == [] && [r][0..1] == [r] && [r][..1] == [r];
    assert RowsAffected(t0, [r]) == 1;
    RowsAffectedIsGrowth(t0, [r]);
  }

  class Store {
    var table: Table

    constructor (start: Table)
      ensures table == start
    {
      table := start;
    }

    /** The database runs one statement, or refuses it, or runs it and loses the reply. */
    method Execute(st: Statement, outcome: Exec) returns (affected: nat, err: bool)
      requires WellBound(st)
      modifies this
      ensures err == !outcome.Done?
      ensures table == if outcome.Refused? then old(table) else Insert(old(table), BoundRows(st))
      ensures affected == if err then 0 else RowsAffected(old(table), BoundRows(st))
    {
      var rows := BoundRows(st);
      affected := if outcome.Done? then RowsAffected(table, rows) else 0;
      err := !outcome.Done?;
      if !outcome.Refused? {
        table := Insert(table, rows);
      }
    }

    method InsertChunk(chunk: seq<Reading>, outcome: Exec) returns (inserted: nat, err: bool)
      requires |chunk| <= MAX_ROWS_PER_STMT
      modifies this
      ensures err == !outcome.Done?
      ensures table == if outcome.Refused? then old(table) else Insert(old(table), chunk)
      ensures inserted == if err then 0 else |table| - |old(table)|
    {
      var st := BuildStatement(chunk);
      RowsAffectedIsGrowth(table, chunk);
      inserted, err := Execute(st, outcome);
    }

    /**
     * Chunked insert: the table and count of one whole insert, cut at the first faulty statement. The count is what the
     * table gained, unless the last statement sent committed new rows and lost its reply.
     */
    method InsertReadings(readings: seq<Reading>, net: nat -> Exec) returns (inserted: nat, err: bool)
      modifies this
      ensures err <==> FirstFault(net, ChunkCount(|readings|)) < ChunkCount(|readings|)
      ensures SentAll(old(table), readings, net, table, inserted)
      ensures inserted == |table| - |old(table)| <==> !HidesRows(old(table), readings, net)
      ensures inserted <= |table| - |old(table)|
    {
      var k, start := 0, 0;
      inserted := 0;
      while start < |readings|
        invariant start == k * MAX_ROWS_PER_STMT
        invariant Sent(old(table), readings, net, k, table, inserted)
        decreases |readings| - start
      {
        var end := start + MAX_ROWS_PER_STMT;
        if end > |readings| {
          end := |readings|;
        }
        ChunkBounds(|readings|, k, start, end);
        ghost var before := table;
        var added;
        added, err := InsertChunk(readings[start..end], net(k));
        if err {
          SentUpTo(old(table), readings, net, k, before, inserted, start, end);
          CountIsGrowthIff(old(table), readings, net, table, inserted);
          return inserted, true;
        }
        SentMore(old(table), readings, net, k, before, inserted, start, end);
        inserted := inserted + added;
        start := start + MAX_ROWS_PER_STMT;
        k := k + 1;
      }
      SentEverything(old(table), readings, net, k, table, inserted);
      CountIsGrowthIff(old(table), readings, net, table, inserted);
      return inserted, false;
    }
  }

  /** A send without a fault writes the whole batch and reports all that the table gained. */
  lemma CleanSend(t: Table, readings: seq<Reading>, net: nat -> Exec)
    requires FirstFault(net, ChunkCount(|readings|)) == ChunkCount(|readings|)
    ensures readings[..ChunkEnd(|readings|, Committed(net, |readings|))] == readings
    ensures Growth(t, readings, ChunkCount(|readings|)) == |Insert(t, readings)| - |t|
  {
    ChunkEndFacts(|readings|, ChunkCount(|readings|));
    assert readings[..|readings|] == readings;
  }

  /** Sending a batch again after any fault: the second, clean send completes it, and a third adds nothing. */
  lemma RetryCompletes(t: Table, readings: seq<Reading>, net: nat -> Exec)
    ensures var part := Insert(t, readings[..ChunkEnd(|readings|, Committed(net, |readings|))]);
            && Insert(part, readings) == Insert(t, readings)
            && RowsAffected(Insert(t, readings), readings) == 0
            && Insert(Insert(t, readings), readings) == Insert(t, readings)
  {
    var n := |readings|;
    ChunkEndFacts(n, Committed(net, n));
    ResumeInsert(t, readings, ChunkEnd(n, Committed(net, n)));
    FirstWriterWins(t, readings);
    InsertPresent(Insert(t, readings), readings);
  }
}
