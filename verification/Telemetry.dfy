/** The in-process row counters against the table, for any interleaving of ingest handlers. */
module Telemetry {
  import opened Readings
  import opened Store
  import opened Ingest

  datatype Phase = Inserting | Counted | Failed

  // One accepted request: `reported` is what InsertReadings will return, `added` what its statements put in the table.
  datatype Handler = Handler(source: string, rows: seq<Reading>, next: nat, reported: nat, added: nat, phase: Phase)

  datatype World = World(table: Table, total: int, perSource: map<string, SourceStat>, handlers: seq<Handler>)

  datatype Move =
    | Arrive(source: string, rows: seq<Reading>)
    | RunStatement(i: nat, outcome: Exec)
    | Record(i: nat, now: int)

  function Chunk(h: Handler): seq<Reading> {
    var n := |h.rows|;
    h.rows[ChunkEnd(n, h.next)..ChunkEnd(n, h.next + 1)]
  }

  predicate AllSent(h: Handler) {
    h.next >= ChunkCount(|h.rows|)
  }

  function Do(w: World, move: Move): World {
    match move
    case Arrive(source, rows) => w.(handlers := w.handlers + [Handler(source, rows, 0, 0, 0, Inserting)])
    case RunStatement(i, outcome) =>
      if i >= |w.handlers| || !w.handlers[i].phase.Inserting? || AllSent(w.handlers[i]) then w
      else
        var h := w.handlers[i];
        var n := RowsAffected(w.table, Chunk(h));
        var after := Insert(w.table, Chunk(h));
        (match outcome
         case Done =>
           w.(table := after,
              handlers := w.handlers[i := h.(next := h.next + 1, reported := h.reported + n, added := h.added + n)])
         case Refused => w.(handlers := w.handlers[i := h.(phase := Failed)])
         case Lost => w.(table := after, handlers := w.handlers[i := h.(added := h.added + n, phase := Failed)]))
    case Record(i, now) =>
      if i >= |w.handlers| || !w.handlers[i].phase.Inserting? || !AllSent(w.handlers[i]) then w
      else
        var h := w.handlers[i];
        World(w.table, w.total + h.reported, Recorded(w.perSource, h.source, h.reported, now),
              w.handlers[i := h.(phase := Counted)])
  }

  function After(start: Table, moves: seq<Move>): World {
    if moves == [] then World(start, 0, map[], [])
    else Do(After(start, moves[..|moves| - 1]), moves[|moves| - 1])
  }

  function Share(h: Handler, phase: Phase): nat {
    if h.phase == phase then h.added else 0
  }

  /** Rows put in the table by handlers of a phase. */
  function AddedBy(hs: seq<Handler>, phase: Phase): nat {
    if hs == [] then 0 else AddedBy(hs[..|hs| - 1], phase) + Share(hs[|hs| - 1], phase)
  }

  lemma {:induction false} AddedByUpdate(hs: seq<Handler>, i: nat, h: Handler, phase: Phase)
    requires i < |hs|
    ensures AddedBy(hs[i := h], phase) == AddedBy(hs, phase) - Share(hs[i], phase) + Share(h, phase)
  {
    var n := |hs| - 1;
    if i == n {
      assert hs[i := h][..n] == hs[..n];
    } else {
      assert hs[i := h][..n] == hs[..n][i := h];
      AddedByUpdate(hs[..n], i, h, phase);
    }
  }

  /** The rows of all sources together. */
  ghost function SumRows(per: map<string, SourceStat>): int {
    if per == map[] then 0
    else
      var s :| s in per;
      per[s].rows + SumRows(per - {s})
  }

  lemma {:induction false} SumRowsSplit(per: map<string, SourceStat>, s: string)
    requires s in per
    ensures SumRows(per) == per[s].rows + SumRows(per - {s})
    decreases |per|
  {
    var p :| p in per && SumRows(per) == per[p].rows + SumRows(per - {p});
    if p != s {
      SumRowsSplit(per - {p}, s);
      SumRowsSplit(per - {s}, p);
      assert per - {p} - {s} == per - {s} - {p};
    }
  }

  lemma SumRowsRecorded(per: map<string, SourceStat>, source: string, n: int, now: int)
    ensures SumRows(Recorded(per, source, n, now)) == SumRows(per) + n
  {
    var per' := Recorded(per, source, n, now);
    SumRowsSplit(per', source);
    if source in per {
      SumRowsSplit(per, source);
      assert per' - {source} == per - {source};
    } else {
      assert per' - {source} == per;
    }
  }

  ghost predicate Balanced(start: Table, w: World) {
    && |w.table| == |start| + AddedBy(w.handlers, Inserting) + AddedBy(w.handlers, Counted)
                            + AddedBy(w.handlers, Failed)
    && w.total == AddedBy(w.handlers, Counted)
    && w.total == SumRows(w.perSource)
    && forall h :: h in w.handlers && !h.phase.Failed? ==> h.reported == h.added
  }

  lemma StatementBalances(start: Table, w: World, i: nat, outcome: Exec)
    requires Balanced(start, w)
    ensures Balanced(start, Do(w, RunStatement(i, outcome)))
  {
    var w' := Do(w, RunStatement(i, outcome));
    if w' != w {
      var h, h' := w.handlers[i], w'.handlers[i];
      RowsAffectedIsGrowth(w.table, Chunk(h));
      AddedByUpdate(w.handlers, i, h', Inserting);
      AddedByUpdate(w.handlers, i, h', Counted);
      AddedByUpdate(w.handlers, i, h', Failed);
      assert w'.handlers == w.handlers[i := h'];
      forall g | g in w'.handlers && !g.phase.Failed? ensures g.reported == g.added {
        assert g in w.handlers || g == h';
      }
    }
  }

  lemma RecordBalances(start: Table, w: World, i: nat, now: int)
    requires Balanced(start, w)
    ensures Balanced(start, Do(w, Record(i, now)))
  {
    var w' := Do(w, Record(i, now));
    if w' != w {
      var h, h' := w.handlers[i], w'.handlers[i];
      AddedByUpdate(w.handlers, i, h', Inserting);
      AddedByUpdate(w.handlers, i, h', Counted);
      AddedByUpdate(w.handlers, i, h', Failed);
      assert w'.handlers == w.handlers[i := h'];
      SumRowsRecorded(w.perSource, h.source, h.reported, now);
      forall g | g in w'.handlers && !g.phase.Failed? ensures g.reported == g.added {
        assert g in w.handlers || g == h';
      }
    }
  }

  lemma ArriveBalances(start: Table, w: World, source: string, rows: seq<Reading>)
    requires Balanced(start, w)
    ensures Balanced(start, Do(w, Arrive(source, rows)))
  {
    var hs := Do(w, Arrive(source, rows)).handlers;
    assert hs[..|w.handlers|] == w.handlers;
  }

  lemma {:induction false} EveryRunBalances(start: Table, moves: seq<Move>)
    ensures Balanced(start, After(start, moves))
  {
    if moves != [] {
      var front := moves[..|moves| - 1];
      var w := After(start, front);
      EveryRunBalances(start, front);
      match moves[|moves| - 1]
      case Arrive(source, rows) => ArriveBalances(start, w, source, rows);
      case RunStatement(i, outcome) => StatementBalances(start, w, i, outcome);
      case Record(i, now) => RecordBalances(start, w, i, now);
    }
  }

  lemma {:induction false} NothingAdded(hs: seq<Handler>, phase: Phase)
    ensures AddedBy(hs, phase) == 0 <==> forall h :: h in hs && h.phase == phase ==> h.added == 0
  {
    if hs != [] {
      var n := |hs| - 1;
      NothingAdded(hs[..n], phase);
      assert hs == hs[..n] + [hs[n]];
    }
  }

  /** Telemetry never overstates: the total is the sum of its sources and at most the rows this process added. */
  lemma TotalsAreHonest(start: Table, moves: seq<Move>)
    ensures var w := After(start, moves);
            w.total == SumRows(w.perSource) && w.total <= |w.table| - |start|
  {
    EveryRunBalances(start, moves);
  }

  /** With no request under way it is exact, unless some request failed after a statement of its own added rows. */
  lemma TotalsExactIff(start: Table, moves: seq<Move>)
    requires forall h :: h in After(start, moves).handlers ==> !h.phase.Inserting?
    ensures var w := After(start, moves);
            w.total == |w.table| - |start| <==> forall h :: h in w.handlers && h.phase.Failed? ==> h.added == 0
  {
    var w := After(start, moves);
    EveryRunBalances(start, moves);
    NothingAdded(w.handlers, Inserting);
    NothingAdded(w.handlers, Failed);
  }
}
