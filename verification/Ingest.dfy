/** POST /ingest: all-or-nothing validation, then insert, count and alert. */
module Ingest {
  import opened Options
  import opened Readings
  import opened Store
  import Alerter

  datatype Num = Finite(number: real) | NaN | Infinite

  // One element of a request body.
  datatype Sample = Sample(source: string, metric: string, ts: int, value: Num)

  type Batch = seq<Sample>

  const MAX_BATCH_READINGS := 50_000

  // The zero time.Time, 0001-01-01T00:00:00Z, in microseconds of the Unix epoch.
  const ZERO_TIME := -62_135_596_800_000_000

  /**
   * What the server knows before it looks at a batch: the token's source, and which bodies decode within the size
   * limit.
   */
  datatype Gate = Gate(source: string, decodes: Batch -> bool)

  datatype Complaint = MetricMissing | SourceMismatch | TimeMissing | ValueNotFinite

  function ValidateReading(s: Sample, tokenSource: string): Option<Complaint> {
    if s.metric == "" then Some(MetricMissing)
    else if s.source != "" && s.source != tokenSource then Some(SourceMismatch)
    else if s.ts == ZERO_TIME then Some(TimeMissing)
    else if s.value.NaN? || s.value.Infinite? then Some(ValueNotFinite)
    else None
  }

  /** The batches the server takes. It depends on the batch alone, not on the table or the weather. */
  predicate Accepts(g: Gate, b: Batch) {
    g.decodes(b) && |b| <= MAX_BATCH_READINGS && forall s :: s in b ==> ValidateReading(s, g.source).None?
  }

  function RowOf(g: Gate, s: Sample): Reading {
    Reading(g.source, s.metric, s.ts, if s.value.Finite? then s.value.number else 0.0)
  }

  /** The rows a batch writes: the source is the token's, whatever the body says. */
  function RowsOf(g: Gate, b: Batch): (rows: seq<Reading>)
    ensures |rows| == |b|
    ensures forall r :: r in rows ==> r.source == g.source
  {
    seq(|b|, i requires 0 <= i < |b| => RowOf(g, b[i]))
  }

  /** The rows of the k-th statement of a batch. */
  function Chunk(g: Gate, b: Batch, k: nat): seq<Reading> {
    ChunkEndFacts(|b|, k);
    RowsOf(g, b)[ChunkEnd(|b|, k)..ChunkEnd(|b|, k + 1)]
  }

  /**
   * A batch that is taken is written as it was sent: same metrics, times and values, under the source it claims if any.
   */
  lemma RowsAreSamples(g: Gate, b: Batch, i: nat)
    requires Accepts(g, b) && i < |b|
    ensures b[i].value.Finite?
    ensures RowsOf(g, b)[i].RowKey() == Key(g.source, b[i].metric, b[i].ts)
    ensures RowsOf(g, b)[i].value == b[i].value.number
    ensures b[i].source != "" ==> RowsOf(g, b)[i].source == b[i].source
  {
    assert b[i] in b;
  }

  /** What delivery is for: each batch the server takes is written once, in order. */
  function Delivered(g: Gate, t: Table, q: seq<Batch>): Table {
    if q == [] then t
    else
      var before := Delivered(g, t, q[..|q| - 1]);
      var b := q[|q| - 1];
      if Accepts(g, b) then Insert(before, RowsOf(g, b)) else before
  }

  const STATUS_OK := 200
  const STATUS_BAD_REQUEST := 400
  const STATUS_TOO_LARGE := 413
  const STATUS_FAILED := 500

  /** The status of a batch that the server does not take. */
  function Refusal(g: Gate, b: Batch): (status: int)
    requires !Accepts(g, b)
    ensures status == STATUS_TOO_LARGE <==> g.decodes(b) && |b| > MAX_BATCH_READINGS
    ensures 400 <= status < 500 && status != 408 && status != 429
  {
    if g.decodes(b) && |b| > MAX_BATCH_READINGS then STATUS_TOO_LARGE else STATUS_BAD_REQUEST
  }

  datatype SourceStat = SourceStat(rows: int, lastReceived: int)

  // The view of one source that /metrics shows.
  datatype SourceSnapshot = SourceSnapshot(rows: int, lastReceived: Option<int>)

  /** RecordIngest on the tracker's per-source statistics. */
  function Recorded(per: map<string, SourceStat>, source: string, n: int, now: int): map<string, SourceStat> {
    per[source := SourceStat((if source in per then per[source].rows else 0) + n, now)]
  }

  class Tracker {
    const start: int
    var total: int
    var perSource: map<string, SourceStat>

    constructor (now: int)
      ensures start == now && total == 0 && perSource == map[]
    {
      start, total, perSource := now, 0, map[];
    }

    method RecordIngest(source: string, n: int, now: int)
      modifies this
      ensures total == old(total) + n
      ensures perSource == Recorded(old(perSource), source, n, now)
    {
      total := total + n;
      var st := SourceStat(0, 0);
      if source in perSource {
        st := perSource[source];
      }
      perSource := perSource[source := SourceStat(st.rows + n, now)];
    }

    method Snapshot(now: int) returns (uptime: int, sum: int, sources: map<string, SourceSnapshot>)
      ensures uptime == now - start && sum == total
      ensures sources.Keys == perSource.Keys
      ensures forall s :: s in sources ==> sources[s].rows == perSource[s].rows
      ensures forall s, t :: s in sources ==>
                (sources[s].lastReceived == Some(t) <==> t == perSource[s].lastReceived != ZERO_TIME)
    {
      uptime, sum := now - start, total;
      sources := map[];
      var left := perSource.Keys;
      while left != {}
        invariant left <= perSource.Keys && sources.Keys == perSource.Keys - left
        invariant forall s :: s in sources ==> sources[s].rows == perSource[s].rows
        invariant forall s, t :: s in sources ==>
                    (sources[s].lastReceived == Some(t) <==> t == perSource[s].lastReceived != ZERO_TIME)
        decreases left
      {
        var s :| s in left;
        var st := perSource[s];
        var last := if st.lastReceived == ZERO_TIME then None else Some(st.lastReceived);
        sources := sources[s := SourceSnapshot(st.rows, last)];
        left := left - {s};
      }
    }
  }

  // ---- what a taken batch does to the server

  datatype ServerState = ServerState(
    table: Table,
    total: int,
    perSource: map<string, SourceStat>,
    alarm: Alerter.Alarm)

  /** A batch that is taken: written whole, counted and checked. */
  function Taken(g: Gate, notifiers: nat, s: ServerState, b: Batch, clock: nat -> int, now: int): ServerState {
    if b == [] then s
    else
      var table := Insert(s.table, RowsOf(g, b));
      var n := |table| - |s.table|;
      ServerState(table, s.total + n, Recorded(s.perSource, g.source, n, now),
                  Alerter.Checked(s.alarm, notifiers, clock, RowsOf(g, b)))
  }

  function RowsBySource(per: map<string, SourceStat>): map<string, int> {
    map s | s in per :: per[s].rows
  }

  lemma RecordingNone(per: map<string, SourceStat>, source: string, now: int)
    requires source in per
    ensures RowsBySource(Recorded(per, source, 0, now)) == RowsBySource(per)
  {
  }

  /** A batch whose rows are all there, from a source that is known. */
  lemma TakenAgain(g: Gate, notifiers: nat, s: ServerState, b: Batch, clock: nat -> int, now: int)
    requires KeysOf(RowsOf(g, b)) <= s.table.Keys && (b != [] ==> g.source in s.perSource)
    ensures var again := Taken(g, notifiers, s, b, clock, now);
            && again.table == s.table && again.total == s.total
            && RowsBySource(again.perSource) == RowsBySource(s.perSource)
  {
    if b != [] {
      InsertPresent(s.table, RowsOf(g, b));
      RecordingNone(s.perSource, g.source, now);
    }
  }

  lemma TakenIsThere(g: Gate, notifiers: nat, s: ServerState, b: Batch, clock: nat -> int, now: int)
    ensures var once := Taken(g, notifiers, s, b, clock, now);
            KeysOf(RowsOf(g, b)) <= once.table.Keys && (b != [] ==> g.source in once.perSource)
  {
    FirstWriterWins(s.table, RowsOf(g, b));
  }

  lemma RetryWritesNothing(g: Gate, notifiers: nat, s: ServerState, b: Batch, clock: nat -> int, now: int,
                           again: nat -> int, later: int)
    ensures var once := Taken(g, notifiers, s, b, clock, now);
            var twice := Taken(g, notifiers, once, b, again, later);
            && twice.table == once.table && twice.total == once.total
            && RowsBySource(twice.perSource) == RowsBySource(once.perSource)
  {
    TakenIsThere(g, notifiers, s, b, clock, now);
    TakenAgain(g, notifiers, Taken(g, notifiers, s, b, clock, now), b, again, later);
  }

  /**
   * Retrying an ambiguous success, a batch that was taken but whose reply was lost: the second time adds no row and
   * counts none, and it raises no alert exactly when the batch's readings of each metric agree in level.
   */
  lemma RetryIsSilent(g: Gate, notifiers: nat, s: ServerState, b: Batch, clock: nat -> int, now: int,
                      again: nat -> int, later: int)
    ensures var once := Taken(g, notifiers, s, b, clock, now);
            var twice := Taken(g, notifiers, once, b, again, later);
            && twice.table == once.table && twice.total == once.total
            && RowsBySource(twice.perSource) == RowsBySource(once.perSource)
            && (twice.alarm.log == once.alarm.log <==> Alerter.LevelsAgree(s.alarm, RowsOf(g, b)))
            && (Alerter.LevelsAgree(s.alarm, RowsOf(g, b)) ==> twice.alarm == once.alarm)
  {
    RetryWritesNothing(g, notifiers, s, b, clock, now, again, later);
    if b != [] {
      Alerter.RedeliverySilent(s.alarm, notifiers, clock, again, RowsOf(g, b));
    }
  }

  class Server {
    const gate: Gate
    const store: Store
    const tracker: Tracker
    const alerter: Alerter.Alerter

    constructor (gate: Gate, store: Store, tracker: Tracker, alerter: Alerter.Alerter)
      ensures this.gate == gate && this.store == store && this.tracker == tracker && this.alerter == alerter
    {
      this.gate, this.store, this.tracker, this.alerter := gate, store, tracker, alerter;
    }

    function Snapshot(): ServerState
      reads store, tracker, alerter
    {
      ServerState(store.table, tracker.total, tracker.perSource, alerter.Snapshot())
    }

    /** The rows of a batch, or None at the first reading that does not pass. */
    method ToRows(b: Batch) returns (rows: Option<seq<Reading>>)
      ensures rows.Some? <==> forall s :: s in b ==> ValidateReading(s, gate.source).None?
      ensures rows.Some? ==> rows.value == RowsOf(gate, b)
    {
      var readings: seq<Reading> := [];
      for i := 0 to |b|
        invariant |readings| == i
        invariant forall j :: 0 <= j < i ==>
                    readings[j] == RowOf(gate, b[j]) && ValidateReading(b[j], gate.source).None?
      {
        if ValidateReading(b[i], gate.source).Some? {
          assert b[i] in b;
          return None;
        }
        readings := readings + [RowOf(gate, b[i])];
      }
      assert readings == RowsOf(gate, b);
      return Some(readings);
    }

    /** Insert, and only if that went well, count and alert. */
    method Keep(b: Batch, readings: seq<Reading>, net: nat -> Exec, clock: nat -> int, now: int)
      returns (inserted: nat, err: bool)
      requires b != [] && readings == RowsOf(gate, b)
      modifies store, tracker, alerter
      ensures err <==> FirstFault(net, ChunkCount(|b|)) < ChunkCount(|b|)
      ensures store.table == Insert(old(store.table), readings[..ChunkEnd(|b|, Committed(net, |b|))])
      ensures !err ==> Snapshot() == Taken(gate, alerter.notifiers, old(Snapshot()), b, clock, now)
      ensures !err ==> inserted == |store.table| - |old(store.table)|
      ensures err ==> Snapshot() == old(Snapshot()).(table := store.table)
    {
      inserted, err := store.InsertReadings(readings, net);
      if !err {
        assert store.table == Insert(old(store.table), readings) && inserted == |store.table| - |old(store.table)| by {
          CleanSend(old(store.table), readings, net);
        }
        tracker.RecordIngest(gate.source, inserted, now);
        alerter.Check(readings, clock);
      }
    }

    /** Refused batches touch nothing; a failed insert is neither counted nor alerted on; the rest is written whole. */
    method HandleIngest(b: Batch, net: nat -> Exec, clock: nat -> int, now: int)
      returns (status: int, received: nat, inserted: nat)
      modifies store, tracker, alerter
      ensures status == STATUS_OK <==> Accepts(gate, b) && FirstFault(net, ChunkCount(|b|)) == ChunkCount(|b|)
      ensures !Accepts(gate, b) ==> status == Refusal(gate, b)
      ensures Accepts(gate, b) && status != STATUS_OK ==> status == STATUS_FAILED
      ensures !Accepts(gate, b) ==> store.table == old(store.table)
      ensures Accepts(gate, b) ==>
                store.table == Insert(old(store.table), RowsOf(gate, b)[..ChunkEnd(|b|, Committed(net, |b|))])
      ensures status == STATUS_OK ==> Snapshot() == Taken(gate, alerter.notifiers, old(Snapshot()), b, clock, now)
      ensures status == STATUS_OK ==> received == |b| && inserted == |store.table| - |old(store.table)|
      ensures status != STATUS_OK ==> Snapshot() == old(Snapshot()).(table := store.table)
    {
      received, inserted := 0, 0;
      if !gate.decodes(b) {
        return STATUS_BAD_REQUEST, 0, 0;
      }
      if |b| == 0 {
        assert RowsOf(gate, b) == [];
        return STATUS_OK, 0, 0;
      }
      if |b| > MAX_BATCH_READINGS {
        return STATUS_TOO_LARGE, 0, 0;
      }
      var readings := ToRows(b);
      if readings.None? {
        return STATUS_BAD_REQUEST, 0, 0;
      }
      var err;
      inserted, err := Keep(b, readings.value, net, clock, now);
      if err {
        return STATUS_FAILED, 0, 0;
      }
      return STATUS_OK, |b|, inserted;
    }
  }
}
