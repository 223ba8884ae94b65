/** The one-time backfill: day windows, chunked posts, and re-running after an interruption. */
module Backfill {
  import opened Options
  import opened Readings

  // One InfluxDB record: its label or gauge ("" when missing), time and value.
  datatype Record = Record(tag: string, time: int, value: Option<real>)

  // The two buckets, in the order their queries return records.
  datatype History = History(temperatures: seq<Record>, pressures: seq<Record>)

  const DAY: int := 86_400_000_000

  const TEMP_MAP: map<string, string> :=
    map["SORB" := "SORB", "1KPOT" := "1K Pot", "HE3POT" := "He3 Pot", "STM" := "STM"]
  const PRESSURE_MAP: map<string, string> :=
    map["LL" := "LL", "OC" := "OC", "PREP" := "PREP", "PC" := "PC"]

  datatype Gauge = Thermometer | Manometer

  /** The reading a record becomes; unknown labels, missing values and non-positive pressures are skipped. */
  function Convert(source: string, gauge: Gauge, r: Record): Option<Reading> {
    var names := if gauge.Thermometer? then TEMP_MAP else PRESSURE_MAP;
    if r.tag !in names || r.value.None? || (gauge.Manometer? && r.value.value <= 0.0) then None
    else Some(Reading(source, names[r.tag], r.time, r.value.value))
  }

  /** The records of one gauge in [from, to), converted, in query order. */
  function Read(source: string, gauge: Gauge, records: seq<Record>, from: int, to: int): seq<Reading> {
    if records == [] then []
    else
      var r := records[|records| - 1];
      Read(source, gauge, records[..|records| - 1], from, to) +
      if from <= r.time < to && Convert(source, gauge, r).Some? then [Convert(source, gauge, r).value] else []
  }

  /** What one window reads: temperatures, then pressures. */
  function Window(source: string, h: History, from: int, to: int): seq<Reading> {
    Read(source, Thermometer, h.temperatures, from, to) + Read(source, Manometer, h.pressures, from, to)
  }

  function WindowEnd(day: int, end: int): int {
    if day + DAY < end then day + DAY else end
  }

  /** Everything read from `day` on, window by window. */
  function ReadFrom(source: string, h: History, day: int, end: int): seq<Reading>
    decreases end - day
  {
    if day >= end then []
    else Window(source, h, day, WindowEnd(day, end)) + ReadFrom(source, h, WindowEnd(day, end), end)
  }

  // ---- each point is read once

  lemma {:induction false} ReadSplits(source: string, gauge: Gauge, records: seq<Record>, a: int, b: int, c: int)
    requires a <= b <= c
    ensures multiset(Read(source, gauge, records, a, c))
         == multiset(Read(source, gauge, records, a, b)) + multiset(Read(source, gauge, records, b, c))
  {
    if records != [] {
      ReadSplits(source, gauge, records[..|records| - 1], a, b, c);
    }
  }

  lemma {:induction false} ReadNothing(source: string, gauge: Gauge, records: seq<Record>, a: int, b: int)
    requires a >= b
    ensures Read(source, gauge, records, a, b) == []
  {
    if records != [] {
      ReadNothing(source, gauge, records[..|records| - 1], a, b);
    }
  }

  /** The windows partition [day, end): together they read each point of it once, and no other. */
  lemma {:induction false} WindowsPartition(source: string, h: History, day: int, end: int)
    ensures multiset(ReadFrom(source, h, day, end)) == multiset(Window(source, h, day, end))
    decreases end - day
  {
    if day >= end {
      ReadNothing(source, Thermometer, h.temperatures, day, end);
      ReadNothing(source, Manometer, h.pressures, day, end);
    } else {
      var next := WindowEnd(day, end);
      WindowsPartition(source, h, next, end);
      ReadSplits(source, Thermometer, h.temperatures, day, next, end);
      ReadSplits(source, Manometer, h.pressures, day, next, end);
    }
  }

  // ---- posting

  function Flat(posts: seq<seq<Reading>>): seq<Reading> {
    if posts == [] then [] else Flat(posts[..|posts| - 1]) + posts[|posts| - 1]
  }

  /** Posts of at most n readings, none of them empty. */
  predicate Sized(posts: seq<seq<Reading>>, n: nat) {
    posts != [] ==> 0 < |posts[|posts| - 1]| <= n && Sized(posts[..|posts| - 1], n)
  }

  // faults(i) says what becomes of the i-th post: None if it is stored, Some(k) if the run dies in it with k of its
  // statements committed.
  class Ingest {
    const faults: nat -> Option<nat>
    var table: Table
    var posts: seq<seq<Reading>>

    constructor (table: Table, faults: nat -> Option<nat>)
      ensures this.table == table && posts == [] && this.faults == faults
    {
      this.table, posts, this.faults := table, [], faults;
    }

    method Post(chunk: seq<Reading>) returns (inserted: nat, err: bool, ghost stored: nat)
      modifies this
      ensures stored <= |chunk| && table == Insert(old(table), chunk[..stored])
      ensures !err ==> stored == |chunk|
      ensures posts == old(posts) + [chunk]
      ensures !err ==> inserted == |table| - |old(table)|
    {
      var fault := faults(|posts|);
      posts := posts + [chunk];
      err := fault.Some?;
      var k := if err then ChunkEnd(|chunk|, fault.value) else |chunk|;
      stored := k;
      RowsAffectedIsGrowth(table, chunk[..k]);
      inserted := RowsAffected(table, chunk[..k]);
      table := Insert(table, chunk[..k]);
    }
  }

  /** What has been stored of `rows`, and how it was posted. */
  ghost predicate Stored(t0: Table, rows: seq<Reading>, n: nat, table: Table, posts: seq<seq<Reading>>) {
    table == Insert(t0, rows) && Flat(posts) == rows && Sized(posts, n)
  }

  /** The table of a run that died: some first part of all there was to store. */
  ghost predicate Interrupted(t0: Table, rows: seq<Reading>, table: Table) {
    exists k: nat :: k <= |rows| && table == Insert(t0, rows[..k])
  }

  lemma StoredMore(t0: Table, whole: seq<Reading>, k: nat, m: nat, n: nat, table: Table, posts: seq<seq<Reading>>)
    requires k < m <= |whole| && m - k <= n && Stored(t0, whole[..k], n, table, posts)
    ensures Stored(t0, whole[..m], n, Insert(table, whole[k..m]), posts + [whole[k..m]])
  {
    assert whole[..m] == whole[..k] + whole[k..m];
    InsertConcat(t0, whole[..k], whole[k..m]);
    assert (posts + [whole[k..m]])[..|posts|] == posts;
  }

  lemma InterruptedIn(t0: Table, whole: seq<Reading>, k: nat, m: nat, table: Table, stored: nat)
    requires k <= m <= |whole| && table == Insert(t0, whole[..k]) && stored <= m - k
    ensures Interrupted(t0, whole, Insert(table, whole[k..m][..stored]))
  {
    assert whole[..k + stored] == whole[..k] + whole[k..m][..stored];
    InsertConcat(t0, whole[..k], whole[k..m][..stored]);
  }

  lemma Slices(whole: seq<Reading>, k: nat, batch: seq<Reading>, size: nat)
    requires k + |batch| <= |whole| && batch == whole[k..k + |batch|] && size <= |batch|
    ensures |batch[..size]| == size && batch[..size] == whole[k..k + size]
    ensures |batch[size..]| == |batch| - size && batch[size..] == whole[k + size..k + |batch|]
  {
  }

  /** Post one chunk, the readings from k on. */
  method PostChunk(server: Ingest, chunk: seq<Reading>, n: nat, ghost t0: Table, ghost whole: seq<Reading>,
                   ghost k: nat)
    returns (inserted: nat, err: bool)
    requires 0 < |chunk| <= n && k + |chunk| <= |whole| && chunk == whole[k..k + |chunk|]
    requires Stored(t0, whole[..k], n, server.table, server.posts)
    modifies server
    ensures !err ==> Stored(t0, whole[..k + |chunk|], n, server.table, server.posts)
    ensures !err ==> inserted == |server.table| - |old(server.table)|
    ensures err ==> Interrupted(t0, whole, server.table)
  {
    ghost var before, posts := server.table, server.posts;
    ghost var stored;
    inserted, err, stored := server.Post(chunk);
    if err {
      InterruptedIn(t0, whole, k, k + |chunk|, before, stored);
    } else {
      assert chunk[..|chunk|] == chunk;
      StoredMore(t0, whole, k, k + |chunk|, n, before, posts);
    }
  }

  /** What is posted ends where the batch begins. */
  ghost predicate Posting(t0: Table, whole: seq<Reading>, n: nat, k: nat, batch: seq<Reading>, table: Table,
                          posts: seq<seq<Reading>>) {
    && k + |batch| <= |whole| && batch == whole[k..k + |batch|]
    && Stored(t0, whole[..k], n, table, posts)
  }

  /** Post the next chunk of a batch; k moves on with it. */
  method FlushChunk(server: Ingest, all: seq<Reading>, n: nat, ghost t0: Table, ghost whole: seq<Reading>,
                    ghost k0: nat)
    returns (rest: seq<Reading>, inserted: nat, err: bool, ghost k: nat)
    requires n >= 1 && all != [] && Posting(t0, whole, n, k0, all, server.table, server.posts)
    modifies server
    ensures |rest| < |all| && k + |rest| == k0 + |all|
    ensures !err ==> Posting(t0, whole, n, k, rest, server.table, server.posts)
    ensures !err ==> inserted == |server.table| - |old(server.table)|
    ensures err ==> Interrupted(t0, whole, server.table)
  {
    var size := if |all| <= n then |all| else n;
    Slices(whole, k0, all, size);
    var chunk := all[..size];
    rest, k := all[size..], k0 + size;
    inserted, err := PostChunk(server, chunk, n, t0, whole, k0);
  }

  /** Post a batch in chunks until it is empty. */
  method Flush(server: Ingest, all: seq<Reading>, n: nat, ghost t0: Table, ghost whole: seq<Reading>, ghost k0: nat)
    returns (inserted: nat, err: bool)
    requires n >= 1 && Posting(t0, whole, n, k0, all, server.table, server.posts)
    modifies server
    ensures !err ==> k0 + |all| <= |whole| && Stored(t0, whole[..k0 + |all|], n, server.table, server.posts)
    ensures !err ==> inserted == |server.table| - |old(server.table)|
    ensures err ==> Interrupted(t0, whole, server.table)
  {
    var batch := all;
    ghost var k: nat := k0;
    inserted, err := 0, false;
    while batch != []
      invariant !err && k + |batch| == k0 + |all|
      invariant Posting(t0, whole, n, k, batch, server.table, server.posts)
      invariant inserted == |server.table| - |old(server.table)|
      decreases |batch|
    {
      var got;
      batch, got, err, k := FlushChunk(server, batch, n, t0, whole, k);
      if err {
        return;
      }
      inserted := inserted + got;
    }
  }

  /** What is still to be read, after k readings posted and a batch waiting, is where `whole` goes on. */
  ghost predicate Ahead(source: string, h: History, day: int, end: int, whole: seq<Reading>, k: nat,
                        batch: seq<Reading>) {
    && k + |batch| <= |whole| && batch == whole[k..k + |batch|]
    && whole[k + |batch|..] == ReadFrom(source, h, day, end)
  }

  lemma ReadOn(source: string, h: History, day: int, end: int, whole: seq<Reading>, k: nat, batch: seq<Reading>)
    requires day < end && Ahead(source, h, day, end, whole, k, batch)
    ensures Ahead(source, h, WindowEnd(day, end), end, whole, k, batch + Window(source, h, day, WindowEnd(day, end)))
  {
    var today := Window(source, h, day, WindowEnd(day, end));
    var m := k + |batch|;
    var later := ReadFrom(source, h, WindowEnd(day, end), end);
    assert whole[m..] == today + later;
    assert whole[m..m + |today|] == today by {
      assert whole[m..][..|today|] == today;
    }
    assert whole[k..m + |today|] == whole[k..m] + whole[m..m + |today|];
    assert whole[m + |today|..] == whole[m..][|today|..] == later;
  }

  lemma AheadFlushed(source: string, h: History, day: int, end: int, whole: seq<Reading>, k: nat, batch: seq<Reading>)
    requires Ahead(source, h, day, end, whole, k, batch)
    ensures Ahead(source, h, day, end, whole, k + |batch|, [])
  {
  }

  lemma AheadStarts(source: string, h: History, start: int, end: int, n: nat, t0: Table)
    ensures var whole := ReadFrom(source, h, start, end);
            Ahead(source, h, start, end, whole, 0, []) && Stored(t0, whole[..0], n, t0, [])
  {
  }

  lemma AheadEnds(source: string, h: History, day: int, end: int, whole: seq<Reading>, k: nat, batch: seq<Reading>)
    requires day >= end && Ahead(source, h, day, end, whole, k, batch)
    ensures k + |batch| == |whole| && whole[..k + |batch|] == whole
  {
    assert |whole[k + |batch|..]| == 0;
  }

  /** Read one window. */
  method ReadDay(source: string, h: History, day: int, end: int, waiting: seq<Reading>, ghost whole: seq<Reading>,
                 ghost k: nat)
    returns (batch: seq<Reading>, read: nat)
    requires day < end && Ahead(source, h, day, end, whole, k, waiting)
    ensures Ahead(source, h, WindowEnd(day, end), end, whole, k, batch)
    ensures |batch| == |waiting| + read
  {
    ReadOn(source, h, day, end, whole, k, waiting);
    var today := Window(source, h, day, WindowEnd(day, end));
    batch, read := waiting + today, |today|;
  }

  /** Flush a batch that is full; one that is not waits. */
  method FlushFull(server: Ingest, all: seq<Reading>, n: nat, ghost t0: Table, ghost whole: seq<Reading>, ghost k0: nat)
    returns (rest: seq<Reading>, inserted: nat, err: bool, ghost k: nat)
    requires n >= 1 && Posting(t0, whole, n, k0, all, server.table, server.posts)
    modifies server
    ensures (rest == all && k == k0) || (rest == [] && k == k0 + |all|)
    ensures !err ==> k <= |whole| && Stored(t0, whole[..k], n, server.table, server.posts)
    ensures !err ==> inserted == |server.table| - |old(server.table)|
    ensures err ==> Interrupted(t0, whole, server.table)
  {
    if |all| < n {
      return all, 0, false, k0;
    }
    rest, k := [], k0 + |all|;
    inserted, err := Flush(server, all, n, t0, whole, k0);
  }

  /** One day: read its window, and flush if the batch is full. */
  method Day(server: Ingest, source: string, h: History, day: int, end: int, n: nat, waiting: seq<Reading>,
             ghost t0: Table, ghost whole: seq<Reading>, ghost k0: nat)
    returns (batch: seq<Reading>, read: nat, inserted: nat, err: bool, ghost k: nat)
    requires n >= 1 && day < end && Ahead(source, h, day, end, whole, k0, waiting)
    requires Stored(t0, whole[..k0], n, server.table, server.posts)
    modifies server
    ensures !err ==> Ahead(source, h, WindowEnd(day, end), end, whole, k, batch)
    ensures !err ==> k + |batch| == k0 + |waiting| + read
    ensures !err ==> Stored(t0, whole[..k], n, server.table, server.posts)
    ensures !err ==> inserted == |server.table| - |old(server.table)|
    ensures err ==> Interrupted(t0, whole, server.table)
  {
    batch, read := ReadDay(source, h, day, end, waiting, whole, k0);
    AheadFlushed(source, h, WindowEnd(day, end), end, whole, k0, batch);
    batch, inserted, err, k := FlushFull(server, batch, n, t0, whole, k0);
  }

  /** The whole run: every day, and then what is left over. */
  method Run(server: Ingest, source: string, h: History, start: int, end: int, n: nat)
    returns (totalRead: nat, totalInserted: nat, err: bool)
    requires n >= 1 && server.posts == []
    modifies server
    ensures !err ==> Stored(old(server.table), ReadFrom(source, h, start, end), n, server.table, server.posts)
    ensures !err ==> totalRead == |ReadFrom(source, h, start, end)|
    ensures !err ==> totalInserted == |server.table| - |old(server.table)|
    ensures err ==> Interrupted(old(server.table), ReadFrom(source, h, start, end), server.table)
  {
    ghost var whole := ReadFrom(source, h, start, end);
    ghost var k: nat := 0;
    AheadStarts(source, h, start, end, n, server.table);
    var batch: seq<Reading>, day := [], start;
    totalRead, totalInserted := 0, 0;
    var read, got;
    while day < end
      invariant Ahead(source, h, day, end, whole, k, batch) && totalRead == k + |batch|
      invariant Stored(old(server.table), whole[..k], n, server.table, server.posts)
      invariant totalInserted == |server.table| - |old(server.table)|
      decreases end - day
    {
      batch, read, got, err, k := Day(server, source, h, day, end, n, batch, old(server.table), whole, k);
      if err {
        return;
      }
      totalRead, totalInserted := totalRead + read, totalInserted + got;
      day := WindowEnd(day, end);
    }
    AheadEnds(source, h, day, end, whole, k, batch);
    got, err := Flush(server, batch, n, old(server.table), whole, k);
    totalInserted := if err then 0 else totalInserted + got;
  }

  // ---- running it again

  // What may happen before a run that completes: a run over the same windows dies with some first part stored, or
  // others write, such as the live forwarder, or a run over windows that time has moved since.
  datatype Before = Died(stored: nat) | Others(rows: seq<Reading>)

  function AfterEvent(whole: seq<Reading>, t: Table, e: Before): Table {
    match e
    case Died(k) => Insert(t, whole[..if k < |whole| then k else |whole|])
    case Others(rows) => Insert(t, rows)
  }

  function AfterEvents(t0: Table, whole: seq<Reading>, events: seq<Before>): Table {
    if events == [] then t0
    else AfterEvent(whole, AfterEvents(t0, whole, events[..|events| - 1]), events[|events| - 1])
  }

  /** What the others wrote, in order. */
  function Written(events: seq<Before>): seq<Reading> {
    if events == [] then []
    else
      var last := events[|events| - 1];
      Written(events[..|events| - 1]) + if last.Others? then last.rows else []
  }

  /** Whoever writes a reading that the backfill reads as well writes the value it reads. */
  ghost predicate SameReadings(whole: seq<Reading>, events: seq<Before>) {
    forall i :: 0 <= i < |events| && events[i].Others? ==> Agree(whole, events[i].rows)
  }

  /** A run that completes after an event does what completing first and the event then would have done. */
  lemma EventFirst(t: Table, whole: seq<Reading>, e: Before)
    requires e.Others? ==> Agree(whole, e.rows)
    ensures Insert(AfterEvent(whole, t, e), whole) == Insert(Insert(t, whole), if e.Others? then e.rows else [])
  {
    match e
    case Died(k) => ResumeInsert(t, whole, if k < |whole| then k else |whole|);
    case Others(rows) => InsertsCommute(t, whole, rows);
  }

  /**
   * A post on top of what its run has stored is a longer first part: others may also write between a run's own posts.
   */
  lemma PostIsLongerPart(t: Table, whole: seq<Reading>, k: nat, m: nat)
    requires k <= m <= |whole| && KeysOf(whole[..k]) <= t.Keys
    ensures Insert(t, whole[k..m]) == AfterEvent(whole, t, Died(m))
  {
    assert Insert(t, whole[..k]) == t by {
      InsertPresent(t, whole[..k]);
    }
    assert Insert(t, whole[..m]) == Insert(Insert(t, whole[..k]), whole[k..m]) by {
      assert whole[..m] == whole[..k] + whole[k..m];
      InsertConcat(t, whole[..k], whole[k..m]);
    }
  }

  /**
   * Restartable: however often and wherever runs died, and whatever others wrote meanwhile, the run that completes
   * leaves what one undisturbed run followed by the others' writes would leave.
   */
  lemma {:induction false} CompletesAfter(t0: Table, whole: seq<Reading>, events: seq<Before>)
    requires SameReadings(whole, events)
    ensures Insert(AfterEvents(t0, whole, events), whole) == Insert(Insert(t0, whole), Written(events))
  {
    if events != [] {
      var front, last := events[..|events| - 1], events[|events| - 1];
      assert forall i :: 0 <= i < |front| ==> front[i] == events[i];
      CompletesAfter(t0, whole, front);
      EventFirst(AfterEvents(t0, whole, front), whole, last);
      InsertConcat(Insert(t0, whole), Written(front), if last.Others? then last.rows else []);
    }
  }

  /** In particular the backfill over any span. */
  lemma RerunCompletes(t0: Table, source: string, h: History, start: int, end: int, events: seq<Before>)
    requires SameReadings(ReadFrom(source, h, start, end), events)
    ensures var whole := ReadFrom(source, h, start, end);
            Insert(AfterEvents(t0, whole, events), whole) == Insert(Insert(t0, whole), Written(events))
    ensures var whole := ReadFrom(source, h, start, end);
            Written(events) == [] ==> Insert(AfterEvents(t0, whole, events), whole) == Insert(t0, whole)
  {
    CompletesAfter(t0, ReadFrom(source, h, start, end), events);
  }
}
