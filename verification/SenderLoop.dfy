/** The sender loop, proved to drain its queue in order once the bad weather is used up. */
module SenderLoop {
  import opened Readings
  import opened Ingest
  import opened Journal
  import opened Sender
  import opened Draining
  import DiskBuffer

  /** The body of the sweep: load the oldest batch, post it, and unlink it unless it must be retried later. */
  method SendOldest(buf: DiskBuffer.DiskBuffer, link: Link, s: Settings, path: string, stats0: Stats,
                    ghost t: Table, ghost q: seq<Batch>, ghost k: nat, ghost m: nat)
    returns (settled: bool, stats: Stats, ghost m': nat)
    requires s.maxAttempts >= 1 && Listing(buf.files) != [] && path == Listing(buf.files)[0]
    requires Stands(link.gate, t, q, k, m, buf.files, buf.counter, link.Snapshot(), stats0)
    modifies buf`files, link
    ensures |link.weather| <= old(|link.weather|)
    ensures !settled ==> |link.weather| < old(|link.weather|) && buf.files == old(buf.files)
    ensures settled ==> Listing(buf.files) == old(Listing(buf.files))[1..]
    ensures Stands(link.gate, t, q, if settled then k + 1 else k, m', buf.files, buf.counter, link.Snapshot(), stats)
  {
    stats := stats0;
    m' := SettleHead(link.gate, s, t, q, k, m, buf.files, buf.counter, link.Snapshot(), stats);
    var batch := buf.Load(path);
    var verdict, _ := PostBatch(link, s, batch.value, NEVER);
    settled := verdict != TRANSIENT;
    if settled {
      buf.Remove(path);
      stats := Tally(stats, verdict, |batch.value|);
      m' := 0;
    }
  }

  /** One pass over a listing: stop at the first batch that does not go through. */
  method Sweep(buf: DiskBuffer.DiskBuffer, link: Link, s: Settings, pending: seq<string>, stats0: Stats,
               ghost t: Table, ghost q: seq<Batch>, ghost k0: nat, ghost m0: nat)
    returns (stats: Stats, ghost k: nat, ghost m: nat)
    requires s.maxAttempts >= 1 && pending == Listing(buf.files) && pending != []
    requires Stands(link.gate, t, q, k0, m0, buf.files, buf.counter, link.Snapshot(), stats0)
    modifies buf`files, link
    ensures Stands(link.gate, t, q, k, m, buf.files, buf.counter, link.Snapshot(), stats)
    ensures |link.weather| < old(|link.weather|)
         || (|link.weather| == old(|link.weather|) && Listing(buf.files) == [])
  {
    stats, k, m := stats0, k0, m0;
    var rest := pending;
    while rest != []
      invariant rest == Listing(buf.files)
      invariant Stands(link.gate, t, q, k, m, buf.files, buf.counter, link.Snapshot(), stats)
      invariant |link.weather| <= old(|link.weather|)
      decreases |rest|
    {
      var settled;
      settled, stats, m := SendOldest(buf, link, s, rest[0], stats, t, q, k, m);
      if !settled {
        return;
      }
      rest, k := rest[1..], k + 1;
    }
  }

  /**
   * The sender loop, until its queue is empty: every batch settled once, strictly in enqueue order, and nothing of what
   * went astray left to come. Good and bad attempts alternate as they please; the bad ones only have to be finitely
   * many. Requests left over from before may still be with the server, for the oldest batch or for rows that are there.
   */
  method SenderLoop(buf: DiskBuffer.DiskBuffer, link: Link, s: Settings) returns (stats: Stats)
    requires s.maxAttempts >= 1 && Stormy(link.weather) && JournalBelow(buf.files, buf.counter)
    requires AllFit(link.gate, link.Snapshot(), Next(Contents(buf.files), 0))
    modifies buf`files, link
    ensures Contents(buf.files) == []
    ensures link.table == Delivered(link.gate, old(link.table), old(Contents(buf.files)))
    ensures forall commits :: CommitAll(link.gate, link.Snapshot(), commits).table == link.table
    ensures stats.sent == RowCount(link.gate, old(Contents(buf.files)), true)
    ensures stats.dropped == RowCount(link.gate, old(Contents(buf.files)), false)
  {
    ghost var q := Contents(buf.files);
    ghost var k, m := 0, 0;
    stats := Stats(0, 0);
    DrainStarts(link.gate, buf.files, buf.counter, link.Snapshot());
    var pending := buf.Pending();
    while pending != []
      invariant Stands(link.gate, old(link.table), q, k, m, buf.files, buf.counter, link.Snapshot(), stats)
      invariant pending == Listing(buf.files)
      decreases |link.weather|, |pending|
    {
      stats, k, m := Sweep(buf, link, s, pending, stats, old(link.table), q, k, m);
      pending := buf.Pending();
    }
    DrainEnds(link.gate, old(link.table), q, k, m, buf.files, buf.counter, link.Snapshot(), stats);
    assert |Contents(buf.files)| == |Listing(buf.files)|;
    forall commits ensures CommitAll(link.gate, link.Snapshot(), commits).table == link.table {
      LateCommitsAreSilent(link.gate, link.Snapshot(), commits);
    }
  }
}
