/** Draining the queue: what one post_batch of the oldest batch leaves, whatever the weather. */
module Draining {
  import opened Options
  import opened Readings
  import opened Ingest
  import opened Journal
  import opened SortedNames
  import opened Sender

  /** Nobody but the server says 2xx or a permanent 4xx. Good and bad attempts may come in any order. */
  ghost predicate Stormy(weather: seq<Weather>) {
    forall w :: w in weather && w.ending.Astray? ==> Classify(w.ending.seen) == TRANSIENT
  }

  // ---- requests that went astray

  /** Every row of a batch is in the table, if the server takes the batch at all: nothing of it can come late. */
  ghost predicate Covered(g: Gate, table: Table, b: Batch) {
    Accepts(g, b) ==> KeysOf(RowsOf(g, b)) <= table.Keys
  }

  ghost predicate Written(g: Gate, table: Table, r: Posted) {
    Accepts(g, r.batch) ==> KeysOf(RowsOf(g, r.batch)[..ChunkEnd(|r.batch|, r.committed)]) <= table.Keys
  }

  /** A request is for a batch that is all there, or for the one being delivered and only as far as its rows show. */
  ghost predicate Fits(g: Gate, table: Table, b: Option<Batch>, r: Posted) {
    Covered(g, table, r.batch) || (b == Some(r.batch) && Written(g, table, r))
  }

  ghost predicate AllFit(g: Gate, net: Net, b: Option<Batch>) {
    forall r :: r in net.requests ==> Fits(g, net.table, b, r)
  }

  lemma FitsLater(g: Gate, table: Table, later: Table, b: Option<Batch>, r: Posted)
    requires Fits(g, table, b, r) && table.Keys <= later.Keys
    ensures Fits(g, later, b, r)
  {
  }

  /** A table with m rows of a batch that is offered rows c to end, the first c being there already. */
  lemma Advance(t: Table, rows: seq<Reading>, m: nat, c: nat, end: nat)
    requires m <= |rows| && c <= end <= |rows|
    requires KeysOf(rows[..c]) <= Insert(t, rows[..m]).Keys
    ensures Insert(Insert(t, rows[..m]), rows[c..end]) == Insert(t, rows[..if m < end then end else m])
    ensures KeysOf(rows[..end]) <= Insert(Insert(t, rows[..m]), rows[c..end]).Keys
  {
    var table := Insert(t, rows[..m]);
    InsertPresent(table, rows[..c]);
    InsertConcat(table, rows[..c], rows[c..end]);
    assert rows[..end] == rows[..c] + rows[c..end];
    PrefixesOverlap(t, rows, m, end);
    FirstWriterWins(table, rows[..end]);
  }

  lemma OthersStillFit(g: Gate, net: Net, i: nat, rows: seq<Reading>, r: Posted, b: Option<Batch>)
    requires i < |net.requests| && AllFit(g, net, b) && Fits(g, Insert(net.table, rows), b, r)
    ensures AllFit(g, net.(table := Insert(net.table, rows), requests := net.requests[i := r]), b)
  {
    FirstWriterWins(net.table, rows);
    var after := net.(table := Insert(net.table, rows), requests := net.requests[i := r]);
    forall q | q in after.requests ensures Fits(g, after.table, b, q) {
      if q != r {
        FitsLater(g, net.table, after.table, b, q);
      }
    }
  }

  lemma CoveredIsSilent(g: Gate, table: Table, b: Batch, i: nat, j: nat)
    requires Covered(g, table, b) && Accepts(g, b) && i <= j <= |b|
    ensures Insert(table, RowsOf(g, b)[i..j]) == table
  {
    var rows := RowsOf(g, b);
    assert forall r :: r in rows[i..j] ==> r in rows;
    InsertPresent(table, rows[i..j]);
  }

  /** A statement of a fitting request leaves the delivery where it stood, or further along its own batch. */
  lemma StatementFits(g: Gate, t: Table, table: Table, b: Batch, m: nat, r: Posted) returns (m': nat)
    requires m <= |b| && table == Partial(g, t, b, m) && Accepts(g, r.batch) && Fits(g, table, Some(b), r)
    ensures var after := Insert(table, Chunk(g, r.batch, r.committed));
            && m <= m' <= |b| && after == Partial(g, t, b, m')
            && Fits(g, after, Some(b), r.(committed := r.committed + 1))
  {
    var from, to := ChunkEnd(|r.batch|, r.committed), ChunkEnd(|r.batch|, r.committed + 1);
    if Covered(g, table, r.batch) {
      CoveredIsSilent(g, table, r.batch, from, to);
      m' := m;
    } else {
      Advance(t, RowsOf(g, b), m, from, to);
      m' := if m < to then to else m;
    }
  }

  lemma CommitFits(g: Gate, t: Table, net: Net, b: Batch, m: nat, i: nat) returns (m': nat)
    requires m <= |b| && net.table == Partial(g, t, b, m) && AllFit(g, net, Some(b))
    ensures var after := CommitNext(g, net, i);
            m <= m' <= |b| && after.table == Partial(g, t, b, m') && AllFit(g, after, Some(b))
  {
    m' := m;
    if i < |net.requests| && Accepts(g, net.requests[i].batch) {
      var r := net.requests[i];
      m' := StatementFits(g, t, net.table, b, m, r);
      OthersStillFit(g, net, i, Chunk(g, r.batch, r.committed), r.(committed := r.committed + 1), Some(b));
    }
  }

  lemma CommitsFit(g: Gate, t: Table, net: Net, b: Batch, m: nat, commits: seq<nat>) returns (m': nat)
    requires m <= |b| && net.table == Partial(g, t, b, m) && AllFit(g, net, Some(b))
    ensures var after := CommitAll(g, net, commits);
            m <= m' <= |b| && after.table == Partial(g, t, b, m') && AllFit(g, after, Some(b))
  {
    if commits == [] {
      m' := m;
    } else {
      var front, i := commits[..|commits| - 1], commits[|commits| - 1];
      m' := CommitsFit(g, t, net, b, m, front);
      m' := CommitFits(g, t, CommitAll(g, net, front), b, m', i);
    }
  }

  lemma SentFits(g: Gate, net: Net, b: Batch)
    requires AllFit(g, net, Some(b))
    ensures AllFit(g, net.(requests := net.requests + [Posted(b, 0)]), Some(b))
  {
    assert RowsOf(g, b)[..0] == [];
  }

  lemma CoveredIsWhole(g: Gate, t: Table, b: Batch, m: nat)
    requires m <= |b| && Covered(g, Partial(g, t, b, m), b)
    ensures Partial(g, t, b, m) == Partial(g, t, b, |b|)
  {
    var rows := RowsOf(g, b);
    if Accepts(g, b) {
      CoveredIsSilent(g, Insert(t, rows[..m]), b, m, |b|);
      assert rows[..|b|] == rows[..m] + rows[m..|b|];
      InsertConcat(t, rows[..m], rows[m..|b|]);
    }
  }

  /** A batch whose request completes is all there. */
  lemma CompleteFits(g: Gate, t: Table, net: Net, b: Batch, m: nat, i: nat)
    requires m <= |b| && net.table == Partial(g, t, b, m) && AllFit(g, net, Some(b))
    requires i < |net.requests| && net.requests[i].batch == b
    ensures var after := Complete(g, net, i);
            after.table == Partial(g, t, b, |b|) && AllFit(g, after, Some(b)) && Covered(g, after.table, b)
  {
    var r, rows := net.requests[i], RowsOf(g, b);
    assert Fits(g, net.table, Some(b), r);
    if Accepts(g, b) {
      var from := ChunkEnd(|b|, r.committed);
      assert rows[from..] == rows[from..|b|] && rows[..|b|] == rows;
      if Covered(g, net.table, b) {
        CoveredIsSilent(g, net.table, b, from, |b|);
        CoveredIsWhole(g, t, b, m);
      } else {
        Advance(t, rows, m, from, |b|);
      }
      OthersStillFit(g, net, i, rows[from..], r.(committed := ChunkCount(|b|)), Some(b));
    }
  }

  /** One attempt, whatever runs meanwhile. */
  lemma AttemptFits(g: Gate, t: Table, net: Net, b: Batch, m: nat) returns (m': nat)
    requires m <= |b| && net.table == Partial(g, t, b, m) && AllFit(g, net, Some(b))
    ensures var after := Attempt(g, net, b);
            m <= m' <= |b| && after.table == Partial(g, t, b, m') && AllFit(g, after, Some(b))
    ensures net.weather == [] || net.weather[0].ending.Answered? ==>
              m' == |b| && Covered(g, Attempt(g, net, b).table, b)
  {
    var own := |net.requests|;
    var sent := net.(requests := net.requests + [Posted(b, 0)]);
    SentFits(g, net, b);
    if net.weather == [] {
      CompleteFits(g, t, sent, b, m, own);
      m' := |b|;
    } else {
      var going := sent.(weather := net.weather[1..]);
      m' := CommitsFit(g, t, going, b, m, net.weather[0].commits);
      if net.weather[0].ending.Answered? {
        CompleteFits(g, t, CommitAll(g, going, net.weather[0].commits), b, m', own);
        m' := |b|;
      }
    }
  }

  /** One post_batch: it moves on along its own batch, and gives up only by using weather up. */
  lemma {:induction false} PostProgress(g: Gate, s: Settings, t: Table, net: Net, b: Batch, m: nat,
                                        attempt: nat, delay: real, stops: nat -> bool) returns (m': nat)
    requires m <= |b| && net.table == Partial(g, t, b, m) && AllFit(g, net, Some(b)) && Stormy(net.weather)
    ensures var o := Post(g, s, net, b, attempt, delay, stops);
            && m <= m' <= |b| && o.net.table == Partial(g, t, b, m') && AllFit(g, o.net, Some(b))
            && Stormy(o.net.weather) && |o.net.weather| <= |net.weather|
            && (o.verdict == OK ==> Accepts(g, b) && m' == |b| && Covered(g, o.net.table, b))
            && (o.verdict == PERMANENT ==> !Accepts(g, b))
            && (o.verdict == TRANSIENT && attempt <= s.maxAttempts ==> |o.net.weather| < |net.weather|)
    decreases s.maxAttempts - attempt
  {
    m' := m;
    if attempt <= s.maxAttempts {
      m' := AttemptFits(g, t, net, b, m);
      AttemptWeather(g, net, b);
      if Classify(Seen(g, net, b, 0)) == TRANSIENT && attempt < s.maxAttempts && !stops(attempt) {
        m' := PostProgress(g, s, t, Attempt(g, net, b), b, m', attempt + 1, Doubled(delay, s.backoffCap), stops);
      }
    }
  }

  lemma AttemptWeather(g: Gate, net: Net, b: Batch)
    requires Stormy(net.weather)
    ensures Attempt(g, net, b).weather == if net.weather == [] then [] else net.weather[1..]
    ensures Stormy(Attempt(g, net, b).weather)
    ensures Classify(Seen(g, net, b, 0)) == OK ==>
              Accepts(g, b) && (net.weather == [] || net.weather[0].ending.Answered?)
    ensures Classify(Seen(g, net, b, 0)) == PERMANENT ==> !Accepts(g, b)
    ensures Classify(Seen(g, net, b, 0)) == TRANSIENT ==> net.weather != []
  {
    if net.weather != [] {
      assert net.weather[0] in net.weather;
      assert forall w :: w in net.weather[1..] ==> w in net.weather;
    }
  }

  function RowCount(g: Gate, q: seq<Batch>, accepted: bool): nat {
    if q == [] then 0
    else
      var b := q[|q| - 1];
      RowCount(g, q[..|q| - 1], accepted) + if Accepts(g, b) == accepted then |b| else 0
  }

  /** The table after the first k batches are settled and m rows of the next one have got through. */
  ghost function Reaching(g: Gate, t: Table, q: seq<Batch>, k: nat, m: nat): Table
    requires k <= |q| && (k < |q| ==> m <= |q[k]|)
  {
    if k == |q| then Delivered(g, t, q) else Partial(g, Delivered(g, t, q[..k]), q[k], m)
  }

  lemma HeadSettled(g: Gate, t: Table, q: seq<Batch>, k: nat)
    requires k < |q|
    ensures Reaching(g, t, q, k + 1, 0) == Partial(g, Delivered(g, t, q[..k]), q[k], |q[k]|)
    ensures forall a :: RowCount(g, q[..k + 1], a)
                     == RowCount(g, q[..k], a) + if Accepts(g, q[k]) == a then |q[k]| else 0
  {
    assert q[..k + 1][..k] == q[..k];
    assert RowsOf(g, q[k])[..|q[k]|] == RowsOf(g, q[k]);
    if k + 1 == |q| {
      assert q[..k + 1] == q;
    }
  }

  datatype Stats = Stats(sent: nat, dropped: nat)

  function Tally(stats: Stats, verdict: Verdict, rows: nat): Stats {
    if verdict == OK then stats.(sent := stats.sent + rows) else stats.(dropped := stats.dropped + rows)
  }

  /** The head of the listing is on disk and loads as the head of the queue. */
  lemma HeadLoads(files: Directory, n: nat)
    requires JournalBelow(files, n) && Listing(files) != []
    ensures var head := Listing(files)[0];
            head in files && files[head].Whole? && BatchIn(files, head) == Contents(files)[0]
  {
    SortedFacts(JsonNames(files));
    assert Listing(files)[0] in JsonNames(files);
  }

  function Next(q: seq<Batch>, k: nat): Option<Batch> {
    if k < |q| then Some(q[k]) else None
  }

  /** Where a drain stands: k batches of q settled, m rows of the next one through. */
  ghost predicate Stands(g: Gate, t: Table, q: seq<Batch>, k: nat, m: nat, files: Directory, n: nat, net: Net,
                         stats: Stats) {
    && k <= |q| && (k < |q| ==> m <= |q[k]|)
    && Contents(files) == q[k..] && JournalBelow(files, n)
    && net.table == Reaching(g, t, q, k, m)
    && AllFit(g, net, Next(q, k)) && Stormy(net.weather)
    && stats == Stats(RowCount(g, q[..k], true), RowCount(g, q[..k], false))
  }

  lemma AllCovered(g: Gate, net: Net, b: Batch, next: Option<Batch>)
    requires AllFit(g, net, Some(b)) && Covered(g, net.table, b)
    ensures AllFit(g, net, next)
  {
    forall r | r in net.requests ensures Fits(g, net.table, next, r) {
      assert Fits(g, net.table, Some(b), r);
    }
  }

  lemma RemoveDrains(g: Gate, t: Table, q: seq<Batch>, k: nat, files: Directory, n: nat, net: Net, stats: Stats,
                     verdict: Verdict)
    requires k < |q| && Stands(g, t, q, k, |q[k]|, files, n, net, stats) && Covered(g, net.table, q[k])
    requires (verdict == OK && Accepts(g, q[k])) || (verdict == PERMANENT && !Accepts(g, q[k]))
    ensures Listing(files) != []
    ensures Stands(g, t, q, k + 1, 0, files - {Listing(files)[0]}, n, net, Tally(stats, verdict, |q[k]|))
    ensures Listing(files - {Listing(files)[0]}) == Listing(files)[1..]
  {
    assert |Contents(files)| == |Listing(files)|;
    var files' := files - {Listing(files)[0]};
    assert Contents(files') == q[k + 1..] && JournalBelow(files', n) && Listing(files') == Listing(files)[1..] by {
      ListingRemove(files, 0);
      assert q[k..][1..] == q[k + 1..];
    }
    HeadSettled(g, t, q, k);
    AllCovered(g, net, q[k], Next(q, k + 1));
  }

  // Shutdown never comes.
  const NEVER: nat -> bool := _ => false

  lemma PostDrains(g: Gate, s: Settings, t: Table, q: seq<Batch>, k: nat, m: nat, files: Directory, n: nat, net: Net,
                   stats: Stats)
    returns (m': nat)
    requires Stands(g, t, q, k, m, files, n, net, stats) && Listing(files) != [] && s.maxAttempts >= 1
    ensures k < |q| && m' <= |q[k]|
    ensures var head := Listing(files)[0];
            head in files && files[head].Whole? && BatchIn(files, head) == q[k]
    ensures var o := Post(g, s, net, q[k], 1, s.backoffBase, NEVER);
            && Stands(g, t, q, k, m', files, n, o.net, stats)
            && |o.net.weather| <= |net.weather|
            && (o.verdict == TRANSIENT ==> |o.net.weather| < |net.weather|)
            && (o.verdict == OK ==> Accepts(g, q[k]) && m' == |q[k]|)
            && (o.verdict == PERMANENT ==> !Accepts(g, q[k]) && m' == |q[k]|)
            && (o.verdict != TRANSIENT ==> Covered(g, o.net.table, q[k]))
  {
    HeadLoads(files, n);
    assert |Contents(files)| == |Listing(files)|;
    m' := PostProgress(g, s, Delivered(g, t, q[..k]), net, q[k], m, 1, s.backoffBase, NEVER);
    if Post(g, s, net, q[k], 1, s.backoffBase, NEVER).verdict == PERMANENT {
      m' := |q[k]|;
    }
  }

  /** What one post_batch of the head leaves: weather used up, or the head settled and unlinked. */
  lemma SettleHead(g: Gate, s: Settings, t: Table, q: seq<Batch>, k: nat, m: nat, files: Directory, n: nat, net: Net,
                   stats: Stats)
    returns (m': nat)
    requires Stands(g, t, q, k, m, files, n, net, stats) && Listing(files) != [] && s.maxAttempts >= 1
    ensures var head := Listing(files)[0];
            head in files && files[head].Whole?
    ensures var head := Listing(files)[0];
            var b := BatchIn(files, head);
            var o := Post(g, s, net, b, 1, s.backoffBase, NEVER);
            && |o.net.weather| <= |net.weather|
            && (o.verdict == TRANSIENT ==>
                  Stands(g, t, q, k, m', files, n, o.net, stats) && |o.net.weather| < |net.weather|)
            && (o.verdict != TRANSIENT ==>
                  && Stands(g, t, q, k + 1, 0, files - {head}, n, o.net, Tally(stats, o.verdict, |b|))
                  && Listing(files - {head}) == Listing(files)[1..])
  {
    m' := PostDrains(g, s, t, q, k, m, files, n, net, stats);
    var o := Post(g, s, net, q[k], 1, s.backoffBase, NEVER);
    if o.verdict != TRANSIENT {
      RemoveDrains(g, t, q, k, files, n, o.net, stats, o.verdict);
    }
  }

  lemma DrainStarts(g: Gate, files: Directory, n: nat, net: Net)
    requires JournalBelow(files, n) && Stormy(net.weather) && AllFit(g, net, Next(Contents(files), 0))
    ensures Stands(g, net.table, Contents(files), 0, 0, files, n, net, Stats(0, 0))
  {
    var q := Contents(files);
    if q != [] {
      assert RowsOf(g, q[0])[..0] == [];
    }
  }

  lemma DrainEnds(g: Gate, t: Table, q: seq<Batch>, k: nat, m: nat, files: Directory, n: nat, net: Net, stats: Stats)
    requires Stands(g, t, q, k, m, files, n, net, stats) && Listing(files) == []
    ensures net.table == Delivered(g, t, q) && stats == Stats(RowCount(g, q, true), RowCount(g, q, false))
    ensures AllFit(g, net, None)
  {
    assert |Contents(files)| == 0;
    assert q[..k] == q;
  }

  /** Once the queue is empty, whatever the requests that went astray still commit changes nothing. */
  lemma {:induction false} LateCommitsAreSilent(g: Gate, net: Net, commits: seq<nat>)
    requires AllFit(g, net, None)
    ensures CommitAll(g, net, commits).table == net.table && AllFit(g, CommitAll(g, net, commits), None)
  {
    if commits != [] {
      var front, i := commits[..|commits| - 1], commits[|commits| - 1];
      LateCommitsAreSilent(g, net, front);
      var before := CommitAll(g, net, front);
      if i < |before.requests| && Accepts(g, before.requests[i].batch) {
        var r := before.requests[i];
        assert Fits(g, before.table, None, r);
        var from, to := ChunkEnd(|r.batch|, r.committed), ChunkEnd(|r.batch|, r.committed + 1);
        CoveredIsSilent(g, before.table, r.batch, from, to);
        OthersStillFit(g, before, i, Chunk(g, r.batch, r.committed), r.(committed := r.committed + 1), None);
      }
    }
  }
}
