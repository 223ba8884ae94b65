/** The durable queue object, and what any sequence of enqueues, removals, crashes and restarts keeps. */
module DiskBuffer {
  import opened Options
  import opened FileNames
  import opened SortedNames
  import opened Ingest
  import opened Journal

  class DiskBuffer {
    var files: Directory
    var counter: nat
    const maxBatches: int
    var dropped: nat

    ghost function Snapshot(): Buffer
      reads this
    {
      Buffer(files, counter, maxBatches, dropped)
    }

    constructor (directory: Directory, maxBatches: int := 0)
      ensures Snapshot() == Restarted(directory, maxBatches)
    {
      files, this.maxBatches, dropped := directory, maxBatches, 0;
      var maxIdx: int := -1;
      var left := JsonNames(directory);
      while left != {}
        invariant left <= JsonNames(directory) && maxIdx >= -1
        invariant forall name :: name in JsonNames(directory) && name !in left ==> ParsesBelow(name, maxIdx + 1)
        invariant maxIdx >= 0 ==> exists name :: name in JsonNames(directory) && ParseIndex(name) == Some(maxIdx)
        decreases left
      {
        var name :| name in left;
        left := left - {name};
        match ParseIndex(name)
        case None =>
        case Some(idx) =>
          if idx > maxIdx {
            maxIdx := idx;
          }
      }
      counter := maxIdx + 1;
      NextIndexUnique(JsonNames(directory), maxIdx + 1);
    }

    method Pending() returns (names: seq<string>)
      ensures names == Listing(files)
    {
      names := [];
      var left := JsonNames(files);
      while left != {}
        invariant Listing(files) == names + Sorted(left)
        decreases left
      {
        LeastExists(left);
        var m :| IsLeast(m, left);
        LeastUnique(m, Sorted(left)[0], left);
        names, left := names + [m], left - {m};
      }
    }

    method Count() returns (n: nat)
      ensures n == |Contents(files)|
    {
      SortedFacts(JsonNames(files));
      n := |JsonNames(files)|;
    }

    /** A missing or torn file is an error in the source; here it is None. */
    method Load(path: string) returns (batch: Option<Batch>)
      ensures batch.Some? <==> path in files && files[path].Whole?
      ensures batch.Some? ==> batch.value == BatchIn(files, path)
    {
      if path in files && files[path].Whole? {
        return Some(files[path].batch);
      }
      return None;
    }

    method Remove(path: string)
      modifies this`files
      ensures files == old(files) - {path}
    {
      files := files - {path};
    }

    method WriteText(path: string, batch: Batch)
      modifies this`files
      ensures files == RunOp(old(files), Write(path, batch))
    {
      files := files[path := Whole(batch)];
    }

    /** os.replace: the new name takes over the old one's content. */
    method Replace(from: string, to: string)
      modifies this`files
      ensures files == RunOp(old(files), Rename(from, to))
    {
      if from in files {
        files := (files - {from})[to := files[from]];
      }
    }

    method Enqueue(batch: Batch) returns (path: string)
      modifies this
      ensures Snapshot() == Enqueued(old(Snapshot()), batch)
      ensures path == FileName(old(counter))
    {
      ghost var b := Snapshot();
      if maxBatches > 0 {
        MakeRoom(batch);
      }
      EnqueueSteps(b, batch, Excess(|Listing(b.files)|, maxBatches));
      var idx := counter;
      counter := counter + 1;
      WriteText(TmpName(idx), batch);
      Replace(TmpName(idx), FileName(idx));
      return FileName(idx);
    }

    /** The eviction loop of enqueue: drop the oldest until one more batch fits. */
    method MakeRoom(ghost batch: Batch)
      requires maxBatches > 0
      modifies this`files, this`dropped
      ensures var b := old(Snapshot());
              var k := Excess(|Listing(b.files)|, maxBatches);
              files == RunOps(b.files, EnqueueOps(b, batch)[..k]) && dropped == b.dropped + k
    {
      ghost var b := Snapshot();
      ghost var l, ops := Listing(files), EnqueueOps(b, batch);
      ghost var k := 0;
      var pending := Pending();
      while |pending| >= maxBatches
        invariant k <= Excess(|l|, maxBatches) <= |l| && pending == l[k..]
        invariant files == RunOps(b.files, ops[..k]) && dropped == b.dropped + k
      {
        RunOpsStep(b.files, ops, k);
        assert ops[k] == Unlink(l[k]);
        Remove(pending[0]);
        pending := pending[1..];
        dropped := dropped + 1;
        k := k + 1;
      }
    }
  }

  // ---- any history of one directory

  // Crash(batch, n, torn, bound): the process dies n file operations into enqueue(batch) and is restarted.
  datatype Move =
    | Add(batch: Batch)
    | Take(position: nat)
    | Crash(batch: Batch, n: nat, torn: bool, bound: int)
    | Restart(bound: int)

  ghost function Do(b: Buffer, move: Move): Buffer {
    match move
    case Add(batch) => Enqueued(b, batch)
    case Take(p) => if p < |Listing(b.files)| then b.(files := b.files - {Listing(b.files)[p]}) else b
    case Crash(batch, n, torn, bound) => Restarted(CrashedFiles(b, batch, n, torn), bound)
    case Restart(bound) => Restarted(b.files, bound)
  }

  ghost function After(moves: seq<Move>, bound: int): Buffer {
    if moves == [] then Restarted(map[], bound)
    else Do(After(moves[..|moves| - 1], bound), moves[|moves| - 1])
  }

  // The queue it should be. Batches are known by their place in `log`, the list of all batches ever
  // journaled; `queue` holds the places still queued, `taken` those removed by the consumer, and the
  // evicted ones are the places below `cutoff` that were not taken. `start`, `added` and `removed` count
  // from the last restart.
  datatype Fifo = Fifo(log: seq<Batch>, queue: seq<nat>, taken: set<nat>, cutoff: nat, bound: int,
                       start: nat, added: nat, removed: nat)

  /** Forget the k oldest. */
  function Evict(f: Fifo, k: nat): Fifo
    requires k <= |f.queue|
  {
    f.(queue := f.queue[k..],
       cutoff := if k == 0 then f.cutoff else f.queue[k - 1] + 1)
  }

  function Append(f: Fifo, batch: Batch): Fifo {
    f.(log := f.log + [batch], queue := f.queue + [|f.log|])
  }

  function Reopen(f: Fifo, bound: int): Fifo {
    f.(bound := bound, start := |f.queue|, added := 0, removed := 0)
  }

  function Room(f: Fifo): (k: nat)
    ensures k <= |f.queue|
  {
    Excess(|f.queue|, f.bound)
  }

  /** A crash after n operations: up to n evictions, and the batch is journaled once both its operations ran. */
  function Crashed(f: Fifo, batch: Batch, n: nat): Fifo {
    var evicted := Evict(f, if n < Room(f) then n else Room(f));
    if n < Room(f) + 2 then evicted else Append(evicted, batch)
  }

  function DoFifo(f: Fifo, move: Move): Fifo {
    match move
    case Add(batch) => Append(Evict(f, Room(f)), batch).(added := f.added + 1)
    case Take(p) =>
      if p < |f.queue| then
        f.(queue := f.queue[..p] + f.queue[p + 1..], taken := f.taken + {f.queue[p]}, removed := f.removed + 1)
      else f
    case Crash(batch, n, _, bound) => Reopen(Crashed(f, batch, n), bound)
    case Restart(bound) => Reopen(f, bound)
  }

  function AfterFifo(moves: seq<Move>, bound: int): Fifo {
    if moves == [] then Fifo([], [], {}, 0, bound, 0, 0, 0)
    else DoFifo(AfterFifo(moves[..|moves| - 1], bound), moves[|moves| - 1])
  }

  /** The survivors are, in enqueue order, exactly the untaken batches from the cutoff on. */
  ghost predicate NewestSuffix(f: Fifo) {
    && (forall i, j :: 0 <= i < j < |f.queue| ==> f.queue[i] < f.queue[j])
    && (forall id :: id in f.queue <==> f.cutoff <= id < |f.log| && id !in f.taken)
  }

  function Queued(f: Fifo): seq<Batch>
    requires forall i :: 0 <= i < |f.queue| ==> f.queue[i] < |f.log|
  {
    seq(|f.queue|, i requires 0 <= i < |f.queue| => f.log[f.queue[i]])
  }

  ghost predicate WellFormed(f: Fifo) {
    && NewestSuffix(f)
    && (forall i :: 0 <= i < |f.queue| ==> f.queue[i] < |f.log|)
    && (forall id :: id in f.taken ==> id < |f.log|)
    && f.cutoff <= |f.log|
  }

  /** The buffer holds the queue, in order; and what came in is still there, was taken, or was counted as dropped. */
  ghost predicate Refines(b: Buffer, f: Fifo) {
    && WellFormed(f)
    && JournalBelow(b.files, b.counter)
    && Contents(b.files) == Queued(f)
    && b.maxBatches == f.bound
    && f.start + f.added == |f.queue| + f.removed + b.dropped
  }

  lemma EvictKeepsSuffix(f: Fifo, k: nat)
    requires WellFormed(f) && k <= |f.queue|
    ensures WellFormed(Evict(f, k)) && Queued(Evict(f, k)) == Queued(f)[k..]
  {
    if k > 0 {
      var f' := Evict(f, k);
      assert f.queue[k - 1] in f.queue;
      forall id ensures id in f'.queue <==> f'.cutoff <= id < |f.log| && id !in f.taken {
        if id in f.queue {
          var i :| 0 <= i < |f.queue| && f.queue[i] == id;
          assert i >= k ==> f'.queue[i - k] == id;
          assert i < k ==> id <= f.queue[k - 1];
        }
      }
    }
  }

  lemma AppendKeepsSuffix(f: Fifo, batch: Batch)
    requires WellFormed(f)
    ensures WellFormed(Append(f, batch)) && Queued(Append(f, batch)) == Queued(f) + [batch]
  {
  }

  lemma DropOne(q: seq<nat>, p: nat, id: nat)
    requires p < |q| && forall i, j :: 0 <= i < j < |q| ==> q[i] < q[j]
    ensures id in q[..p] + q[p + 1..] <==> id in q && id != q[p]
  {
    assert q == q[..p] + [q[p]] + q[p + 1..];
    assert q[p] !in q[..p] && q[p] !in q[p + 1..];
  }

  lemma TakeKeepsSuffix(f: Fifo, p: nat)
    requires WellFormed(f) && p < |f.queue|
    ensures var f' := DoFifo(f, Take(p));
            WellFormed(f') && Queued(f') == Queued(f)[..p] + Queued(f)[p + 1..]
  {
    var f' := DoFifo(f, Take(p));
    assert f.queue[p] in f.queue;
    forall id ensures id in f'.queue <==> f'.cutoff <= id < |f.log| && id !in f'.taken {
      if id >= 0 {
        DropOne(f.queue, p, id);
      }
    }
  }

  lemma AddRefines(b: Buffer, f: Fifo, batch: Batch)
    requires Refines(b, f) && b.counter < INDEX_LIMIT
    ensures Refines(Do(b, Add(batch)), DoFifo(f, Add(batch)))
  {
    var k := Room(f);
    assert |Contents(b.files)| == |Listing(b.files)| == |f.queue|;
    EnqueueIsFifo(b, batch);
    EvictKeepsSuffix(f, k);
    AppendKeepsSuffix(Evict(f, k), batch);
  }

  lemma ReopenRefines(files: Directory, counter: nat, f: Fifo, bound: int)
    requires WellFormed(f) && JournalBelow(files, counter) && Contents(files) == Queued(f)
    ensures Refines(Restarted(files, bound), Reopen(f, bound)) && Restarted(files, bound).counter <= counter
  {
    RecoveredCounter(files, counter);
    assert Queued(Reopen(f, bound)) == Queued(f);
  }

  lemma CrashKeepsSuffix(f: Fifo, batch: Batch, n: nat)
    requires WellFormed(f)
    ensures WellFormed(Crashed(f, batch, n))
    ensures var k := Room(f);
            Queued(Crashed(f, batch, n)) ==
            if n < k then Queued(f)[n..] else if n < k + 2 then Queued(f)[k..] else Queued(f)[k..] + [batch]
  {
    var k := if n < Room(f) then n else Room(f);
    EvictKeepsSuffix(f, k);
    AppendKeepsSuffix(Evict(f, k), batch);
  }

  lemma CrashRefines(b: Buffer, f: Fifo, batch: Batch, n: nat, torn: bool, bound: int)
    requires Refines(b, f) && b.counter < INDEX_LIMIT
    ensures Refines(Do(b, Crash(batch, n, torn, bound)), DoFifo(f, Crash(batch, n, torn, bound)))
    ensures Do(b, Crash(batch, n, torn, bound)).counter <= b.counter + 1
  {
    var files := CrashedFiles(b, batch, n, torn);
    assert JournalBelow(files, b.counter + 1) && Contents(files) == Queued(Crashed(f, batch, n)) by {
      assert |Contents(b.files)| == |f.queue|;
      CrashIsClean(b, batch, n, torn);
      CrashKeepsSuffix(f, batch, n);
    }
    CrashKeepsSuffix(f, batch, n);
    ReopenRefines(files, b.counter + 1, Crashed(f, batch, n), bound);
  }

  lemma MoveRefines(b: Buffer, f: Fifo, move: Move)
    requires Refines(b, f) && b.counter < INDEX_LIMIT
    ensures Refines(Do(b, move), DoFifo(f, move)) && Do(b, move).counter <= b.counter + 1
  {
    match move
    case Add(batch) => AddRefines(b, f, batch);
    case Crash(batch, n, torn, bound) => CrashRefines(b, f, batch, n, torn, bound);
    case Restart(bound) => ReopenRefines(b.files, b.counter, f, bound);
    case Take(p) =>
      assert |Listing(b.files)| == |Contents(b.files)| == |f.queue|;
      if p < |f.queue| {
        ListingRemove(b.files, p);
        TakeKeepsSuffix(f, p);
      }
  }

  /**
   * Over any history of fewer than 10^12 moves the buffer is the FIFO, and its counter stays within the names' order.
   */
  lemma {:induction false} HistoryRefinesFifo(moves: seq<Move>, bound: int)
    requires |moves| <= INDEX_LIMIT
    ensures Refines(After(moves, bound), AfterFifo(moves, bound))
    ensures After(moves, bound).counter <= |moves|
  {
    if moves == [] {
      var b := After(moves, bound);
      assert JsonNames(b.files) == {};
    } else {
      var front := moves[..|moves| - 1];
      HistoryRefinesFifo(front, bound);
      MoveRefines(After(front, bound), AfterFifo(front, bound), moves[|moves| - 1]);
    }
  }

  /** Backpressure: an enqueue under a bound leaves at most that many batches, the newest ones. */
  lemma BoundKept(moves: seq<Move>, bound: int, batch: Batch)
    requires |moves| < INDEX_LIMIT
    ensures var b := After(moves + [Add(batch)], bound);
            && (b.maxBatches > 0 ==> |Contents(b.files)| <= b.maxBatches)
            && Contents(b.files) != [] && Contents(b.files)[|Contents(b.files)| - 1] == batch
  {
    assert (moves + [Add(batch)])[..|moves|] == moves;
    HistoryRefinesFifo(moves, bound);
    var before := After(moves, bound);
    assert JournalBelow(before.files, before.counter) && before.counter < INDEX_LIMIT;
    assert After(moves + [Add(batch)], bound) == Enqueued(before, batch);
    EnqueueIsFifo(before, batch);
  }
}
