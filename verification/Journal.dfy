/** The on-disk queue as values: directory contents, the file operations of enqueue, crashes and restarts. */
module Journal {
  import opened Options
  import opened FileNames
  import opened SortedNames
  import opened Ingest

  // A file's content; a write cut short leaves it torn.
  datatype Content = Whole(batch: Batch) | Torn

  type Directory = map<string, Content>

  // ---- listings

  function JsonNames(files: Directory): set<string> {
    set name | name in files && IsJson(name)
  }

  /** The pending batches' paths, oldest first. */
  ghost function Listing(files: Directory): seq<string> {
    Sorted(JsonNames(files))
  }

  function BatchIn(files: Directory, name: string): Batch {
    if name in files && files[name].Whole? then files[name].batch else []
  }

  /** The pending batches themselves, oldest first. */
  ghost function Contents(files: Directory): (q: seq<Batch>)
    ensures |q| == |Listing(files)|
  {
    seq(|Listing(files)|, i requires 0 <= i < |Listing(files)| => BatchIn(files, Listing(files)[i]))
  }

  ghost predicate NamedBelow(name: string, n: nat) {
    exists idx :: 0 <= idx < n && name == FileName(idx)
  }

  /** Every listed file is a whole batch, named for an index below n. */
  ghost predicate JournalBelow(files: Directory, n: nat) {
    forall name :: name in JsonNames(files) ==> files[name].Whole? && NamedBelow(name, n)
  }

  lemma NamesBelowSortFirst(names: set<string>, idx: nat)
    requires idx < INDEX_LIMIT && forall name :: name in names ==> NamedBelow(name, idx)
    ensures Sorted(names + {FileName(idx)}) == Sorted(names) + [FileName(idx)]
    ensures FileName(idx) !in names
  {
    forall name | name in names ensures LexLess(name, FileName(idx)) {
      var i :| 0 <= i < idx && name == FileName(i);
      NameOrder(i, idx);
    }
    LexTotal(FileName(idx), FileName(idx));
    SortedAppend(names, FileName(idx));
  }

  lemma JsonNamesAdd(files: Directory, name: string, content: Content)
    requires IsJson(name)
    ensures JsonNames(files[name := content]) == JsonNames(files) + {name}
  {
  }

  lemma ContentsAppend(files: Directory, files': Directory, name: string, batch: Batch)
    requires name in files' && files'[name] == Whole(batch)
    requires Listing(files') == Listing(files) + [name]
    requires forall x :: x in JsonNames(files) ==> x in files' && files'[x] == files[x]
    ensures Contents(files') == Contents(files) + [batch]
  {
    SortedFacts(JsonNames(files));
    var l := Listing(files);
    assert forall i :: 0 <= i < |l| ==> l[i] in JsonNames(files);
  }

  lemma NamedBelowMore(name: string, n: nat, m: nat)
    requires NamedBelow(name, n) && n <= m
    ensures NamedBelow(name, m)
  {
  }

  lemma ListingAppend(files: Directory, idx: nat, batch: Batch)
    requires JournalBelow(files, idx) && idx < INDEX_LIMIT
    ensures var files' := files[FileName(idx) := Whole(batch)];
            && JournalBelow(files', idx + 1)
            && Listing(files') == Listing(files) + [FileName(idx)]
            && Contents(files') == Contents(files) + [batch]
  {
    var name := FileName(idx);
    var files' := files[name := Whole(batch)];
    OnlyFinishedFilesListed(idx);
    JsonNamesAdd(files, name, Whole(batch));
    NamesBelowSortFirst(JsonNames(files), idx);
    ContentsAppend(files, files', name, batch);
    forall x | x in JsonNames(files') ensures files'[x].Whole? && NamedBelow(x, idx + 1) {
      if x != name {
        assert x in JsonNames(files);
        NamedBelowMore(x, idx, idx + 1);
      }
    }
  }

  lemma JsonNamesDrop(files: Directory, name: string)
    ensures JsonNames(files - {name}) == JsonNames(files) - {name}
  {
  }

  lemma ContentsRemove(files: Directory, k: nat)
    requires k < |Listing(files)|
    requires Listing(files - {Listing(files)[k]}) == Listing(files)[..k] + Listing(files)[k + 1..]
    ensures Contents(files - {Listing(files)[k]}) == Contents(files)[..k] + Contents(files)[k + 1..]
  {
    var l := Listing(files);
    var files' := files - {l[k]};
    SortedFacts(JsonNames(files));
    forall i | 0 <= i < |l| && i != k ensures BatchIn(files', l[i]) == BatchIn(files, l[i]) {
      AscendingDistinct(l, i, k);
    }
  }

  lemma ListingRemove(files: Directory, k: nat)
    requires k < |Listing(files)|
    ensures var files' := files - {Listing(files)[k]};
            && Listing(files') == Listing(files)[..k] + Listing(files)[k + 1..]
            && Contents(files') == Contents(files)[..k] + Contents(files)[k + 1..]
            && forall n :: JournalBelow(files, n) ==> JournalBelow(files', n)
  {
    JsonNamesDrop(files, Listing(files)[k]);
    SortedRemove(JsonNames(files), k);
    ContentsRemove(files, k);
  }

  lemma ListingUnchanged(files: Directory, files': Directory)
    requires JsonNames(files) == JsonNames(files')
    requires forall name :: name in JsonNames(files) ==> files[name] == files'[name]
    ensures Listing(files') == Listing(files) && Contents(files') == Contents(files)
    ensures forall n :: JournalBelow(files, n) ==> JournalBelow(files', n)
  {
    SortedFacts(JsonNames(files));
    assert forall i :: 0 <= i < |Listing(files)| ==> Listing(files)[i] in JsonNames(files);
    assert Contents(files') == Contents(files);
  }

  // ---- recovering the counter

  predicate ParsesBelow(name: string, n: nat) {
    ParseIndex(name).Some? ==> ParseIndex(name).value < n
  }

  /** One more than the highest index on disk, or 0. */
  ghost function NextIndex(names: set<string>): (n: nat)
    ensures forall name :: name in names ==> ParsesBelow(name, n)
    ensures n == 0 || exists name :: name in names && ParseIndex(name) == Some(n - 1)
  {
    if names == {} then 0
    else
      var name :| name in names;
      var rest := names - {name};
      assert names == rest + {name};
      var n := NextIndex(rest);
      match ParseIndex(name)
      case None => n
      case Some(idx) => if n <= idx then idx + 1 else n
  }

  lemma NextIndexUnique(names: set<string>, n: nat)
    requires forall name :: name in names ==> ParsesBelow(name, n)
    requires n == 0 || exists name :: name in names && ParseIndex(name) == Some(n - 1)
    ensures n == NextIndex(names)
  {
  }

  lemma NamedBelowParses(name: string, counter: nat, n: nat)
    requires NamedBelow(name, counter) && ParsesBelow(name, n)
    ensures NamedBelow(name, n)
    ensures ParseIndex(name).Some? && ParseIndex(name).value < counter
  {
    var idx :| 0 <= idx < counter && name == FileName(idx);
    ParseFileName(idx);
  }

  /** A restarted buffer numbers after everything on disk, and never ahead of where the last one stood. */
  lemma RecoveredCounter(files: Directory, counter: nat)
    requires JournalBelow(files, counter)
    ensures JournalBelow(files, NextIndex(JsonNames(files)))
    ensures NextIndex(JsonNames(files)) <= counter
  {
    var names := JsonNames(files);
    assert forall name :: name in names ==> NamedBelow(name, counter);
    NextIndexBounded(names, counter);
    NextIndexCovers(names, counter);
  }

  lemma NextIndexBounded(names: set<string>, counter: nat)
    requires forall name :: name in names ==> NamedBelow(name, counter)
    ensures NextIndex(names) <= counter
  {
    var n := NextIndex(names);
    if n > 0 {
      var name :| name in names && ParseIndex(name) == Some(n - 1);
      NamedBelowParses(name, counter, n);
    }
  }

  lemma NextIndexCovers(names: set<string>, counter: nat)
    requires forall name :: name in names ==> NamedBelow(name, counter)
    ensures forall name :: name in names ==> NamedBelow(name, NextIndex(names))
  {
    var n := NextIndex(names);
    forall name | name in names ensures NamedBelow(name, n) {
      NamedBelowParses(name, counter, n);
    }
  }

  // ---- enqueue as a list of file operations

  datatype Op = Unlink(name: string) | Write(name: string, batch: Batch) | Rename(from: string, to: string)

  function RunOp(files: Directory, op: Op): Directory {
    match op
    case Unlink(name) => files - {name}
    case Write(name, batch) => files[name := Whole(batch)]
    case Rename(from, to) => if from in files then (files - {from})[to := files[from]] else files
  }

  function RunOps(files: Directory, ops: seq<Op>): Directory {
    if ops == [] then files else RunOp(RunOps(files, ops[..|ops| - 1]), ops[|ops| - 1])
  }

  datatype Buffer = Buffer(files: Directory, counter: nat, maxBatches: int, dropped: nat)

  /** How many of n pending batches must go before one more fits. */
  function Excess(n: nat, maxBatches: int): nat {
    if maxBatches > 0 && n >= maxBatches then n - (maxBatches - 1) else 0
  }

  ghost function EnqueueOps(b: Buffer, batch: Batch): seq<Op> {
    var l := Listing(b.files);
    seq(Excess(|l|, b.maxBatches), i requires 0 <= i < Excess(|l|, b.maxBatches) => Unlink(l[i])) +
    [Write(TmpName(b.counter), batch), Rename(TmpName(b.counter), FileName(b.counter))]
  }

  ghost function Enqueued(b: Buffer, batch: Batch): Buffer {
    b.(files := RunOps(b.files, EnqueueOps(b, batch)),
       counter := b.counter + 1,
       dropped := b.dropped + Excess(|Listing(b.files)|, b.maxBatches))
  }

  ghost function Restarted(files: Directory, maxBatches: int): Buffer {
    Buffer(files, NextIndex(JsonNames(files)), maxBatches, 0)
  }

  /** The directory after a crash n operations into an enqueue; `torn` cuts the next write in half. */
  ghost function CrashedFiles(b: Buffer, batch: Batch, n: nat, torn: bool): Directory {
    var ops := EnqueueOps(b, batch);
    if n >= |ops| then RunOps(b.files, ops)
    else
      var files := RunOps(b.files, ops[..n]);
      if torn && ops[n].Write? then files[ops[n].name := Torn] else files
  }

  lemma RunOpsStep(files: Directory, ops: seq<Op>, k: nat)
    requires k < |ops|
    ensures RunOps(files, ops[..k + 1]) == RunOp(RunOps(files, ops[..k]), ops[k])
  {
    assert ops[..k + 1][..k] == ops[..k];
  }

  lemma {:induction false} EvictionsDropOldest(b: Buffer, batch: Batch, k: nat)
    requires k <= Excess(|Listing(b.files)|, b.maxBatches)
    ensures var files := RunOps(b.files, EnqueueOps(b, batch)[..k]);
            && k <= |Listing(b.files)|
            && Listing(files) == Listing(b.files)[k..]
            && Contents(files) == Contents(b.files)[k..]
            && forall n :: JournalBelow(b.files, n) ==> JournalBelow(files, n)
  {
    if k > 0 {
      EvictionsDropOldest(b, batch, k - 1);
      var before := RunOps(b.files, EnqueueOps(b, batch)[..k - 1]);
      RunOpsStep(b.files, EnqueueOps(b, batch), k - 1);
      assert EnqueueOps(b, batch)[k - 1] == Unlink(Listing(before)[0]);
      ListingRemove(before, 0);
    }
  }

  /** Hidden until renamed: the temporary file, whole or torn, is not listed. */
  lemma TmpNotListed(files: Directory, idx: nat, content: Content)
    ensures var files' := files[TmpName(idx) := content];
            && Listing(files') == Listing(files) && Contents(files') == Contents(files)
            && forall n :: JournalBelow(files, n) ==> JournalBelow(files', n)
  {
    OnlyFinishedFilesListed(idx);
    var files' := files[TmpName(idx) := content];
    assert JsonNames(files') == JsonNames(files);
    ListingUnchanged(files, files');
  }

  lemma RenamePublishes(files: Directory, idx: nat, batch: Batch)
    requires JournalBelow(files, idx) && idx < INDEX_LIMIT
    ensures var files' := RunOp(files[TmpName(idx) := Whole(batch)], Rename(TmpName(idx), FileName(idx)));
            && Listing(files') == Listing(files) + [FileName(idx)]
            && Contents(files') == Contents(files) + [batch]
            && JournalBelow(files', idx + 1)
  {
    OnlyFinishedFilesListed(idx);
    var written := files[TmpName(idx) := Whole(batch)];
    var moved := written - {TmpName(idx)};
    TmpNotListed(files, idx, Whole(batch));
    assert JsonNames(moved) == JsonNames(written);
    ListingUnchanged(written, moved);
    ListingAppend(moved, idx, batch);
  }

  /** Enqueue operation by operation: the evictions, the write, the rename. */
  lemma EnqueueSteps(b: Buffer, batch: Batch, k: nat)
    requires k == Excess(|Listing(b.files)|, b.maxBatches)
    ensures var ops := EnqueueOps(b, batch);
            var kept := RunOps(b.files, ops[..k]);
            var written := RunOp(kept, Write(TmpName(b.counter), batch));
            && |ops| == k + 2
            && RunOps(b.files, ops[..k + 1]) == written
            && RunOps(b.files, ops) == RunOp(written, Rename(TmpName(b.counter), FileName(b.counter)))
  {
    RunOpsStep(b.files, EnqueueOps(b, batch), k);
  }

  /** An enqueue publishes its batch in what its evictions keep. */
  lemma EnqueueKeeps(b: Buffer, batch: Batch) returns (kept: Directory)
    requires JournalBelow(b.files, b.counter)
    ensures var k := Excess(|Listing(b.files)|, b.maxBatches);
            && k <= |Listing(b.files)|
            && Listing(kept) == Listing(b.files)[k..] && Contents(kept) == Contents(b.files)[k..]
            && JournalBelow(kept, b.counter)
    ensures Enqueued(b, batch).files ==
            RunOp(kept[TmpName(b.counter) := Whole(batch)], Rename(TmpName(b.counter), FileName(b.counter)))
  {
    var k := Excess(|Listing(b.files)|, b.maxBatches);
    kept := RunOps(b.files, EnqueueOps(b, batch)[..k]);
    EvictionsDropOldest(b, batch, k);
    EnqueueSteps(b, batch, k);
  }

  /** Enqueue on the queue of batches: drop what does not fit from the front, append at the back. */
  lemma EnqueueIsFifo(b: Buffer, batch: Batch)
    requires JournalBelow(b.files, b.counter) && b.counter < INDEX_LIMIT
    ensures var q, k := Contents(b.files), Excess(|Contents(b.files)|, b.maxBatches);
            && k <= |q|
            && Contents(Enqueued(b, batch).files) == q[k..] + [batch]
            && Listing(Enqueued(b, batch).files) == Listing(b.files)[k..] + [FileName(b.counter)]
    ensures JournalBelow(Enqueued(b, batch).files, b.counter + 1)
    ensures b.maxBatches > 0 ==> |Contents(Enqueued(b, batch).files)| <= b.maxBatches
  {
    var kept := EnqueueKeeps(b, batch);
    RenamePublishes(kept, b.counter, batch);
  }

  lemma CrashAfterEvictions(b: Buffer, batch: Batch, k: nat, torn: bool)
    requires JournalBelow(b.files, b.counter) && k == Excess(|Listing(b.files)|, b.maxBatches)
    ensures k <= |Listing(b.files)|
    ensures Contents(CrashedFiles(b, batch, k, torn)) == Contents(b.files)[k..]
    ensures JournalBelow(CrashedFiles(b, batch, k, torn), b.counter)
  {
    EvictionsDropOldest(b, batch, k);
    TmpNotListed(RunOps(b.files, EnqueueOps(b, batch)[..k]), b.counter, Torn);
  }

  lemma CrashBeforeRename(b: Buffer, batch: Batch, k: nat, torn: bool)
    requires JournalBelow(b.files, b.counter) && k == Excess(|Listing(b.files)|, b.maxBatches)
    ensures k <= |Listing(b.files)|
    ensures Contents(CrashedFiles(b, batch, k + 1, torn)) == Contents(b.files)[k..]
    ensures JournalBelow(CrashedFiles(b, batch, k + 1, torn), b.counter)
  {
    EvictionsDropOldest(b, batch, k);
    EnqueueSteps(b, batch, k);
    TmpNotListed(RunOps(b.files, EnqueueOps(b, batch)[..k]), b.counter, Whole(batch));
  }

  lemma JournalBelowMore(files: Directory, n: nat)
    requires JournalBelow(files, n)
    ensures JournalBelow(files, n + 1)
  {
    forall name | name in JsonNames(files) ensures NamedBelow(name, n + 1) {
      NamedBelowMore(name, n, n + 1);
    }
  }

  lemma CrashWhileEvicting(b: Buffer, batch: Batch, n: nat, torn: bool)
    requires JournalBelow(b.files, b.counter) && n < Excess(|Listing(b.files)|, b.maxBatches)
    ensures n <= |Listing(b.files)|
    ensures Contents(CrashedFiles(b, batch, n, torn)) == Contents(b.files)[n..]
    ensures JournalBelow(CrashedFiles(b, batch, n, torn), b.counter)
  {
    assert EnqueueOps(b, batch)[n].Unlink?;
    EvictionsDropOldest(b, batch, n);
  }

  /**
   * A crash inside enqueue leaves whole batches only: some oldest ones gone, and the new one all there or not at all.
   */
  lemma CrashIsClean(b: Buffer, batch: Batch, n: nat, torn: bool)
    requires JournalBelow(b.files, b.counter) && b.counter < INDEX_LIMIT
    ensures var q, k := Contents(b.files), Excess(|Contents(b.files)|, b.maxBatches);
            var files := CrashedFiles(b, batch, n, torn);
            && k <= |q|
            && Contents(files) == (if n < k then q[n..] else if n < k + 2 then q[k..] else q[k..] + [batch])
            && JournalBelow(files, b.counter + 1)
  {
    var k := Excess(|Listing(b.files)|, b.maxBatches);
    var files := CrashedFiles(b, batch, n, torn);
    if n < k {
      CrashWhileEvicting(b, batch, n, torn);
      JournalBelowMore(files, b.counter);
    } else if n == k {
      CrashAfterEvictions(b, batch, k, torn);
      JournalBelowMore(files, b.counter);
    } else if n == k + 1 {
      CrashBeforeRename(b, batch, k, torn);
      JournalBelowMore(files, b.counter);
    } else {
      assert files == Enqueued(b, batch).files;
      EnqueueIsFifo(b, batch);
    }
  }
}
