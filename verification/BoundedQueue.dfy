/**
 * Acquisition and the sender as two threads over one queue with a bound. Enqueue evicts under its own listing, so it
 * may take away a path that the sender has listed and not loaded yet; load then raises, and the sender thread is gone.
 */
module BoundedQueue {
  import opened FileNames
  import opened SortedNames
  import opened Ingest
  import opened Journal

  // Where acquisition stands in an enqueue; `victims` are the listed paths it has still to evict.
  datatype Acquisition =
    | Resting
    | Evicting(batch: Batch, victims: seq<string>)
    | Writing(batch: Batch)
    | Renaming

  // The sender thread; `paths` is what is left of its listing, and Dead is the end of an uncaught exception.
  datatype Thread = Idle | Sweeping(paths: seq<string>) | Posting(paths: seq<string>) | Dead

  datatype State = State(files: Directory, counter: nat, acquisition: Acquisition, sender: Thread, dropped: nat)

  datatype Step =
    | StartEnqueue(batch: Batch)  // acquisition lists what there is too much of
    | EvictOldest                 // and removes one of it
    | TakeIndex                   // then numbers the batch and starts on its temporary file
    | FinishWrite
    | Publish
    | ListPending                 // the sender lists the queue
    | LoadNext                    // and loads the next path of its listing, or ends its sweep
    | Settle                      // a batch that was delivered or refused is removed
    | GiveUp                      // one that was neither ends the sweep
    | CrashRestart

  /** One step; a step that is not enabled does nothing. */
  ghost function Do(bound: int, s: State, step: Step): State {
    match step
    case StartEnqueue(b) =>
      if s.acquisition != Resting || b == [] then s
      else
        var pending := Listing(s.files);
        s.(acquisition := Evicting(b, pending[..Excess(|pending|, bound)]))
    case EvictOldest =>
      if !s.acquisition.Evicting? || s.acquisition.victims == [] then s
      else s.(files := s.files - {s.acquisition.victims[0]}, dropped := s.dropped + 1,
              acquisition := Evicting(s.acquisition.batch, s.acquisition.victims[1..]))
    case TakeIndex =>
      if !s.acquisition.Evicting? || s.acquisition.victims != [] then s
      else s.(counter := s.counter + 1, files := s.files[TmpName(s.counter) := Torn],
              acquisition := Writing(s.acquisition.batch))
    case FinishWrite =>
      if !s.acquisition.Writing? || s.counter == 0 then s
      else s.(files := s.files[TmpName(s.counter - 1) := Whole(s.acquisition.batch)], acquisition := Renaming)
    case Publish =>
      if !s.acquisition.Renaming? || s.counter == 0 then s
      else s.(files := RunOp(s.files, Rename(TmpName(s.counter - 1), FileName(s.counter - 1))), acquisition := Resting)
    case ListPending =>
      if !s.sender.Idle? then s else s.(sender := Sweeping(Listing(s.files)))
    case LoadNext =>
      if !s.sender.Sweeping? then s
      else if s.sender.paths == [] then s.(sender := Idle)
      else s.(sender := if Loads(s.files, s.sender.paths[0]) then Posting(s.sender.paths) else Dead)
    case Settle =>
      if !s.sender.Posting? || s.sender.paths == [] then s
      else s.(files := s.files - {s.sender.paths[0]}, sender := Sweeping(s.sender.paths[1..]))
    case GiveUp =>
      if !s.sender.Posting? then s else s.(sender := Idle)
    case CrashRestart =>
      State(s.files, NextIndex(JsonNames(s.files)), Resting, Idle, 0)
  }

  predicate Loads(files: Directory, path: string) {
    path in files && files[path].Whole?
  }

  ghost function After(bound: int, steps: seq<Step>): State {
    if steps == [] then State(map[], 0, Resting, Idle, 0)
    else Do(bound, After(bound, steps[..|steps| - 1]), steps[|steps| - 1])
  }

  /** The sender never dies of a path that is not there. */
  ghost predicate SenderLives(bound: int) {
    forall steps: seq<Step> :: After(bound, steps).sender != Dead
  }

  /** The sender's next path always loads. */
  ghost predicate NextLoads(bound: int) {
    forall steps: seq<Step> ::
      var s := After(bound, steps);
      s.sender.Sweeping? && s.sender.paths != [] ==> Loads(s.files, s.sender.paths[0])
  }

  // ---- without a bound

  ghost predicate AllWhole(files: Directory) {
    forall name :: name in JsonNames(files) ==> files[name].Whole?
  }

  /** Listed paths, each of which is still there. */
  ghost predicate SweepOk(files: Directory, paths: seq<string>) {
    Ascending(paths) && forall p :: p in paths ==> p in JsonNames(files)
  }

  ghost predicate SenderOk(files: Directory, t: Thread) {
    match t
    case Idle => true
    case Sweeping(paths) => SweepOk(files, paths)
    case Posting(paths) => SweepOk(files, paths)
    case Dead => false
  }

  /** A file about to be renamed is whole, and nothing is ever evicted. */
  ghost predicate AcquisitionOk(files: Directory, counter: nat, a: Acquisition) {
    match a
    case Evicting(_, victims) => victims == []
    case Renaming => counter > 0 && Loads(files, TmpName(counter - 1))
    case _ => true
  }

  ghost predicate Inv(s: State) {
    AllWhole(s.files) && SenderOk(s.files, s.sender) && AcquisitionOk(s.files, s.counter, s.acquisition)
  }

  lemma SweepsOn(files: Directory, paths: seq<string>)
    requires SweepOk(files, paths) && paths != []
    ensures Loads(files, paths[0]) || !AllWhole(files)
    ensures SweepOk(files - {paths[0]}, paths[1..])
  {
    assert paths[0] in JsonNames(files);
    forall p | p in paths[1..] ensures p in JsonNames(files - {paths[0]}) {
      var k :| 0 <= k < |paths[1..]| && paths[1..][k] == p;
      AscendingDistinct(paths, 0, k + 1);
      assert p in paths;
    }
  }

  lemma TmpKeeps(files: Directory, idx: nat, content: Content)
    ensures JsonNames(files[TmpName(idx) := content]) == JsonNames(files)
    ensures JsonNames(files - {TmpName(idx)}) == JsonNames(files)
  {
    OnlyFinishedFilesListed(idx);
  }

  /** Writing a temporary file disturbs nothing that is listed. */
  lemma WritingKeeps(files: Directory, idx: nat, content: Content, t: Thread)
    requires AllWhole(files) && SenderOk(files, t)
    ensures AllWhole(files[TmpName(idx) := content]) && SenderOk(files[TmpName(idx) := content], t)
  {
    TmpKeeps(files, idx, content);
    OnlyFinishedFilesListed(idx);
  }

  lemma PublishNames(files: Directory, idx: nat)
    requires TmpName(idx) in files
    ensures var after := RunOp(files, Rename(TmpName(idx), FileName(idx)));
            && JsonNames(after) == JsonNames(files) + {FileName(idx)}
            && after[FileName(idx)] == files[TmpName(idx)]
            && forall name :: name in JsonNames(files) && name != FileName(idx) ==> after[name] == files[name]
  {
    OnlyFinishedFilesListed(idx);
  }

  lemma WriteMovesKeep(bound: int, s: State, step: Step)
    requires Inv(s) && (step.TakeIndex? || step.FinishWrite?)
    ensures Inv(Do(bound, s, step))
  {
    if step.TakeIndex? {
      WritingKeeps(s.files, s.counter, Torn, s.sender);
    } else if s.acquisition.Writing? && s.counter > 0 {
      WritingKeeps(s.files, s.counter - 1, Whole(s.acquisition.batch), s.sender);
    }
  }

  lemma PublishKeeps(bound: int, s: State)
    requires Inv(s)
    ensures Inv(Do(bound, s, Publish))
  {
    if s.acquisition.Renaming? {
      PublishNames(s.files, s.counter - 1);
    }
  }

  lemma SettleKeeps(bound: int, s: State)
    requires Inv(s)
    ensures Inv(Do(bound, s, Settle))
  {
    if s.sender.Posting? && s.sender.paths != [] {
      SweepsOn(s.files, s.sender.paths);
      assert s.sender.paths[0] in JsonNames(s.files);
      if s.acquisition.Renaming? {
        OnlyFinishedFilesListed(s.counter - 1);
      }
    }
  }

  lemma SenderMovesKeep(bound: int, s: State, step: Step)
    requires Inv(s) && (step.ListPending? || step.LoadNext? || step.GiveUp? || step.CrashRestart?)
    ensures Inv(Do(bound, s, step))
  {
    SortedFacts(JsonNames(s.files));
    if s.sender.Sweeping? && s.sender.paths != [] {
      SweepsOn(s.files, s.sender.paths);
    }
  }

  lemma DoKeeps(bound: int, s: State, step: Step)
    requires bound <= 0 && Inv(s)
    ensures Inv(Do(bound, s, step))
  {
    match step
    case Settle => SettleKeeps(bound, s);
    case ListPending => SenderMovesKeep(bound, s, step);
    case LoadNext => SenderMovesKeep(bound, s, step);
    case GiveUp => SenderMovesKeep(bound, s, step);
    case CrashRestart => SenderMovesKeep(bound, s, step);
    case TakeIndex => WriteMovesKeep(bound, s, step);
    case FinishWrite => WriteMovesKeep(bound, s, step);
    case Publish => PublishKeeps(bound, s);
    case _ =>
  }

  lemma {:induction false} EveryScheduleKeeps(bound: int, steps: seq<Step>)
    requires bound <= 0
    ensures Inv(After(bound, steps))
  {
    if steps != [] {
      EveryScheduleKeeps(bound, steps[..|steps| - 1]);
      DoKeeps(bound, After(bound, steps[..|steps| - 1]), steps[|steps| - 1]);
    }
  }

  // ---- with one

  const READINGS: Batch := [Sample("", "STM", 0, Finite(4.2))]

  function Enqueue(): seq<Step> {
    [StartEnqueue(READINGS), TakeIndex, FinishWrite, Publish]
  }

  /** Enough enqueues to fill a queue of n. */
  function Fill(n: nat): seq<Step> {
    if n == 0 then [] else Fill(n - 1) + Enqueue()
  }

  /** Both threads at rest over n batches. */
  ghost predicate Filled(s: State, n: nat) {
    && s.acquisition == Resting && s.sender == Idle && s.counter == n
    && |JsonNames(s.files)| == n && forall name :: name in JsonNames(s.files) ==> NamedBelow(name, n)
  }

  lemma Extend(bound: int, steps: seq<Step>, step: Step)
    ensures After(bound, steps + [step]) == Do(bound, After(bound, steps), step)
  {
    assert (steps + [step])[..|steps|] == steps;
  }

  lemma NewName(files: Directory, n: nat)
    requires forall name :: name in JsonNames(files) ==> NamedBelow(name, n)
    ensures FileName(n) !in JsonNames(files)
  {
    if FileName(n) in JsonNames(files) {
      var i :| 0 <= i < n && FileName(n) == FileName(i);
      ParseFileName(n);
      ParseFileName(i);
    }
  }

  lemma RoomStarts(bound: int, s: State, n: nat)
    requires n < bound && Filled(s, n)
    ensures Do(bound, s, StartEnqueue(READINGS)) == s.(acquisition := Evicting(READINGS, []))
  {
    SortedFacts(JsonNames(s.files));
  }

  lemma NextFilled(s: State, after: State, n: nat)
    requires Filled(s, n) && after.acquisition == Resting && after.sender == Idle && after.counter == n + 1
    requires JsonNames(after.files) == JsonNames(s.files) + {FileName(n)}
    ensures Filled(after, n + 1)
  {
    NewName(s.files, n);
    forall name | name in JsonNames(after.files) ensures NamedBelow(name, n + 1) {
      if name in JsonNames(s.files) {
        NamedBelowMore(name, n, n + 1);
      }
    }
  }

  function Started(files: Directory, n: nat): Directory {
    files[TmpName(n) := Torn]
  }

  function Finished(files: Directory, n: nat): Directory {
    Started(files, n)[TmpName(n) := Whole(READINGS)]
  }

  function Published(files: Directory, n: nat): Directory {
    RunOp(Finished(files, n), Rename(TmpName(n), FileName(n)))
  }

  lemma PublishedNames(files: Directory, n: nat)
    ensures JsonNames(Published(files, n)) == JsonNames(files) + {FileName(n)}
  {
    TmpKeeps(files, n, Torn);
    TmpKeeps(Started(files, n), n, Whole(READINGS));
    PublishNames(Finished(files, n), n);
  }

  lemma WriteRuns(bound: int, s: State, n: nat)
    requires s.counter == n && s.acquisition == Evicting(READINGS, [])
    ensures var a := Do(bound, s, TakeIndex);
            a == s.(counter := n + 1, files := Started(s.files, n), acquisition := Writing(READINGS))
            && Do(bound, a, FinishWrite) == a.(files := Finished(s.files, n), acquisition := Renaming)
  {
  }

  /** The four steps of an enqueue that finds room: it evicts nothing and adds one file. */
  lemma EnqueueFills(bound: int, s: State, n: nat)
    requires n < bound && Filled(s, n)
    ensures var a := Do(bound, s, StartEnqueue(READINGS));
            var b := Do(bound, a, TakeIndex);
            var c := Do(bound, b, FinishWrite);
            Filled(Do(bound, c, Publish), n + 1)
  {
    RoomStarts(bound, s, n);
    WriteRuns(bound, s.(acquisition := Evicting(READINGS, [])), n);
    var c := s.(counter := n + 1, files := Finished(s.files, n), acquisition := Renaming);
    assert Do(bound, c, Publish) == c.(files := Published(s.files, n), acquisition := Resting);
    PublishedNames(s.files, n);
    NextFilled(s, c.(files := Published(s.files, n), acquisition := Resting), n);
  }

  lemma ExtendByEnqueue(bound: int, steps: seq<Step>)
    ensures After(bound, steps + Enqueue()) ==
            var a := Do(bound, After(bound, steps), StartEnqueue(READINGS));
            var b := Do(bound, a, TakeIndex);
            var c := Do(bound, b, FinishWrite);
            Do(bound, c, Publish)
  {
    var steps1 := steps + [StartEnqueue(READINGS)];
    var steps2 := steps1 + [TakeIndex];
    var steps3 := steps2 + [FinishWrite];
    assert steps + Enqueue() == steps3 + [Publish];
    Extend(bound, steps, StartEnqueue(READINGS));
    Extend(bound, steps1, TakeIndex);
    Extend(bound, steps2, FinishWrite);
    Extend(bound, steps3, Publish);
  }

  lemma {:induction false} FillFills(bound: int, n: nat)
    requires n <= bound
    ensures Filled(After(bound, Fill(n)), n)
  {
    if n == 0 {
      assert JsonNames(After(bound, []).files) == {};
    } else {
      FillFills(bound, n - 1);
      EnqueueFills(bound, After(bound, Fill(n - 1)), n - 1);
      ExtendByEnqueue(bound, Fill(n - 1));
    }
  }

  /** The sender has just listed a full queue and another enqueue has evicted its first path. */
  function Overtaken(bound: int): seq<Step>
    requires bound > 0
  {
    Fill(bound) + [ListPending, StartEnqueue(READINGS), EvictOldest]
  }

  /** What the three steps after a full queue leave: the sender's first path is gone, and loading it is its end. */
  lemma FullIsEvicted(bound: int, full: State)
    requires bound > 0 && full.acquisition == Resting && full.sender == Idle && |Listing(full.files)| == bound
    ensures var l := Listing(full.files);
            var listed := Do(bound, full, ListPending);
            var evicting := Do(bound, listed, StartEnqueue(READINGS));
            var s := Do(bound, evicting, EvictOldest);
            && s.sender == Sweeping(l) && s.files == full.files - {l[0]}
            && Do(bound, s, LoadNext).sender == Dead
  {
    var l := Listing(full.files);
    assert l[..Excess(bound, bound)] == [l[0]];
    var listed := full.(sender := Sweeping(l));
    assert Do(bound, full, ListPending) == listed;
    assert Do(bound, listed, StartEnqueue(READINGS)) == listed.(acquisition := Evicting(READINGS, [l[0]]));
  }

  lemma ExtendByOvertaking(bound: int)
    requires bound > 0
    ensures After(bound, Overtaken(bound)) ==
            var listed := Do(bound, After(bound, Fill(bound)), ListPending);
            var evicting := Do(bound, listed, StartEnqueue(READINGS));
            Do(bound, evicting, EvictOldest)
  {
    var steps1 := Fill(bound) + [ListPending];
    var steps2 := steps1 + [StartEnqueue(READINGS)];
    assert Overtaken(bound) == steps2 + [EvictOldest];
    Extend(bound, Fill(bound), ListPending);
    Extend(bound, steps1, StartEnqueue(READINGS));
    Extend(bound, steps2, EvictOldest);
  }

  /** For every bound: fill the queue, list it, enqueue once more, and load what was listed first. */
  lemma OvertakenFails(bound: int)
    requires bound > 0
    ensures var s := After(bound, Overtaken(bound));
            s.sender.Sweeping? && s.sender.paths != [] && s.sender.paths[0] !in s.files
    ensures After(bound, Overtaken(bound) + [LoadNext]).sender == Dead
  {
    FillFills(bound, bound);
    var full := After(bound, Fill(bound));
    SortedFacts(JsonNames(full.files));
    FullIsEvicted(bound, full);
    ExtendByOvertaking(bound);
    Extend(bound, Overtaken(bound), LoadNext);
  }

  /** When the sender can rely on its listing, under every schedule of the two threads: exactly without a bound. */
  lemma SenderLivesIff(bound: int)
    ensures NextLoads(bound) <==> bound <= 0
    ensures SenderLives(bound) <==> bound <= 0
  {
    if bound <= 0 {
      forall steps: seq<Step>
        ensures var s := After(bound, steps);
                s.sender != Dead &&
                (s.sender.Sweeping? && s.sender.paths != [] ==> Loads(s.files, s.sender.paths[0]))
      {
        EveryScheduleKeeps(bound, steps);
        var s := After(bound, steps);
        if s.sender.Sweeping? && s.sender.paths != [] {
          assert s.sender.paths[0] in JsonNames(s.files);
        }
      }
    } else {
      OvertakenFails(bound);
    }
  }
}
