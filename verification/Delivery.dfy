/**
 * Acquisition, journal, sender, network and server together, under every schedule of their steps: enqueues,
 * attempts, drops, ambiguous successes, late arrivals, server failures between statements, crashes and restarts.
 */
module Delivery {
  import opened Options
  import opened Readings
  import opened Ingest
  import opened FileNames
  import opened SortedNames
  import opened Journal
  import opened Sender

  datatype Config = Config(gate: Gate, maxAttempts: int, start: Table)

  // A request on its way through the server: statements committed so far, and the reply once it has one.
  // `serial` is the place of its batch in the log, kept for the proofs only.
  datatype Request = Request(serial: nat, batch: Batch, committed: nat, reply: Option<int>)

  // The sender thread. `paths` is what is left of the listing it sweeps, the batch at hand first.
  datatype Thread =
    | Idle
    | Sweeping(paths: seq<string>)
    | Sending(paths: seq<string>, batch: Batch, attempt: nat)
    | Waiting(paths: seq<string>, batch: Batch, attempt: nat, request: nat)
    | Removing(paths: seq<string>, verdict: Verdict)

  // The batch that acquisition is writing to its temporary file.
  datatype Draft = NoDraft | Started(batch: Batch) | Written(batch: Batch)

  // `log` is every batch ever journaled and `fates` the verdicts of those unlinked so far: history only,
  // no step looks at them. `head` counts the statements of the oldest pending batch that reached the table.
  datatype State = State(
    files: Directory,
    counter: nat,
    writing: Draft,
    sender: Thread,
    flight: map<nat, Request>,
    table: Table,
    log: seq<Batch>,
    fates: seq<Verdict>,
    head: nat)

  datatype Step =
    | TakeIndex(batch: Batch)        // acquisition numbers a batch and starts on its temporary file
    | FinishWrite                    // the temporary file is whole
    | Publish                        // and renamed
    | ListPending
    | NextPath                       // the sender loads the next listed batch, or ends its sweep
    | Post(request: nat)             // it sends one attempt, or has none left
    | Miss                           // its attempt yields an exception or a transient status of the network's
    | Hear                           // its attempt's reply arrives
    | Interrupt                      // shutdown breaks off its backoff
    | Remove                         // it removes the batch just settled
    | CrashRestart                   // the collector dies and starts again over the same directory
    | Refuse(request: nat)           // the server rejects a batch before touching the table
    | Commit(request: nat)           // one statement of a request commits
    | Fail(request: nat)             // a request ends in 500, whatever it committed
    | Finish(request: nat)           // or in 200, all of it committed
    | Lose(request: nat)             // a request or its reply is lost
    | Others(rows: seq<Reading>)     // other sources write

  predicate Working(s: State, r: nat) {
    r in s.flight && s.flight[r].reply.None?
  }

  predicate AllCommitted(q: Request) {
    q.committed >= ChunkCount(|q.batch|)
  }

  function Answer(s: State, r: nat, status: int): State
    requires r in s.flight
  {
    s.(flight := s.flight[r := s.flight[r].(reply := Some(status))])
  }

  /** The attempt at hand came to nothing: try again, after the backoff. */
  function Retry(t: Thread): Thread
    requires t.Waiting?
  {
    Sending(t.paths, t.batch, t.attempt + 1)
  }

  /** One step; a step that is not enabled does nothing. */
  ghost function Do(c: Config, s: State, step: Step): State {
    match step
    case TakeIndex(b) =>
      if s.writing != NoDraft || b == [] || s.counter >= INDEX_LIMIT then s
      else s.(writing := Started(b), counter := s.counter + 1, files := s.files[TmpName(s.counter) := Torn])
    case FinishWrite =>
      if !s.writing.Started? || s.counter == 0 then s
      else s.(writing := Written(s.writing.batch), files := s.files[TmpName(s.counter - 1) := Whole(s.writing.batch)])
    case Publish =>
      if !s.writing.Written? || s.counter == 0 then s
      else s.(writing := NoDraft, log := s.log + [s.writing.batch],
              files := RunOp(s.files, Rename(TmpName(s.counter - 1), FileName(s.counter - 1))))
    case ListPending =>
      if !s.sender.Idle? then s else s.(sender := Sweeping(Listing(s.files)))
    case NextPath =>
      if !s.sender.Sweeping? then s
      else if s.sender.paths == [] then s.(sender := Idle)
      else s.(sender := Sending(s.sender.paths, BatchIn(s.files, s.sender.paths[0]), 1))
    case Post(r) =>
      if !s.sender.Sending? || r in s.flight then s
      else if s.sender.attempt > c.maxAttempts then s.(sender := Idle)
      else s.(sender := Waiting(s.sender.paths, s.sender.batch, s.sender.attempt, r),
              flight := s.flight[r := Request(|s.fates|, s.sender.batch, 0, None)])
    case Miss =>
      if !s.sender.Waiting? then s else s.(sender := Retry(s.sender))
    case Hear =>
      if !s.sender.Waiting? || s.sender.request !in s.flight || s.flight[s.sender.request].reply.None? then s
      else
        var verdict := Classify(Status(s.flight[s.sender.request].reply.value));
        s.(flight := s.flight - {s.sender.request},
           sender := if verdict == TRANSIENT then Retry(s.sender) else Removing(s.sender.paths, verdict))
    case Interrupt =>
      if !s.sender.Sending? || s.sender.attempt == 1 then s else s.(sender := Idle)
    case Remove =>
      if !s.sender.Removing? || s.sender.paths == [] then s
      else s.(files := s.files - {s.sender.paths[0]}, sender := Sweeping(s.sender.paths[1..]),
              fates := s.fates + [s.sender.verdict], head := 0)
    case CrashRestart =>
      s.(writing := NoDraft, counter := NextIndex(JsonNames(s.files)), sender := Idle)
    case Refuse(r) =>
      if !Working(s, r) || s.flight[r].committed > 0 || Accepts(c.gate, s.flight[r].batch) then s
      else Answer(s, r, Refusal(c.gate, s.flight[r].batch))
    case Commit(r) =>
      if !Working(s, r) || !Accepts(c.gate, s.flight[r].batch) || AllCommitted(s.flight[r]) then s
      else
        var q := s.flight[r];
        s.(table := Insert(s.table, Chunk(c.gate, q.batch, q.committed)),
           flight := s.flight[r := q.(committed := q.committed + 1)],
           head := if q.serial == |s.fates| && q.committed == s.head then s.head + 1 else s.head)
    case Fail(r) =>
      if !Working(s, r) then s else Answer(s, r, STATUS_FAILED)
    case Finish(r) =>
      if !Working(s, r) || !Accepts(c.gate, s.flight[r].batch) || !AllCommitted(s.flight[r]) then s
      else Answer(s, r, STATUS_OK)
    case Lose(r) => s.(flight := s.flight - {r})
    case Others(rows) =>
      if exists row :: row in rows && row.source == c.gate.source then s else s.(table := Insert(s.table, rows))
  }

  function Initial(c: Config): State {
    State(map[], 0, NoDraft, Idle, map[], c.start, [], [], 0)
  }

  ghost function After(c: Config, steps: seq<Step>): State {
    if steps == [] then Initial(c)
    else Do(c, After(c, steps[..|steps| - 1]), steps[|steps| - 1])
  }

  // ---- what the table should hold

  /** The rows of one source. */
  function Mine(c: Config, t: Table): Table {
    map k | k in t && k.source == c.gate.source :: t[k]
  }

  /** The starting table with every batch that came back OK appended once, in enqueue order. */
  function Settled(c: Config, log: seq<Batch>, fates: seq<Verdict>): Table
    requires |fates| <= |log|
  {
    if fates == [] then Mine(c, c.start)
    else
      var n := |fates| - 1;
      var before := Settled(c, log, fates[..n]);
      if fates[n] == OK then Insert(before, RowsOf(c.gate, log[n])) else before
  }

  /** The rows of the oldest pending batch that have got through. */
  function HeadRows(c: Config, log: seq<Batch>, done: nat, head: nat): seq<Reading> {
    if done < |log| then RowsOf(c.gate, log[done])[..ChunkEnd(|log[done]|, head)] else []
  }

  // ---- the invariant, part by part

  /** The directory lists the batches journaled and not yet unlinked, and a file being written is not listed. */
  ghost predicate JournalOk(files: Directory, counter: nat, writing: Draft, log: seq<Batch>, done: nat) {
    && done <= |log|
    && Contents(files) == log[done..]
    && JournalBelow(files, counter)
    && counter <= INDEX_LIMIT
    && (writing != NoDraft ==> counter > 0 && JournalBelow(files, counter - 1))
    && (writing.Written? ==> TmpName(counter - 1) in files && files[TmpName(counter - 1)] == Whole(writing.batch))
  }

  /** A verdict that the state of the head bears out. */
  ghost predicate Verdicted(c: Config, b: Batch, head: nat, verdict: Verdict) {
    match verdict
    case OK => Accepts(c.gate, b) && head == ChunkCount(|b|)
    case PERMANENT => !Accepts(c.gate, b)
    case TRANSIENT => false
  }

  ghost predicate AtHead(paths: seq<string>, listing: seq<string>, log: seq<Batch>, done: nat) {
    paths != [] && paths <= listing && done < |log|
  }

  /** What the sender has left to sweep is how the listing still begins, and the batch it holds is the oldest. */
  ghost predicate SenderOk(c: Config, t: Thread, listing: seq<string>, log: seq<Batch>, done: nat, head: nat,
                           flight: map<nat, Request>) {
    match t
    case Idle => true
    case Sweeping(paths) => paths <= listing
    case Sending(paths, b, _) => AtHead(paths, listing, log, done) && b == log[done]
    case Waiting(paths, b, _, r) =>
      AtHead(paths, listing, log, done) && b == log[done] && (r in flight ==> flight[r].serial == done)
    case Removing(paths, verdict) => AtHead(paths, listing, log, done) && Verdicted(c, log[done], head, verdict)
  }

  /**
   * A request, however late, is for a batch already settled or for the oldest pending one, and no further than its
   * head.
   */
  ghost predicate RequestOk(c: Config, log: seq<Batch>, done: nat, head: nat, q: Request) {
    && q.serial <= done && q.serial < |log| && q.batch == log[q.serial]
    && q.committed <= ChunkCount(|q.batch|)
    && (q.committed > 0 ==> Accepts(c.gate, q.batch))
    && (q.serial == done ==> q.committed <= head)
    && (q.reply.Some? ==>
          match Classify(Status(q.reply.value))
          case OK => Accepts(c.gate, q.batch) && q.committed == ChunkCount(|q.batch|)
          case PERMANENT => !Accepts(c.gate, q.batch)
          case TRANSIENT => true)
  }

  ghost predicate FlightOk(c: Config, log: seq<Batch>, done: nat, head: nat, flight: map<nat, Request>) {
    forall r :: r in flight ==> RequestOk(c, log, done, head, flight[r])
  }

  ghost predicate HeadOk(c: Config, log: seq<Batch>, done: nat, head: nat) {
    head > 0 ==> done < |log| && Accepts(c.gate, log[done]) && head <= ChunkCount(|log[done]|)
  }

  /** An unlinked batch came back OK exactly if the server takes it, and PERMANENT otherwise. */
  ghost predicate FatesOk(c: Config, log: seq<Batch>, fates: seq<Verdict>) {
    |fates| <= |log| && forall j :: 0 <= j < |fates| ==> fates[j] == if Accepts(c.gate, log[j]) then OK else PERMANENT
  }

  /** The source's rows are the settled batches, then what got through of the oldest pending one. */
  ghost predicate TableOk(c: Config, table: Table, log: seq<Batch>, fates: seq<Verdict>, head: nat) {
    |fates| <= |log| && Mine(c, table) == Insert(Settled(c, log, fates), HeadRows(c, log, |fates|, head))
  }

  ghost predicate Inv(c: Config, s: State) {
    && JournalOk(s.files, s.counter, s.writing, s.log, |s.fates|)
    && SenderOk(c, s.sender, Listing(s.files), s.log, |s.fates|, s.head, s.flight)
    && FlightOk(c, s.log, |s.fates|, s.head, s.flight)
    && HeadOk(c, s.log, |s.fates|, s.head)
    && FatesOk(c, s.log, s.fates)
    && TableOk(c, s.table, s.log, s.fates, s.head)
  }

  // ---- the table under insertions

  lemma {:induction false} MineInsert(c: Config, t: Table, rows: seq<Reading>)
    requires forall r :: r in rows ==> r.source == c.gate.source
    ensures Mine(c, Insert(t, rows)) == Insert(Mine(c, t), rows)
  {
    if rows != [] {
      MineInsert(c, t, rows[..|rows| - 1]);
    }
  }

  lemma {:induction false} OthersInsert(c: Config, t: Table, rows: seq<Reading>)
    requires forall r :: r in rows ==> r.source != c.gate.source
    ensures Mine(c, Insert(t, rows)) == Mine(c, t)
  {
    if rows != [] {
      OthersInsert(c, t, rows[..|rows| - 1]);
    }
  }

  /** Every row of a batch that came back OK is in the settled table. */
  lemma {:induction false} SettledHolds(c: Config, log: seq<Batch>, fates: seq<Verdict>, j: nat)
    requires |fates| <= |log| && j < |fates| && fates[j] == OK
    ensures KeysOf(RowsOf(c.gate, log[j])) <= Settled(c, log, fates).Keys
  {
    var n := |fates| - 1;
    FirstWriterWins(Settled(c, log, fates[..n]), RowsOf(c.gate, log[n]));
    if j < n {
      SettledHolds(c, log, fates[..n], j);
    }
  }

  lemma {:induction false} SettledExtends(c: Config, log: seq<Batch>, more: seq<Batch>, fates: seq<Verdict>)
    requires |fates| <= |log|
    ensures Settled(c, log + more, fates) == Settled(c, log, fates)
  {
    if fates != [] {
      SettledExtends(c, log, more, fates[..|fates| - 1]);
    }
  }

  // ---- each step keeps the invariant

  lemma TakeIndexKeeps(c: Config, s: State, b: Batch)
    requires Inv(c, s)
    ensures Inv(c, Do(c, s, TakeIndex(b)))
  {
    var s' := Do(c, s, TakeIndex(b));
    if s' != s {
      TmpNotListed(s.files, s.counter, Torn);
      JournalBelowMore(s'.files, s.counter);
    }
  }

  lemma FinishWriteKeeps(c: Config, s: State)
    requires Inv(c, s)
    ensures Inv(c, Do(c, s, FinishWrite))
  {
    if s.writing.Started? {
      TmpNotListed(s.files, s.counter - 1, Whole(s.writing.batch));
    }
  }

  /** The rename lists the batch being written, last. */
  lemma PublishLists(files: Directory, counter: nat, b: Batch, log: seq<Batch>, done: nat)
    requires JournalOk(files, counter, Written(b), log, done)
    ensures var files' := RunOp(files, Rename(TmpName(counter - 1), FileName(counter - 1)));
            && JournalOk(files', counter, NoDraft, log + [b], done)
            && Listing(files') == Listing(files) + [FileName(counter - 1)]
  {
    RewriteSame(files, TmpName(counter - 1), Whole(b));
    RenamePublishes(files, counter - 1, b);
    LogSuffix(log, b, done);
  }

  lemma RewriteSame(files: Directory, name: string, content: Content)
    requires name in files && files[name] == content
    ensures files[name := content] == files
  {
  }

  lemma LogSuffix(log: seq<Batch>, b: Batch, done: nat)
    requires done <= |log|
    ensures (log + [b])[done..] == log[done..] + [b]
  {
  }

  lemma LongerLogKeepsTable(c: Config, table: Table, log: seq<Batch>, fates: seq<Verdict>, head: nat, b: Batch)
    requires TableOk(c, table, log, fates, head) && HeadOk(c, log, |fates|, head)
    ensures TableOk(c, table, log + [b], fates, head)
  {
    SettledExtends(c, log, [b], fates);
    assert HeadRows(c, log + [b], |fates|, head) == HeadRows(c, log, |fates|, head);
  }

  lemma LongerLogKeepsFlight(c: Config, log: seq<Batch>, done: nat, head: nat, flight: map<nat, Request>, b: Batch)
    requires FlightOk(c, log, done, head, flight)
    ensures FlightOk(c, log + [b], done, head, flight)
  {
    forall r | r in flight ensures RequestOk(c, log + [b], done, head, flight[r]) {
      assert RequestOk(c, log, done, head, flight[r]);
    }
  }

  lemma LongerLogKeepsSender(c: Config, t: Thread, listing: seq<string>, name: string, log: seq<Batch>, done: nat,
                             head: nat, flight: map<nat, Request>, b: Batch)
    requires SenderOk(c, t, listing, log, done, head, flight)
    ensures SenderOk(c, t, listing + [name], log + [b], done, head, flight)
  {
    assert done < |log| ==> (log + [b])[done] == log[done];
  }

  lemma PublishKeeps(c: Config, s: State)
    requires Inv(c, s)
    ensures Inv(c, Do(c, s, Publish))
  {
    if s.writing.Written? {
      var b, done, s' := s.writing.batch, |s.fates|, Do(c, s, Publish);
      PublishLists(s.files, s.counter, b, s.log, done);
      LongerLogKeepsSender(c, s.sender, Listing(s.files), FileName(s.counter - 1), s.log, done, s.head, s.flight, b);
      assert SenderOk(c, s'.sender, Listing(s'.files), s'.log, done, s'.head, s'.flight);
      LongerLogKeepsTable(c, s.table, s.log, s.fates, s.head, b);
      LongerLogKeepsFlight(c, s.log, done, s.head, s.flight, b);
    }
  }

  /** The sender's next path is the oldest pending batch. */
  lemma HeadOfListing(files: Directory, counter: nat, writing: Draft, log: seq<Batch>, done: nat)
    requires JournalOk(files, counter, writing, log, done) && Listing(files) != []
    ensures done < |log| && BatchIn(files, Listing(files)[0]) == log[done]
  {
    assert |Contents(files)| == |Listing(files)|;
    assert Contents(files)[0] == log[done];
  }

  lemma SenderMovesKeep(c: Config, s: State, step: Step)
    requires Inv(c, s)
    requires step.ListPending? || step.NextPath? || step.Miss? || step.Interrupt?
    ensures Inv(c, Do(c, s, step))
  {
    if Listing(s.files) != [] {
      HeadOfListing(s.files, s.counter, s.writing, s.log, |s.fates|);
    }
  }

  lemma FlightWith(c: Config, log: seq<Batch>, done: nat, head: nat, flight: map<nat, Request>, r: nat, q: Request)
    requires FlightOk(c, log, done, head, flight) && RequestOk(c, log, done, head, q)
    ensures FlightOk(c, log, done, head, flight[r := q])
  {
  }

  lemma FlightWithout(c: Config, log: seq<Batch>, done: nat, head: nat, flight: map<nat, Request>, r: nat)
    requires FlightOk(c, log, done, head, flight)
    ensures FlightOk(c, log, done, head, flight - {r})
  {
  }

  /** A new attempt: the sender waits for a request of the batch it holds, the oldest pending one. */
  lemma PostedOk(c: Config, t: Thread, listing: seq<string>, log: seq<Batch>, done: nat, head: nat,
                 flight: map<nat, Request>, r: nat)
    requires t.Sending? && SenderOk(c, t, listing, log, done, head, flight)
    requires FlightOk(c, log, done, head, flight)
    ensures var flight' := flight[r := Request(done, t.batch, 0, None)];
            && SenderOk(c, Waiting(t.paths, t.batch, t.attempt, r), listing, log, done, head, flight')
            && FlightOk(c, log, done, head, flight')
  {
    FlightWith(c, log, done, head, flight, r, Request(done, t.batch, 0, None));
  }

  lemma PostKeeps(c: Config, s: State, r: nat)
    requires Inv(c, s)
    ensures Inv(c, Do(c, s, Post(r)))
  {
    if s.sender.Sending? && r !in s.flight && s.sender.attempt <= c.maxAttempts {
      PostedOk(c, s.sender, Listing(s.files), s.log, |s.fates|, s.head, s.flight, r);
    }
  }

  /** A verdict the sender hears is one the state of the head bears out. */
  lemma ReplyBorneOut(c: Config, log: seq<Batch>, done: nat, head: nat, q: Request)
    requires RequestOk(c, log, done, head, q) && HeadOk(c, log, done, head) && q.serial == done && q.reply.Some?
    ensures var verdict := Classify(Status(q.reply.value));
            verdict == TRANSIENT || Verdicted(c, log[done], head, verdict)
  {
  }

  lemma HearKeeps(c: Config, s: State)
    requires Inv(c, s)
    ensures Inv(c, Do(c, s, Hear))
  {
    if s.sender.Waiting? && s.sender.request in s.flight && s.flight[s.sender.request].reply.Some? {
      ReplyBorneOut(c, s.log, |s.fates|, s.head, s.flight[s.sender.request]);
      FlightWithout(c, s.log, |s.fates|, s.head, s.flight, s.sender.request);
    }
  }

  lemma RemoveKeepsJournal(files: Directory, counter: nat, writing: Draft, log: seq<Batch>, done: nat)
    requires JournalOk(files, counter, writing, log, done) && Listing(files) != [] && done < |log|
    ensures var files' := files - {Listing(files)[0]};
            JournalOk(files', counter, writing, log, done + 1) && Listing(files') == Listing(files)[1..]
  {
    ListingRemove(files, 0);
    assert log[done..][1..] == log[done + 1..];
    if writing.Written? {
      TmpIsNotPending(files, counter - 1);
    }
  }

  lemma TmpIsNotPending(files: Directory, idx: nat)
    requires Listing(files) != []
    ensures Listing(files)[0] != TmpName(idx)
  {
    SortedFacts(JsonNames(files));
    OnlyFinishedFilesListed(idx);
    assert Listing(files)[0] in JsonNames(files);
  }

  lemma RemoveKeepsTable(c: Config, table: Table, log: seq<Batch>, fates: seq<Verdict>, head: nat, verdict: Verdict)
    requires TableOk(c, table, log, fates, head) && HeadOk(c, log, |fates|, head) && |fates| < |log|
    requires Verdicted(c, log[|fates|], head, verdict)
    ensures TableOk(c, table, log, fates + [verdict], 0)
  {
    var n := |fates|;
    var rows := RowsOf(c.gate, log[n]);
    assert (fates + [verdict])[..n] == fates;
    assert HeadRows(c, log, n + 1, 0) == [];
    ChunkEndFacts(|rows|, head);
    assert rows[..|rows|] == rows && rows[..0] == [];
  }

  lemma RemoveKeepsFlight(c: Config, log: seq<Batch>, done: nat, head: nat, flight: map<nat, Request>)
    requires FlightOk(c, log, done, head, flight)
    ensures FlightOk(c, log, done + 1, 0, flight)
  {
    forall r | r in flight ensures RequestOk(c, log, done + 1, 0, flight[r]) {
      assert RequestOk(c, log, done, head, flight[r]);
    }
  }

  lemma FatesExtend(c: Config, log: seq<Batch>, fates: seq<Verdict>, head: nat, verdict: Verdict)
    requires FatesOk(c, log, fates) && |fates| < |log| && Verdicted(c, log[|fates|], head, verdict)
    ensures FatesOk(c, log, fates + [verdict])
  {
  }

  lemma TailSwept(paths: seq<string>, listing: seq<string>)
    requires paths != [] && paths <= listing
    ensures paths[0] == listing[0] && paths[1..] <= listing[1..]
  {
  }

  lemma RemoveKeeps(c: Config, s: State)
    requires Inv(c, s)
    ensures Inv(c, Do(c, s, Remove))
  {
    if s.sender.Removing? {
      var paths, verdict, done := s.sender.paths, s.sender.verdict, |s.fates|;
      var s' := Do(c, s, Remove);
      TailSwept(paths, Listing(s.files));
      assert s'.files == s.files - {Listing(s.files)[0]} && |s'.fates| == done + 1;
      assert JournalOk(s'.files, s'.counter, s'.writing, s'.log, done + 1) && paths[1..] <= Listing(s'.files) by {
        RemoveKeepsJournal(s.files, s.counter, s.writing, s.log, done);
      }
      FatesExtend(c, s.log, s.fates, s.head, verdict);
      RemoveKeepsTable(c, s.table, s.log, s.fates, s.head, verdict);
      RemoveKeepsFlight(c, s.log, done, s.head, s.flight);
    }
  }

  lemma RestartKeeps(c: Config, s: State)
    requires Inv(c, s)
    ensures Inv(c, Do(c, s, CrashRestart))
  {
    RecoveredCounter(s.files, s.counter);
  }

  lemma ReplyOk(c: Config, log: seq<Batch>, done: nat, head: nat, q: Request, step: Step)
    requires RequestOk(c, log, done, head, q)
    ensures RequestOk(c, log, done, head, q.(reply := Some(STATUS_FAILED)))
    ensures !Accepts(c.gate, q.batch) ==> RequestOk(c, log, done, head, q.(reply := Some(Refusal(c.gate, q.batch))))
    ensures Accepts(c.gate, q.batch) && q.committed == ChunkCount(|q.batch|) ==>
              RequestOk(c, log, done, head, q.(reply := Some(STATUS_OK)))
  {
  }

  lemma AnswerKeeps(c: Config, s: State, r: nat, status: int)
    requires Inv(c, s) && r in s.flight
    requires RequestOk(c, s.log, |s.fates|, s.head, s.flight[r].(reply := Some(status)))
    ensures Inv(c, Answer(s, r, status))
  {
    FlightWith(c, s.log, |s.fates|, s.head, s.flight, r, s.flight[r].(reply := Some(status)));
  }

  lemma RepliesKeep(c: Config, s: State, step: Step)
    requires Inv(c, s) && (step.Refuse? || step.Fail? || step.Finish?)
    ensures Inv(c, Do(c, s, step))
  {
    var s' := Do(c, s, step);
    if s' != s {
      var q := s.flight[step.request];
      ReplyOk(c, s.log, |s.fates|, s.head, q, step);
      AnswerKeeps(c, s, step.request, s'.flight[step.request].reply.value);
    }
  }

  lemma LoseKeeps(c: Config, s: State, r: nat)
    requires Inv(c, s)
    ensures Inv(c, Do(c, s, Lose(r)))
  {
    FlightWithout(c, s.log, |s.fates|, s.head, s.flight, r);
  }

  lemma EarlierChunkInHead(c: Config, b: Batch, k: nat, head: nat)
    requires k < head
    ensures forall r :: r in Chunk(c.gate, b, k) ==> r in RowsOf(c.gate, b)[..ChunkEnd(|b|, head)]
  {
    ChunkEndMonotone(|b|, k, k + 1);
    ChunkEndMonotone(|b|, k + 1, head);
    var rows := RowsOf(c.gate, b);
    assert Chunk(c.gate, b, k) == rows[..ChunkEnd(|b|, head)][ChunkEnd(|b|, k)..ChunkEnd(|b|, k + 1)];
  }

  /** A statement of a batch settled long ago, or one the head has passed, finds its rows there already. */
  lemma LateCommitIsSilent(c: Config, table: Table, log: seq<Batch>, fates: seq<Verdict>, head: nat, q: Request)
    requires TableOk(c, table, log, fates, head) && FatesOk(c, log, fates)
    requires RequestOk(c, log, |fates|, head, q) && Accepts(c.gate, q.batch)
    requires q.serial < |fates| || q.committed < head
    ensures Insert(Mine(c, table), Chunk(c.gate, q.batch, q.committed)) == Mine(c, table)
  {
    var chunk := Chunk(c.gate, q.batch, q.committed);
    FirstWriterWins(Settled(c, log, fates), HeadRows(c, log, |fates|, head));
    if q.serial < |fates| {
      SettledHolds(c, log, fates, q.serial);
      assert forall r :: r in chunk ==> r in RowsOf(c.gate, q.batch);
    } else {
      EarlierChunkInHead(c, q.batch, q.committed, head);
    }
    InsertPresent(Mine(c, table), chunk);
  }

  lemma HeadRowsGrow(c: Config, b: Batch, head: nat)
    ensures RowsOf(c.gate, b)[..ChunkEnd(|b|, head + 1)]
         == RowsOf(c.gate, b)[..ChunkEnd(|b|, head)] + Chunk(c.gate, b, head)
  {
    ChunkEndFacts(|b|, head);
    var rows, i, j := RowsOf(c.gate, b), ChunkEnd(|b|, head), ChunkEnd(|b|, head + 1);
    assert rows[..j] == rows[..i] + rows[i..j];
  }

  /** The next statement of the oldest pending batch extends what got through by its chunk. */
  lemma HeadCommitExtends(c: Config, table: Table, log: seq<Batch>, fates: seq<Verdict>, head: nat)
    requires TableOk(c, table, log, fates, head) && |fates| < |log|
    ensures Insert(Mine(c, table), Chunk(c.gate, log[|fates|], head))
         == Insert(Settled(c, log, fates), HeadRows(c, log, |fates|, head + 1))
  {
    HeadRowsGrow(c, log[|fates|], head);
    InsertConcat(Settled(c, log, fates), HeadRows(c, log, |fates|, head), Chunk(c.gate, log[|fates|], head));
  }

  /** The head moves on only when the request at its edge commits. */
  function HeadAfter(done: nat, head: nat, q: Request): nat {
    if q.serial == done && q.committed == head then head + 1 else head
  }

  lemma CommitKeepsTable(c: Config, table: Table, log: seq<Batch>, fates: seq<Verdict>, head: nat, q: Request)
    requires TableOk(c, table, log, fates, head) && FatesOk(c, log, fates)
    requires RequestOk(c, log, |fates|, head, q) && Accepts(c.gate, q.batch)
    ensures TableOk(c, Insert(table, Chunk(c.gate, q.batch, q.committed)), log, fates, HeadAfter(|fates|, head, q))
  {
    var chunk := Chunk(c.gate, q.batch, q.committed);
    assert forall r :: r in chunk ==> r in RowsOf(c.gate, q.batch);
    MineInsert(c, table, chunk);
    if q.serial == |fates| && q.committed == head {
      HeadCommitExtends(c, table, log, fates, head);
    } else {
      LateCommitIsSilent(c, table, log, fates, head, q);
    }
  }

  lemma CommitKeepsFlight(c: Config, log: seq<Batch>, done: nat, head: nat, flight: map<nat, Request>, r: nat)
    requires FlightOk(c, log, done, head, flight) && r in flight
    requires flight[r].reply.None? && Accepts(c.gate, flight[r].batch) && !AllCommitted(flight[r])
    ensures var q := flight[r];
            FlightOk(c, log, done, HeadAfter(done, head, q), flight[r := q.(committed := q.committed + 1)])
  {
    var head' := HeadAfter(done, head, flight[r]);
    var flight' := flight[r := flight[r].(committed := flight[r].committed + 1)];
    forall p | p in flight' ensures RequestOk(c, log, done, head', flight'[p]) {
      assert RequestOk(c, log, done, head, flight[p]);
    }
  }

  lemma CommitKeepsSender(c: Config, t: Thread, listing: seq<string>, log: seq<Batch>, done: nat, head: nat,
                          flight: map<nat, Request>, r: nat)
    requires SenderOk(c, t, listing, log, done, head, flight) && HeadOk(c, log, done, head)
    requires r in flight && RequestOk(c, log, done, head, flight[r])
    requires Accepts(c.gate, flight[r].batch) && !AllCommitted(flight[r])
    ensures var q := flight[r];
            var head' := HeadAfter(done, head, q);
            && SenderOk(c, t, listing, log, done, head', flight[r := q.(committed := q.committed + 1)])
            && HeadOk(c, log, done, head')
  {
  }

  lemma CommitKeeps(c: Config, s: State, r: nat)
    requires Inv(c, s)
    ensures Inv(c, Do(c, s, Commit(r)))
  {
    if Do(c, s, Commit(r)) != s {
      assert RequestOk(c, s.log, |s.fates|, s.head, s.flight[r]);
      CommitKeepsSender(c, s.sender, Listing(s.files), s.log, |s.fates|, s.head, s.flight, r);
      CommitKeepsFlight(c, s.log, |s.fates|, s.head, s.flight, r);
      CommitKeepsTable(c, s.table, s.log, s.fates, s.head, s.flight[r]);
    }
  }

  lemma OthersKeep(c: Config, s: State, rows: seq<Reading>)
    requires Inv(c, s)
    ensures Inv(c, Do(c, s, Others(rows)))
  {
    if forall row :: row in rows ==> row.source != c.gate.source {
      OthersInsert(c, s.table, rows);
    }
  }

  lemma DoKeeps(c: Config, s: State, step: Step)
    requires Inv(c, s)
    ensures Inv(c, Do(c, s, step))
  {
    match step
    case TakeIndex(b) => TakeIndexKeeps(c, s, b);
    case FinishWrite => FinishWriteKeeps(c, s);
    case Publish => PublishKeeps(c, s);
    case ListPending => SenderMovesKeep(c, s, step);
    case NextPath => SenderMovesKeep(c, s, step);
    case Post(r) => PostKeeps(c, s, r);
    case Miss => SenderMovesKeep(c, s, step);
    case Hear => HearKeeps(c, s);
    case Interrupt => SenderMovesKeep(c, s, step);
    case Remove => RemoveKeeps(c, s);
    case CrashRestart => RestartKeeps(c, s);
    case Refuse(_) => RepliesKeep(c, s, step);
    case Commit(r) => CommitKeeps(c, s, r);
    case Fail(_) => RepliesKeep(c, s, step);
    case Finish(_) => RepliesKeep(c, s, step);
    case Lose(r) => LoseKeeps(c, s, r);
    case Others(rows) => OthersKeep(c, s, rows);
  }

  lemma {:induction false} EveryScheduleKeeps(c: Config, steps: seq<Step>)
    ensures Inv(c, After(c, steps))
  {
    if steps == [] {
      assert JsonNames(Initial(c).files) == {};
    } else {
      var front := steps[..|steps| - 1];
      EveryScheduleKeeps(c, front);
      DoKeeps(c, After(c, front), steps[|steps| - 1]);
    }
  }

  // ---- what the invariant means

  lemma {:induction false} SettledIsDelivered(c: Config, log: seq<Batch>, fates: seq<Verdict>)
    requires FatesOk(c, log, fates)
    ensures Settled(c, log, fates) == Delivered(c.gate, Mine(c, c.start), log[..|fates|])
  {
    if fates != [] {
      var n := |fates| - 1;
      SettledIsDelivered(c, log, fates[..n]);
      assert log[..n + 1][..n] == log[..n];
    }
  }

  /**
   * Exactly once, in order. In every reachable state the batches ever journaled are those settled, each OK if the
   * server takes it and PERMANENT if not, and then those still listed on disk; and the source's rows are the settled
   * batches written once each in enqueue order, and at most some first statements of the oldest pending one.
   */
  lemma ExactlyOnceInOrder(c: Config, steps: seq<Step>)
    ensures var s := After(c, steps);
            && |s.fates| <= |s.log|
            && Contents(s.files) == s.log[|s.fates|..]
            && (forall j :: 0 <= j < |s.fates| ==> s.fates[j] == if Accepts(c.gate, s.log[j]) then OK else PERMANENT)
    ensures var s := After(c, steps);
            var settled := Delivered(c.gate, Mine(c, c.start), s.log[..|s.fates|]);
            if |s.fates| == |s.log| then Mine(c, s.table) == settled
            else exists k: nat :: Mine(c, s.table) ==
                   Partial(c.gate, settled, s.log[|s.fates|], ChunkEnd(|s.log[|s.fates|]|, k))
  {
    var s := After(c, steps);
    EveryScheduleKeeps(c, steps);
    SettledIsDelivered(c, s.log, s.fates);
    var settled := Delivered(c.gate, Mine(c, c.start), s.log[..|s.fates|]);
    assert HeadRows(c, s.log, |s.fates|, s.head) == [] ==> Mine(c, s.table) == settled;
    if |s.fates| < |s.log| {
      var b := s.log[|s.fates|];
      assert RowsOf(c.gate, b)[..0] == [];
      assert Mine(c, s.table) == Partial(c.gate, settled, b, ChunkEnd(|b|, s.head));
    }
  }

  /** With a verdict on the oldest pending batch the source's rows are what delivering it as well leaves. */
  lemma VerdictCompletes(c: Config, table: Table, log: seq<Batch>, fates: seq<Verdict>, head: nat, verdict: Verdict)
    requires TableOk(c, table, log, fates, head) && HeadOk(c, log, |fates|, head) && FatesOk(c, log, fates)
    requires |fates| < |log| && Verdicted(c, log[|fates|], head, verdict)
    ensures Mine(c, table) == Delivered(c.gate, Mine(c, c.start), log[..|fates| + 1])
  {
    RemoveKeepsTable(c, table, log, fates, head, verdict);
    var more := fates + [verdict];
    assert HeadRows(c, log, |more|, 0) == [];
    SettledIsDelivered(c, log, more);
  }

  /**
   * A verdict that the sender acts on is borne out: whenever it is about to unlink a path, that path is the oldest
   * pending batch's, the verdict is OK exactly if the server takes the batch, and the source's rows are those of the
   * settled batches and then all of this one, if it is taken.
   */
  lemma HeardVerdict(c: Config, steps: seq<Step>)
    requires After(c, steps).sender.Removing?
    ensures var s := After(c, steps);
            && |s.fates| < |s.log|
            && s.sender.paths != [] && BatchIn(s.files, s.sender.paths[0]) == s.log[|s.fates|]
            && s.sender.verdict == (if Accepts(c.gate, s.log[|s.fates|]) then OK else PERMANENT)
    ensures var s := After(c, steps);
            Mine(c, s.table) == Delivered(c.gate, Mine(c, c.start), s.log[..|s.fates| + 1])
  {
    var s := After(c, steps);
    EveryScheduleKeeps(c, steps);
    assert s.sender.paths[0] == Listing(s.files)[0];
    HeadOfListing(s.files, s.counter, s.writing, s.log, |s.fates|);
    VerdictCompletes(c, s.table, s.log, s.fates, s.head, s.sender.verdict);
  }

  /** The rows of the batches the server takes, in order. */
  function AllRows(g: Gate, q: seq<Batch>): seq<Reading> {
    if q == [] then []
    else AllRows(g, q[..|q| - 1]) + if Accepts(g, q[|q| - 1]) then RowsOf(g, q[|q| - 1]) else []
  }

  lemma {:induction false} DeliveredIsOneInsert(g: Gate, t: Table, q: seq<Batch>)
    ensures Delivered(g, t, q) == Insert(t, AllRows(g, q))
  {
    if q != [] {
      var front, b := q[..|q| - 1], q[|q| - 1];
      DeliveredIsOneInsert(g, t, front);
      if Accepts(g, b) {
        InsertConcat(t, AllRows(g, front), RowsOf(g, b));
      } else {
        assert AllRows(g, front) + [] == AllRows(g, front);
      }
    }
  }

  /**
   * Nothing lost, nothing doubled: once the queue is empty, readings with keys of their own are all there, once each.
   */
  lemma NothingLostNothingDoubled(c: Config, steps: seq<Step>)
    requires Contents(After(c, steps).files) == []
    requires var rows := AllRows(c.gate, After(c, steps).log);
             DistinctKeys(rows) && Mine(c, c.start).Keys !! KeysOf(rows)
    ensures var s := After(c, steps);
            var rows := AllRows(c.gate, s.log);
            && |Mine(c, s.table)| == |Mine(c, c.start)| + |rows|
            && forall i :: 0 <= i < |rows| ==> rows[i].RowKey() in s.table && s.table[rows[i].RowKey()] == rows[i].value
  {
    var s := After(c, steps);
    ExactlyOnceInOrder(c, steps);
    assert s.log[..|s.fates|] == s.log;
    DeliveredIsOneInsert(c.gate, Mine(c, c.start), s.log);
    FreshRowsAllLand(Mine(c, c.start), AllRows(c.gate, s.log));
    forall i | 0 <= i < |AllRows(c.gate, s.log)|
      ensures AllRows(c.gate, s.log)[i].RowKey() in s.table
      ensures s.table[AllRows(c.gate, s.log)[i].RowKey()] == AllRows(c.gate, s.log)[i].value
    {
      assert AllRows(c.gate, s.log)[i].RowKey() in Mine(c, s.table);
    }
  }

  /** The sender never loads a file that is missing or torn, however acquisition and crashes interleave. */
  lemma LoadAlwaysFinds(c: Config, steps: seq<Step>)
    ensures var s := After(c, steps);
            s.sender.Sweeping? && s.sender.paths != [] ==>
              s.sender.paths[0] in s.files && s.files[s.sender.paths[0]].Whole?
  {
    var s := After(c, steps);
    EveryScheduleKeeps(c, steps);
    if s.sender.Sweeping? && s.sender.paths != [] {
      SortedFacts(JsonNames(s.files));
      assert s.sender.paths[0] == Listing(s.files)[0];
    }
  }
}
