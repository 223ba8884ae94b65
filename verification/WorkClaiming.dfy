/** The load harness's workers: a shared atomic counter hands out request indices, under every interleaving. */
module WorkClaiming {

  // Where a worker stands: about to claim, holding an index, its request sent but not sampled, sampled but not counted,
  // or finished.
  datatype Worker = Claiming | Holding(index: nat) | Sampling(failed: bool) | Counting(failed: bool) | Finished

  // `sent` is the history of indices sent; `samples` counts the latencies recorded.
  datatype World = World(total: int, next: nat, workers: seq<Worker>, sent: seq<nat>, samples: nat, ok: nat, errs: nat)

  // Worker i takes its next atomic step; `failed` is the outcome if that is a send.
  datatype Step = Step(i: nat, failed: bool)

  function Do(w: World, step: Step): World {
    if step.i >= |w.workers| then w
    else
      match w.workers[step.i]
      case Claiming =>
        w.(next := w.next + 1,
           workers := w.workers[step.i := if w.next >= w.total then Finished else Holding(w.next)])
      case Holding(index) => w.(sent := w.sent + [index], workers := w.workers[step.i := Sampling(step.failed)])
      case Sampling(failed) => w.(samples := w.samples + 1, workers := w.workers[step.i := Counting(failed)])
      case Counting(failed) =>
        w.(ok := if failed then w.ok else w.ok + 1,
           errs := if failed then w.errs + 1 else w.errs,
           workers := w.workers[step.i := Claiming])
      case Finished => w
  }

  function Start(total: int, concurrency: nat): World {
    World(total, 0, seq(concurrency, _ => Claiming), [], 0, 0, 0)
  }

  function After(total: int, concurrency: nat, steps: seq<Step>): World {
    if steps == [] then Start(total, concurrency)
    else Do(After(total, concurrency, steps[..|steps| - 1]), steps[|steps| - 1])
  }

  // ---- counting workers and sends

  type Kind = Worker -> bool

  const IS_HOLDING: Kind := (w: Worker) => w.Holding?
  const IS_SAMPLING: Kind := (w: Worker) => w.Sampling?
  const IS_COUNTING: Kind := (w: Worker) => w.Counting?
  const IS_FINISHED: Kind := (w: Worker) => w.Finished?

  function Holds(index: nat): Kind {
    (w: Worker) => w.Holding? && w.index == index
  }

  function One(b: bool): nat {
    if b then 1 else 0
  }

  function Number(ws: seq<Worker>, kind: Kind): nat {
    if ws == [] then 0 else Number(ws[..|ws| - 1], kind) + One(kind(ws[|ws| - 1]))
  }

  function Times(sent: seq<nat>, index: nat): nat {
    if sent == [] then 0 else Times(sent[..|sent| - 1], index) + One(sent[|sent| - 1] == index)
  }

  lemma {:induction false} NumberUpdate(ws: seq<Worker>, i: nat, w: Worker, kind: Kind)
    requires i < |ws|
    ensures Number(ws[i := w], kind) == Number(ws, kind) - One(kind(ws[i])) + One(kind(w))
  {
    var n := |ws| - 1;
    if i == n {
      assert ws[i := w][..n] == ws[..n];
    } else {
      assert ws[i := w][..n] == ws[..n][i := w];
      NumberUpdate(ws[..n], i, w, kind);
    }
  }

  lemma {:induction false} NumberNone(ws: seq<Worker>, kind: Kind)
    requires forall i :: 0 <= i < |ws| ==> !kind(ws[i])
    ensures Number(ws, kind) == 0
  {
    if ws != [] {
      NumberNone(ws[..|ws| - 1], kind);
    }
  }

  lemma {:induction false} NumberAll(ws: seq<Worker>, kind: Kind)
    requires forall i :: 0 <= i < |ws| ==> kind(ws[i])
    ensures Number(ws, kind) == |ws|
  {
    if ws != [] {
      NumberAll(ws[..|ws| - 1], kind);
    }
  }

  function Wanted(total: int): nat {
    if total < 0 then 0 else total
  }

  /** Indices handed out to be sent. */
  function Claimed(w: World): nat {
    if w.next < Wanted(w.total) then w.next else Wanted(w.total)
  }

  /** Index i has been sent, or is held by one worker, exactly when it was handed out, and then once. */
  ghost predicate Once(w: World, index: nat) {
    Times(w.sent, index) + Number(w.workers, Holds(index)) == One(index < Claimed(w))
  }

  ghost predicate Handed(w: World) {
    && |w.sent| + Number(w.workers, IS_HOLDING) == Claimed(w)
    && w.next == Claimed(w) + Number(w.workers, IS_FINISHED)
  }

  ghost predicate Tallied(w: World) {
    && w.samples + Number(w.workers, IS_SAMPLING) == |w.sent|
    && w.ok + w.errs + Number(w.workers, IS_COUNTING) == w.samples
  }

  lemma TimesAppend(sent: seq<nat>, i: nat, index: nat)
    ensures Times(sent + [i], index) == Times(sent, index) + One(i == index)
  {
    assert (sent + [i])[..|sent|] == sent;
  }

  lemma SendKeepsOnce(w: World, step: Step, index: nat)
    requires Once(w, index) && step.i < |w.workers| && w.workers[step.i].Holding?
    ensures Once(Do(w, step), index)
  {
    TimesAppend(w.sent, w.workers[step.i].index, index);
    NumberUpdate(w.workers, step.i, Sampling(step.failed), Holds(index));
  }

  lemma DoKeepsOnce(w: World, step: Step, index: nat)
    requires Once(w, index)
    ensures Once(Do(w, step), index)
  {
    var w' := Do(w, step);
    if step.i < |w.workers| && w' != w {
      if w.workers[step.i].Holding? {
        SendKeepsOnce(w, step, index);
      } else {
        assert w'.sent == w.sent;
        NumberUpdate(w.workers, step.i, w'.workers[step.i], Holds(index));
      }
    }
  }

  lemma DoKeepsHanded(w: World, step: Step)
    requires Handed(w)
    ensures Handed(Do(w, step))
  {
    var w' := Do(w, step);
    if step.i < |w.workers| && w' != w {
      NumberUpdate(w.workers, step.i, w'.workers[step.i], IS_HOLDING);
      NumberUpdate(w.workers, step.i, w'.workers[step.i], IS_FINISHED);
    }
  }

  lemma DoKeepsTally(w: World, step: Step)
    requires Tallied(w)
    ensures Tallied(Do(w, step))
  {
    var w' := Do(w, step);
    if step.i < |w.workers| && w' != w {
      NumberUpdate(w.workers, step.i, w'.workers[step.i], IS_SAMPLING);
      NumberUpdate(w.workers, step.i, w'.workers[step.i], IS_COUNTING);
    }
  }

  lemma {:induction false} EveryRunKeeps(total: int, concurrency: nat, steps: seq<Step>, index: nat)
    ensures var w := After(total, concurrency, steps);
            Once(w, index) && Handed(w) && Tallied(w) && |w.workers| == concurrency && w.total == total
  {
    if steps == [] {
      var ws := Start(total, concurrency).workers;
      NumberNone(ws, Holds(index));
      NumberNone(ws, IS_HOLDING);
      NumberNone(ws, IS_SAMPLING);
      NumberNone(ws, IS_COUNTING);
      NumberNone(ws, IS_FINISHED);
    } else {
      var w := After(total, concurrency, steps[..|steps| - 1]);
      EveryRunKeeps(total, concurrency, steps[..|steps| - 1], index);
      DoKeepsOnce(w, steps[|steps| - 1], index);
      DoKeepsHanded(w, steps[|steps| - 1]);
      DoKeepsTally(w, steps[|steps| - 1]);
    }
  }

  /** At any moment no index is sent twice, and none outside 0..total-1 at all. */
  lemma NeverTwice(total: int, concurrency: nat, steps: seq<Step>, index: nat)
    ensures Times(After(total, concurrency, steps).sent, index) <= One(index < Wanted(total))
  {
    EveryRunKeeps(total, concurrency, steps, index);
  }

  /** When all workers have finished: each index sent exactly once, and every request sampled and counted. */
  lemma Quiescent(total: int, concurrency: nat, steps: seq<Step>, index: nat)
    requires concurrency >= 1
    requires forall worker :: worker in After(total, concurrency, steps).workers ==> worker.Finished?
    ensures var w := After(total, concurrency, steps);
            && Times(w.sent, index) == One(index < Wanted(total))
            && w.next == Wanted(total) + concurrency
            && |w.sent| == w.samples == w.ok + w.errs == Wanted(total)
  {
    var w := After(total, concurrency, steps);
    EveryRunKeeps(total, concurrency, steps, index);
    NumberAll(w.workers, IS_FINISHED);
    NumberNone(w.workers, Holds(index));
    NumberNone(w.workers, IS_HOLDING);
    NumberNone(w.workers, IS_SAMPLING);
    NumberNone(w.workers, IS_COUNTING);
  }

  // ---- the load ends

  function Ahead(w: Worker): nat {
    match w
    case Claiming => 1
    case Holding(_) => 4
    case Sampling(_) => 3
    case Counting(_) => 2
    case Finished => 0
  }

  function AllAhead(ws: seq<Worker>): nat {
    if ws == [] then 0 else AllAhead(ws[..|ws| - 1]) + Ahead(ws[|ws| - 1])
  }

  function StepsLeft(w: World): nat {
    4 * (Wanted(w.total) - Claimed(w)) + AllAhead(w.workers)
  }

  lemma {:induction false} AheadUpdate(ws: seq<Worker>, i: nat, w: Worker)
    requires i < |ws|
    ensures AllAhead(ws[i := w]) == AllAhead(ws) - Ahead(ws[i]) + Ahead(w)
  {
    var n := |ws| - 1;
    if i == n {
      assert ws[i := w][..n] == ws[..n];
    } else {
      assert ws[i := w][..n] == ws[..n][i := w];
      AheadUpdate(ws[..n], i, w);
    }
  }

  /** Every step of a worker that has not finished brings the end one step nearer. */
  lemma StepProgresses(w: World, step: Step)
    requires step.i < |w.workers| && !w.workers[step.i].Finished?
    ensures StepsLeft(Do(w, step)) == StepsLeft(w) - 1
  {
    AheadUpdate(w.workers, step.i, Do(w, step).workers[step.i]);
  }
}
