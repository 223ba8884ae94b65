/** Every interleaving of concurrent Check calls, threshold reloads and cap consultations. */
module AlertRuns {
  import opened Options
  import opened Readings
  import opened Alerts
  import opened Alerter

  // Where a goroutine stands: between readings, holding a threshold it read, about to ask for the cap, or about to
  // write its row of alert_log.
  datatype Pc =
    | Between
    | Looked(reading: Reading, threshold: Threshold)
    | Firing(fired: Reading, event: Event)
    | Writing(row: LogRow)

  datatype Goroutine = Goroutine(todo: seq<Reading>, pc: Pc)

  // One transition: the reading, the threshold it was judged by, and the event emitted.
  datatype Step = Step(reading: Reading, threshold: Threshold, event: Option<Event>)

  // History, in the order things happen: the transitions, the cap consultations, and the rows decided on.
  datatype World = World(
    alarm: Alarm,
    goroutines: seq<Goroutine>,
    trace: seq<Step>,
    checks: seq<CapCheck>,
    ruled: seq<LogRow>)

  // Run(i, day): goroutine i takes its next atomic step, on that UTC day.
  datatype Move =
    | Start(rs: seq<Reading>)
    | Run(i: nat, day: int)
    | Reload(thresholds: map<string, Threshold>, cap: Option<int>)

  /** The notification decision, under the lock. The row is written later, without it. */
  function Decide(notifiers: nat, w: World, i: nat, todo: seq<Reading>, day: int, r: Reading, e: Event): World
    requires i < |w.goroutines|
  {
    var check := CapCheck(day, w.alarm.maxPerDay);
    var (counter, allowed) := AllowNotify(w.alarm.counter, check);
    var row := LogRow(r, e, notifiers > 0 && allowed);
    var after := w.(goroutines := w.goroutines[i := Goroutine(todo, Writing(row))], ruled := w.ruled + [row]);
    if notifiers == 0 then after
    else after.(alarm := w.alarm.(counter := counter), checks := w.checks + [check])
  }

  function Do(notifiers: nat, w: World, move: Move): World {
    match move
    case Start(rs) => w.(goroutines := w.goroutines + [Goroutine(rs, Between)])
    case Reload(thresholds, cap) => w.(alarm := Reloaded(w.alarm, thresholds, cap))
    case Run(i, day) =>
      if i >= |w.goroutines| then w
      else
        var g := w.goroutines[i];
        match g.pc
        case Between =>
          if g.todo == [] then w
          else
            var r := g.todo[0];
            var pc := if r.metric in w.alarm.thresholds then Looked(r, w.alarm.thresholds[r.metric]) else Between;
            w.(goroutines := w.goroutines[i := Goroutine(g.todo[1..], pc)])
        case Looked(r, t) =>
          var (state, event) := Transition(w.alarm.state, r.metric, t, Evaluate(t, r.value));
          var pc := if event.Some? then Firing(r, event.value) else Between;
          w.(alarm := w.alarm.(state := state),
             goroutines := w.goroutines[i := Goroutine(g.todo, pc)],
             trace := w.trace + [Step(r, t, event)])
        case Firing(r, e) => Decide(notifiers, w, i, g.todo, day, r, e)
        case Writing(row) =>
          w.(alarm := w.alarm.(log := w.alarm.log + [row]),
             goroutines := w.goroutines[i := Goroutine(g.todo, Between)])
  }

  function After(notifiers: nat, w: World, moves: seq<Move>): World {
    if moves == [] then w
    else Do(notifiers, After(notifiers, w, moves[..|moves| - 1]), moves[|moves| - 1])
  }

  function Fresh(maxPerDay: int): World {
    World(Alarm(map[], maxPerDay, map[], NEVER_NOTIFIED, []), [], [], [], [])
  }

  // ---- one metric's history

  datatype Emission = Raised(kind: Kind) | Cleared(kind: Kind)

  function Shape(e: Event): Emission {
    match e
    case Alert(kind, _) => Raised(kind)
    case Recovered(kind, _) => Cleared(kind)
  }

  /** The levels a metric's readings were judged to have, in transition order. */
  function Levels(trace: seq<Step>, metric: string): seq<Level> {
    if trace == [] then []
    else
      var last := trace[|trace| - 1];
      Levels(trace[..|trace| - 1], metric) +
      if last.reading.metric == metric then [Classify(last.threshold, last.reading.value)] else []
  }

  /** The events emitted for a metric, in transition order. */
  function Emissions(trace: seq<Step>, metric: string): seq<Emission> {
    if trace == [] then []
    else
      var last := trace[|trace| - 1];
      Emissions(trace[..|trace| - 1], metric) +
      if last.reading.metric == metric && last.event.Some? then [Shape(last.event.value)] else []
  }

  function LastLevel(levels: seq<Level>): Level {
    if levels == [] then InRange else levels[|levels| - 1]
  }

  /** Where a sequence of levels changes, starting from InRange, and what each change is called. */
  function ChangePoints(levels: seq<Level>): seq<Emission> {
    if levels == [] then []
    else
      var before := LastLevel(levels[..|levels| - 1]);
      var now := LastLevel(levels);
      ChangePoints(levels[..|levels| - 1]) +
      if now == before then []
      else if now.Violating? then [Raised(now.kind)]
      else [Cleared(before.kind)]
  }

  // ---- what every run keeps

  /** A metric's events are the change points of its levels, and its stored state is the last of them. */
  ghost predicate EdgesOf(trace: seq<Step>, state: map<string, Level>, metric: string) {
    Emissions(trace, metric) == ChangePoints(Levels(trace, metric)) &&
    LevelOf(state, metric) == LastLevel(Levels(trace, metric))
  }

  ghost predicate EdgeTriggered(w: World) {
    forall metric: string :: EdgesOf(w.trace, w.alarm.state, metric)
  }

  /** Row k was decided by consultation k of the cap, or by none if nobody is to be notified. */
  ghost predicate RuledByCap(notifiers: nat, w: World) {
    && w.alarm.counter == CounterAfter(w.checks)
    && (if notifiers > 0 then |w.checks| == |w.ruled| else w.checks == [])
    && forall k :: 0 <= k < |w.ruled| ==> w.ruled[k].notified == (notifiers > 0 && Allowed(w.checks, k))
  }

  lemma LevelsAppend(trace: seq<Step>, step: Step, metric: string)
    ensures Levels(trace + [step], metric) == Levels(trace, metric) +
              if step.reading.metric == metric then [Classify(step.threshold, step.reading.value)] else []
  {
    assert (trace + [step])[..|trace|] == trace;
  }

  lemma EmissionsAppend(trace: seq<Step>, step: Step, metric: string)
    ensures Emissions(trace + [step], metric) == Emissions(trace, metric) +
              if step.reading.metric == metric && step.event.Some? then [Shape(step.event.value)] else []
  {
    assert (trace + [step])[..|trace|] == trace;
  }

  lemma ChangePointsAppend(levels: seq<Level>, now: Level)
    ensures var before := LastLevel(levels);
            ChangePoints(levels + [now]) == ChangePoints(levels) +
              if now == before then [] else if now.Violating? then [Raised(now.kind)] else [Cleared(before.kind)]
    ensures LastLevel(levels + [now]) == now
  {
    assert (levels + [now])[..|levels|] == levels;
  }

  lemma TransitionKeepsEdges(trace: seq<Step>, state: map<string, Level>, r: Reading, t: Threshold, metric: string)
    requires EdgesOf(trace, state, metric)
    ensures var (state', event) := Transition(state, r.metric, t, Evaluate(t, r.value));
            EdgesOf(trace + [Step(r, t, event)], state', metric)
  {
    var (state', event) := Transition(state, r.metric, t, Evaluate(t, r.value));
    LevelsAppend(trace, Step(r, t, event), metric);
    EmissionsAppend(trace, Step(r, t, event), metric);
    if r.metric == metric {
      ChangePointsAppend(Levels(trace, metric), Classify(t, r.value));
    } else {
      assert Levels(trace, metric) + [] == Levels(trace, metric);
      assert Emissions(trace, metric) + [] == Emissions(trace, metric);
    }
  }

  lemma DoKeepsEdges(notifiers: nat, w: World, move: Move)
    requires EdgeTriggered(w)
    ensures EdgeTriggered(Do(notifiers, w, move))
  {
    var w' := Do(notifiers, w, move);
    if move.Run? && move.i < |w.goroutines| && w.goroutines[move.i].pc.Looked? {
      var pc := w.goroutines[move.i].pc;
      forall metric: string ensures EdgesOf(w'.trace, w'.alarm.state, metric) {
        TransitionKeepsEdges(w.trace, w.alarm.state, pc.reading, pc.threshold, metric);
      }
    } else {
      assert w'.trace == w.trace && w'.alarm.state == w.alarm.state;
    }
  }

  lemma DoKeepsCap(notifiers: nat, w: World, move: Move)
    requires RuledByCap(notifiers, w)
    ensures RuledByCap(notifiers, Do(notifiers, w, move))
  {
    var w' := Do(notifiers, w, move);
    if w'.checks != w.checks {
      var n := |w.checks|;
      assert w'.checks[..n] == w.checks;
      forall k | 0 <= k < n + 1 ensures w'.ruled[k].notified == Allowed(w'.checks, k) {
        if k < n {
          assert w'.checks[..k] == w.checks[..k];
        }
      }
    }
  }

  /** Edge triggering: whatever the interleaving, a metric's events are the change points of its levels. */
  lemma {:induction false} EventsAreChangePoints(notifiers: nat, maxPerDay: int, moves: seq<Move>)
    ensures EdgeTriggered(After(notifiers, Fresh(maxPerDay), moves))
  {
    if moves != [] {
      var front := moves[..|moves| - 1];
      EventsAreChangePoints(notifiers, maxPerDay, front);
      DoKeepsEdges(notifiers, After(notifiers, Fresh(maxPerDay), front), moves[|moves| - 1]);
    }
  }

  /** Whether an emission may come next: a recovery answers the alert just before it, an alert is news. */
  predicate MayFollow(before: seq<Emission>, e: Emission) {
    match e
    case Cleared(kind) => before != [] && before[|before| - 1] == Raised(kind)
    case Raised(kind) => before == [] || before[|before| - 1] != Raised(kind)
  }

  ghost predicate Alternates(es: seq<Emission>) {
    forall i :: 0 <= i < |es| ==> MayFollow(es[..i], es[i])
  }

  predicate EndsAt(es: seq<Emission>, level: Level) {
    match level
    case InRange => es == [] || es[|es| - 1].Cleared?
    case Violating(kind) => es != [] && es[|es| - 1] == Raised(kind)
  }

  lemma {:induction false} ChangePointsAlternate(levels: seq<Level>)
    ensures Alternates(ChangePoints(levels))
    ensures EndsAt(ChangePoints(levels), LastLevel(levels))
  {
    if levels != [] {
      var front := levels[..|levels| - 1];
      ChangePointsAlternate(front);
      var es, before := ChangePoints(levels), ChangePoints(front);
      if es != before {
        assert es[..|before|] == before;
        assert MayFollow(before, es[|before|]);
        forall i | 0 <= i < |es| ensures MayFollow(es[..i], es[i]) {
          if i < |before| {
            assert es[..i] == before[..i];
          }
        }
      }
    }
  }

  /** A recovery answers the alert just before it, and two alerts in a row differ in kind. */
  lemma AlertsAlternate(notifiers: nat, maxPerDay: int, moves: seq<Move>, metric: string)
    ensures Alternates(Emissions(After(notifiers, Fresh(maxPerDay), moves).trace, metric))
  {
    var trace := After(notifiers, Fresh(maxPerDay), moves).trace;
    EventsAreChangePoints(notifiers, maxPerDay, moves);
    assert EdgesOf(trace, After(notifiers, Fresh(maxPerDay), moves).alarm.state, metric);
    ChangePointsAlternate(Levels(trace, metric));
  }

  /** Every interleaving consults the cap as one sequence, so the laws of Alerts.Allowed govern it. */
  lemma {:induction false} CapUnderInterleaving(notifiers: nat, maxPerDay: int, moves: seq<Move>)
    ensures RuledByCap(notifiers, After(notifiers, Fresh(maxPerDay), moves))
  {
    if moves != [] {
      var front := moves[..|moves| - 1];
      CapUnderInterleaving(notifiers, maxPerDay, front);
      DoKeepsCap(notifiers, After(notifiers, Fresh(maxPerDay), front), moves[|moves| - 1]);
    }
  }

  // ---- the rows of alert_log, which are written in any order

  function Carries(pc: Pc, row: LogRow): nat {
    if pc == Writing(row) then 1 else 0
  }

  /** How many goroutines have decided on this very row and not written it yet. */
  function InHand(gs: seq<Goroutine>, row: LogRow): nat {
    if gs == [] then 0 else InHand(gs[..|gs| - 1], row) + Carries(gs[|gs| - 1].pc, row)
  }

  lemma {:induction false} InHandUpdate(gs: seq<Goroutine>, i: nat, g: Goroutine, row: LogRow)
    requires i < |gs|
    ensures InHand(gs[i := g], row) == InHand(gs, row) - Carries(gs[i].pc, row) + Carries(g.pc, row)
  {
    var n := |gs| - 1;
    if i == n {
      assert gs[i := g][..n] == gs[..n];
    } else {
      assert gs[i := g][..n] == gs[..n][i := g];
      InHandUpdate(gs[..n], i, g, row);
    }
  }

  ghost predicate RowBalances(w: World, row: LogRow) {
    multiset(w.alarm.log)[row] + InHand(w.goroutines, row) == multiset(w.ruled)[row]
  }

  lemma OneMore(rows: seq<LogRow>, x: LogRow, row: LogRow)
    ensures multiset(rows + [x])[row] == multiset(rows)[row] + if x == row then 1 else 0
  {
  }

  lemma DecideKeepsRows(notifiers: nat, w: World, i: nat, todo: seq<Reading>, day: int, r: Reading, e: Event,
                        row: LogRow)
    requires RowBalances(w, row) && i < |w.goroutines| && !w.goroutines[i].pc.Writing?
    ensures RowBalances(Decide(notifiers, w, i, todo, day, r, e), row)
  {
    var w' := Decide(notifiers, w, i, todo, day, r, e);
    var decided := w'.ruled[|w.ruled|];
    assert w'.ruled == w.ruled + [decided] && w'.alarm.log == w.alarm.log;
    OneMore(w.ruled, decided, row);
    InHandUpdate(w.goroutines, i, Goroutine(todo, Writing(decided)), row);
  }

  lemma WriteKeepsRows(notifiers: nat, w: World, i: nat, day: int, row: LogRow)
    requires RowBalances(w, row) && i < |w.goroutines| && w.goroutines[i].pc.Writing?
    ensures RowBalances(Do(notifiers, w, Run(i, day)), row)
  {
    var g := w.goroutines[i];
    OneMore(w.alarm.log, g.pc.row, row);
    InHandUpdate(w.goroutines, i, Goroutine(g.todo, Between), row);
  }

  lemma LookKeepsRows(notifiers: nat, w: World, i: nat, day: int, row: LogRow)
    requires RowBalances(w, row) && i < |w.goroutines|
    requires w.goroutines[i].pc.Between? || w.goroutines[i].pc.Looked?
    ensures RowBalances(Do(notifiers, w, Run(i, day)), row)
  {
    var w' := Do(notifiers, w, Run(i, day));
    assert w'.ruled == w.ruled && w'.alarm.log == w.alarm.log;
    if w' != w {
      InHandUpdate(w.goroutines, i, w'.goroutines[i], row);
    }
  }

  lemma DoKeepsRows(notifiers: nat, w: World, move: Move, row: LogRow)
    requires RowBalances(w, row)
    ensures RowBalances(Do(notifiers, w, move), row)
  {
    match move
    case Start(rs) =>
      assert (w.goroutines + [Goroutine(rs, Between)])[..|w.goroutines|] == w.goroutines;
    case Reload(_, _) =>
    case Run(i, day) =>
      if i < |w.goroutines| {
        var g := w.goroutines[i];
        match g.pc
        case Firing(r, e) => DecideKeepsRows(notifiers, w, i, g.todo, day, r, e, row);
        case Writing(_) => WriteKeepsRows(notifiers, w, i, day, row);
        case _ => LookKeepsRows(notifiers, w, i, day, row);
      }
  }

  lemma {:induction false} RowsBalance(notifiers: nat, maxPerDay: int, moves: seq<Move>, row: LogRow)
    ensures RowBalances(After(notifiers, Fresh(maxPerDay), moves), row)
  {
    if moves != [] {
      var front := moves[..|moves| - 1];
      RowsBalance(notifiers, maxPerDay, front, row);
      DoKeepsRows(notifiers, After(notifiers, Fresh(maxPerDay), front), moves[|moves| - 1], row);
    }
  }

  /**
   * The notified column of alert_log tells the truth, though rows are written after the lock is released and in any
   * order: the rows written and those still in a goroutine's hands are, as a multiset, the rows decided on; and row k
   * of those is marked exactly if a notifier is configured and consultation k of the cap, made for its own event, was
   * allowed.
   */
  lemma NotifiedFlagsTrue(notifiers: nat, maxPerDay: int, moves: seq<Move>)
    ensures var w := After(notifiers, Fresh(maxPerDay), moves);
            && (forall row :: multiset(w.alarm.log)[row] + InHand(w.goroutines, row) == multiset(w.ruled)[row])
            && (notifiers > 0 ==> |w.checks| == |w.ruled|)
            && forall k :: 0 <= k < |w.ruled| ==> w.ruled[k].notified == (notifiers > 0 && Allowed(w.checks, k))
  {
    var w := After(notifiers, Fresh(maxPerDay), moves);
    CapUnderInterleaving(notifiers, maxPerDay, moves);
    forall row ensures multiset(w.alarm.log)[row] + InHand(w.goroutines, row) == multiset(w.ruled)[row] {
      RowsBalance(notifiers, maxPerDay, moves, row);
    }
  }

  // ---- the daily cap over runs

  /** The clock does not step back a day. */
  ghost predicate ClockForward(moves: seq<Move>) {
    forall i, j :: 0 <= i < j < |moves| && moves[i].Run? && moves[j].Run? ==> moves[i].day <= moves[j].day
  }

  /** Every cap that a reload brings into force is one of these. */
  ghost predicate CapsAmong(moves: seq<Move>, ok: int -> bool) {
    forall i :: 0 <= i < |moves| && moves[i].Reload? && moves[i].cap.Some? && moves[i].cap.value >= 0 ==>
      ok(moves[i].cap.value)
  }

  lemma DoChecks(notifiers: nat, w: World, move: Move)
    ensures var w' := Do(notifiers, w, move);
            w'.checks == w.checks || (move.Run? && w'.checks == w.checks + [CapCheck(move.day, w.alarm.maxPerDay)])
  {
  }

  ghost predicate UpTo(checks: seq<CapCheck>, day: int) {
    forall k :: 0 <= k < |checks| ==> checks[k].day <= day
  }

  lemma {:induction false} ChecksUpTo(notifiers: nat, maxPerDay: int, moves: seq<Move>, day: int)
    requires forall i :: 0 <= i < |moves| && moves[i].Run? ==> moves[i].day <= day
    ensures UpTo(After(notifiers, Fresh(maxPerDay), moves).checks, day)
  {
    if moves != [] {
      var front := moves[..|moves| - 1];
      ChecksUpTo(notifiers, maxPerDay, front, day);
      DoChecks(notifiers, After(notifiers, Fresh(maxPerDay), front), moves[|moves| - 1]);
    }
  }

  lemma {:induction false} ChecksInOrder(notifiers: nat, maxPerDay: int, moves: seq<Move>)
    requires ClockForward(moves)
    ensures InDayOrder(After(notifiers, Fresh(maxPerDay), moves).checks)
  {
    if moves != [] {
      var front, last := moves[..|moves| - 1], moves[|moves| - 1];
      ChecksInOrder(notifiers, maxPerDay, front);
      var w := After(notifiers, Fresh(maxPerDay), front);
      DoChecks(notifiers, w, last);
      if last.Run? {
        ChecksUpTo(notifiers, maxPerDay, front, last.day);
        assert UpTo(w.checks, last.day);
      }
    }
  }

  lemma {:induction false} CapsInForce(notifiers: nat, maxPerDay: int, moves: seq<Move>, ok: int -> bool)
    requires ok(maxPerDay) && CapsAmong(moves, ok)
    ensures var w := After(notifiers, Fresh(maxPerDay), moves);
            ok(w.alarm.maxPerDay) && forall k :: 0 <= k < |w.checks| ==> ok(w.checks[k].maxPerDay)
  {
    if moves != [] {
      CapsInForce(notifiers, maxPerDay, moves[..|moves| - 1], ok);
    }
  }

  /** Of the first |checks| rows decided on, those marked notified on one day. */
  function NotifiedOn(checks: seq<CapCheck>, ruled: seq<LogRow>, day: int): nat
    requires |checks| == |ruled|
  {
    if checks == [] then 0
    else
      var n := |checks| - 1;
      NotifiedOn(checks[..n], ruled[..n], day) + if checks[n].day == day && ruled[n].notified then 1 else 0
  }

  lemma {:induction false} NotifiedIsAllowed(checks: seq<CapCheck>, ruled: seq<LogRow>, day: int)
    requires |checks| == |ruled|
    requires forall k :: 0 <= k < |checks| ==> ruled[k].notified == Allowed(checks, k)
    ensures NotifiedOn(checks, ruled, day) == AllowedOn(checks, day)
  {
    if checks != [] {
      var n := |checks| - 1;
      forall k | 0 <= k < n ensures ruled[..n][k].notified == Allowed(checks[..n], k) {
        assert checks[..n][..k] == checks[..k];
      }
      NotifiedIsAllowed(checks[..n], ruled[..n], day);
    }
  }

  /**
   * Daily cap over runs: with a notifier, a clock that does not step back a day and one positive cap in force, exactly
   * the first `cap` dispatches of a day are marked notified, whatever the interleaving.
   */
  lemma DailyCap(notifiers: nat, cap: int, moves: seq<Move>, day: int)
    requires notifiers > 0 && cap > 0 && ClockForward(moves) && CapsAmong(moves, c => c == cap)
    ensures var w := After(notifiers, Fresh(cap), moves);
            && |w.checks| == |w.ruled|
            && (forall k :: 0 <= k < |w.checks| ==>
                  (w.ruled[k].notified <==> ChecksOn(w.checks[..k], w.checks[k].day) < cap))
            && NotifiedOn(w.checks, w.ruled, day)
               == if ChecksOn(w.checks, day) < cap then ChecksOn(w.checks, day) else cap
  {
    var w := After(notifiers, Fresh(cap), moves);
    CapUnderInterleaving(notifiers, cap, moves);
    CapsInForce(notifiers, cap, moves, c => c == cap);
    ChecksInOrder(notifiers, cap, moves);
    OrderedDaysTogether(w.checks);
    NotifiedIsAllowed(w.checks, w.ruled, day);
    FixedCapTotal(w.checks, cap, day);
    forall k | 0 <= k < |w.checks|
      ensures w.ruled[k].notified <==> ChecksOn(w.checks[..k], w.checks[k].day) < cap
    {
      FixedCap(w.checks, cap, k);
    }
  }

  /** While the admin moves a positive cap about, a day is granted no more than the largest it was under. */
  lemma MovingCap(notifiers: nat, maxPerDay: int, moves: seq<Move>, day: int)
    requires notifiers > 0 && maxPerDay > 0 && ClockForward(moves) && CapsAmong(moves, c => c > 0)
    ensures var w := After(notifiers, Fresh(maxPerDay), moves);
            && |w.checks| == |w.ruled|
            && NotifiedOn(w.checks, w.ruled, day) <= LargestCapOn(w.checks, day)
  {
    var w := After(notifiers, Fresh(maxPerDay), moves);
    CapUnderInterleaving(notifiers, maxPerDay, moves);
    CapsInForce(notifiers, maxPerDay, moves, c => c > 0);
    ChecksInOrder(notifiers, maxPerDay, moves);
    OrderedDaysTogether(w.checks);
    NotifiedIsAllowed(w.checks, w.ruled, day);
    VaryingCap(w.checks, day);
  }

  // ---- no event is lost or logged twice

  datatype Occurrence = Occurrence(reading: Reading, event: Event)

  function Emitted(trace: seq<Step>, o: Occurrence): nat {
    if trace == [] then 0
    else
      var last := trace[|trace| - 1];
      Emitted(trace[..|trace| - 1], o) +
      if last.event.Some? && Occurrence(last.reading, last.event.value) == o then 1 else 0
  }

  function Logged(log: seq<LogRow>, o: Occurrence): nat {
    if log == [] then 0
    else
      var last := log[|log| - 1];
      Logged(log[..|log| - 1], o) + if Occurrence(last.reading, last.event) == o then 1 else 0
  }

  function Holds(pc: Pc, o: Occurrence): nat {
    match pc
    case Firing(r, e) => if Occurrence(r, e) == o then 1 else 0
    case Writing(row) => if Occurrence(row.reading, row.event) == o then 1 else 0
    case _ => 0
  }

  function Unlogged(gs: seq<Goroutine>, o: Occurrence): nat {
    if gs == [] then 0 else Unlogged(gs[..|gs| - 1], o) + Holds(gs[|gs| - 1].pc, o)
  }

  lemma {:induction false} UnloggedUpdate(gs: seq<Goroutine>, i: nat, g: Goroutine, o: Occurrence)
    requires i < |gs|
    ensures Unlogged(gs[i := g], o) == Unlogged(gs, o) - Holds(gs[i].pc, o) + Holds(g.pc, o)
  {
    var n := |gs| - 1;
    if i == n {
      assert gs[i := g][..n] == gs[..n];
    } else {
      assert gs[i := g][..n] == gs[..n][i := g];
      UnloggedUpdate(gs[..n], i, g, o);
    }
  }

  ghost predicate Accounted(w: World, o: Occurrence) {
    Emitted(w.trace, o) == Logged(w.alarm.log, o) + Unlogged(w.goroutines, o)
  }

  lemma LoggedAppend(log: seq<LogRow>, row: LogRow, o: Occurrence)
    ensures Logged(log + [row], o) == Logged(log, o) + if Occurrence(row.reading, row.event) == o then 1 else 0
  {
    assert (log + [row])[..|log|] == log;
  }

  lemma EmittedAppend(trace: seq<Step>, step: Step, o: Occurrence)
    ensures Emitted(trace + [step], o) == Emitted(trace, o) +
              if step.event.Some? && Occurrence(step.reading, step.event.value) == o then 1 else 0
  {
    assert (trace + [step])[..|trace|] == trace;
  }

  lemma LookConservesEvents(notifiers: nat, w: World, i: nat, day: int, o: Occurrence)
    requires Accounted(w, o) && i < |w.goroutines|
    requires w.goroutines[i].pc.Between? || w.goroutines[i].pc.Looked?
    ensures Accounted(Do(notifiers, w, Run(i, day)), o)
  {
    var w' := Do(notifiers, w, Run(i, day));
    assert w'.alarm.log == w.alarm.log;
    if w' != w {
      UnloggedUpdate(w.goroutines, i, w'.goroutines[i], o);
      if w.goroutines[i].pc.Looked? {
        EmittedAppend(w.trace, w'.trace[|w.trace|], o);
      }
    }
  }

  lemma FireConservesEvents(notifiers: nat, w: World, i: nat, day: int, o: Occurrence)
    requires Accounted(w, o) && i < |w.goroutines|
    requires w.goroutines[i].pc.Firing? || w.goroutines[i].pc.Writing?
    ensures Accounted(Do(notifiers, w, Run(i, day)), o)
  {
    var w' := Do(notifiers, w, Run(i, day));
    assert w'.trace == w.trace;
    UnloggedUpdate(w.goroutines, i, w'.goroutines[i], o);
    if w.goroutines[i].pc.Writing? {
      LoggedAppend(w.alarm.log, w.goroutines[i].pc.row, o);
    }
  }

  lemma DoConservesEvents(notifiers: nat, w: World, move: Move, o: Occurrence)
    requires Accounted(w, o)
    ensures Accounted(Do(notifiers, w, move), o)
  {
    match move
    case Start(rs) =>
      assert (w.goroutines + [Goroutine(rs, Between)])[..|w.goroutines|] == w.goroutines;
    case Reload(_, _) =>
    case Run(i, day) =>
      if i < |w.goroutines| {
        if w.goroutines[i].pc.Between? || w.goroutines[i].pc.Looked? {
          LookConservesEvents(notifiers, w, i, day, o);
        } else {
          FireConservesEvents(notifiers, w, i, day, o);
        }
      }
  }

  /** Every emitted event is in alert_log once, or still in the hands of the goroutine that emitted it. */
  lemma {:induction false} EventsConserved(notifiers: nat, maxPerDay: int, moves: seq<Move>, o: Occurrence)
    ensures var w := After(notifiers, Fresh(maxPerDay), moves);
            Emitted(w.trace, o) == Logged(w.alarm.log, o) + Unlogged(w.goroutines, o)
  {
    if moves != [] {
      var front := moves[..|moves| - 1];
      EventsConserved(notifiers, maxPerDay, front, o);
      DoConservesEvents(notifiers, After(notifiers, Fresh(maxPerDay), front), moves[|moves| - 1], o);
    }
  }
}
