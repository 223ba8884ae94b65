/** The alerter object, and any interleaving of concurrent Check calls and Reload. */
module Alerter {
  import opened Options
  import opened Readings
  import opened Alerts

  datatype LogRow = LogRow(reading: Reading, event: Event, notified: bool)

  // Everything the alerter's mutex guards, and the alert_log rows written so far.
  datatype Alarm = Alarm(
    thresholds: map<string, Threshold>,
    maxPerDay: int,
    state: map<string, Level>,
    counter: Counter,
    log: seq<LogRow>)

  function Reloaded(a: Alarm, thresholds: map<string, Threshold>, cap: Option<int>): Alarm {
    a.(thresholds := thresholds,
       maxPerDay := if cap.Some? && cap.value >= 0 then cap.value else a.maxPerDay)
  }

  function Fired(a: Alarm, notifiers: nat, day: int, r: Reading, e: Event): Alarm {
    if notifiers == 0 then a.(log := a.log + [LogRow(r, e, false)])
    else
      var (counter, notified) := AllowNotify(a.counter, CapCheck(day, a.maxPerDay));
      a.(counter := counter, log := a.log + [LogRow(r, e, notified)])
  }

  function CheckedOne(a: Alarm, notifiers: nat, day: int, r: Reading): Alarm {
    if r.metric !in a.thresholds then a
    else
      var t := a.thresholds[r.metric];
      var (state, event) := Transition(a.state, r.metric, t, Evaluate(t, r.value));
      if event.None? then a.(state := state) else Fired(a.(state := state), notifiers, day, r, event.value)
  }

  /** One uninterrupted Check; clock(i) is the UTC day on which reading i is handled. */
  function Checked(a: Alarm, notifiers: nat, clock: nat -> int, rs: seq<Reading>): Alarm {
    if rs == [] then a
    else CheckedOne(Checked(a, notifiers, clock, rs[..|rs| - 1]), notifiers, clock(|rs| - 1), rs[|rs| - 1])
  }

  class Alerter {
    const notifiers: nat
    var thresholds: map<string, Threshold>
    var maxPerDay: int
    var state: map<string, Level>
    var notifyDay: Option<int>
    var notifyN: nat
    var log: seq<LogRow>

    function Snapshot(): Alarm
      reads this
    {
      Alarm(thresholds, maxPerDay, state, Counter(notifyDay, notifyN), log)
    }

    constructor (defaultMaxPerDay: int, notifiers: nat)
      ensures Snapshot() == Alarm(map[], defaultMaxPerDay, map[], NEVER_NOTIFIED, [])
      ensures this.notifiers == notifiers
    {
      this.notifiers := notifiers;
      thresholds, maxPerDay, state := map[], defaultMaxPerDay, map[];
      notifyDay, notifyN, log := None, 0, [];
    }

    method Reload(loaded: map<string, Threshold>, cap: Option<int>)
      modifies this
      ensures Snapshot() == Reloaded(old(Snapshot()), loaded, cap)
    {
      thresholds := loaded;
      if cap.Some? && cap.value >= 0 {
        maxPerDay := cap.value;
      }
    }

    /** An event is emitted exactly when the level changes, and the state then holds the reading's level. */
    method MakeTransition(metric: string, t: Threshold, value: real) returns (event: Option<Event>)
      modifies this`state
      ensures (state, event) == Transition(old(state), metric, t, Evaluate(t, value))
      ensures LevelOf(state, metric) == Classify(t, value)
      ensures forall m :: m != metric ==> LevelOf(state, m) == LevelOf(old(state), m)
      ensures event.Some? <==> LevelOf(old(state), metric) != Classify(t, value)
    {
      var cross := Evaluate(t, value);
      var prev := LevelOf(state, metric);
      event := None;
      if cross.Some? && prev != Violating(cross.value.kind) {
        state := state[metric := Violating(cross.value.kind)];
        event := Some(Alert(cross.value.kind, cross.value.bound));
      } else if cross.None? && prev != InRange {
        state := state[metric := InRange];
        event := Some(Recovered(prev.kind, BoundValue(t, prev.kind)));
      }
    }

    method Allow(today: int) returns (allowed: bool)
      modifies this`notifyDay, this`notifyN
      ensures (Counter(notifyDay, notifyN), allowed) ==
              AllowNotify(Counter(old(notifyDay), old(notifyN)), CapCheck(today, maxPerDay))
    {
      if maxPerDay <= 0 {
        return true;
      }
      if notifyDay != Some(today) {
        notifyDay, notifyN := Some(today), 0;
      }
      if notifyN >= maxPerDay {
        return false;
      }
      notifyN := notifyN + 1;
      return true;
    }

    method Fire(r: Reading, e: Event, day: int)
      modifies this`notifyDay, this`notifyN, this`log
      ensures Snapshot() == Fired(old(Snapshot()), notifiers, day, r, e)
    {
      var notified := false;
      if notifiers > 0 {
        notified := Allow(day);
      }
      log := log + [LogRow(r, e, notified)];
    }

    method Check(rs: seq<Reading>, clock: nat -> int)
      modifies this
      ensures Snapshot() == Checked(old(Snapshot()), notifiers, clock, rs)
    {
      for i := 0 to |rs|
        invariant Snapshot() == Checked(old(Snapshot()), notifiers, clock, rs[..i])
      {
        assert rs[..i + 1][..i] == rs[..i];
        if rs[i].metric in thresholds {
          var t := thresholds[rs[i].metric];
          var event := MakeTransition(rs[i].metric, t, rs[i].value);
          if event.Some? {
            Fire(rs[i], event.value, clock(i));
          }
        }
      }
      assert rs[..|rs|] == rs;
    }
  }

  // ---- redelivery of a batch

  ghost predicate LevelsAgree(a: Alarm, rs: seq<Reading>) {
    forall i, j :: 0 <= i < |rs| && 0 <= j < |rs| && rs[i].metric == rs[j].metric && rs[i].metric in a.thresholds
      ==> Classify(a.thresholds[rs[i].metric], rs[i].value) == Classify(a.thresholds[rs[j].metric], rs[j].value)
  }

  ghost predicate Settled(a: Alarm, rs: seq<Reading>) {
    forall i :: 0 <= i < |rs| && rs[i].metric in a.thresholds
      ==> Classify(a.thresholds[rs[i].metric], rs[i].value) == LevelOf(a.state, rs[i].metric)
  }

  lemma {:induction false} CheckKeeps(a: Alarm, notifiers: nat, clock: nat -> int, rs: seq<Reading>)
    ensures var b := Checked(a, notifiers, clock, rs);
            b.thresholds == a.thresholds && b.maxPerDay == a.maxPerDay && |b.log| >= |a.log|
  {
    if rs != [] {
      CheckKeeps(a, notifiers, clock, rs[..|rs| - 1]);
    }
  }

  /** A check is silent exactly when every reading already stands where the stored state says. */
  lemma {:induction false} SilentWhenSettled(a: Alarm, notifiers: nat, clock: nat -> int, rs: seq<Reading>)
    ensures |Checked(a, notifiers, clock, rs).log| == |a.log| <==> Settled(a, rs)
    ensures Settled(a, rs) ==> Checked(a, notifiers, clock, rs) == a
  {
    if rs != [] {
      var n := |rs| - 1;
      var front := rs[..n];
      SilentWhenSettled(a, notifiers, clock, front);
      CheckKeeps(a, notifiers, clock, front);
      assert rs == front + [rs[n]];
      assert Settled(a, rs) <==> Settled(a, front) && Settled(a, [rs[n]]);
      assert Settled(a, [rs[n]]) <==>
             (rs[n].metric in a.thresholds ==>
                Classify(a.thresholds[rs[n].metric], rs[n].value) == LevelOf(a.state, rs[n].metric)) by {
        assert [rs[n]][0] == rs[n];
      }
    }
  }

  /** After a check, a metric's state is the level of its last reading in the batch. */
  lemma {:induction false} StateIsLastLevel(a: Alarm, notifiers: nat, clock: nat -> int, rs: seq<Reading>, i: nat)
    requires i < |rs| && rs[i].metric in a.thresholds
    requires forall j :: i < j < |rs| ==> rs[j].metric != rs[i].metric
    ensures LevelOf(Checked(a, notifiers, clock, rs).state, rs[i].metric)
         == Classify(a.thresholds[rs[i].metric], rs[i].value)
  {
    var n := |rs| - 1;
    CheckKeeps(a, notifiers, clock, rs[..n]);
    if i < n {
      StateIsLastLevel(a, notifiers, clock, rs[..n], i);
    }
  }

  lemma {:induction false} LastOfMetric(rs: seq<Reading>, i: nat) returns (k: nat)
    requires i < |rs|
    ensures i <= k < |rs| && rs[k].metric == rs[i].metric
    ensures forall j :: k < j < |rs| ==> rs[j].metric != rs[k].metric
    decreases |rs| - i
  {
    if j :| i < j < |rs| && rs[j].metric == rs[i].metric {
      k := LastOfMetric(rs, j);
    } else {
      k := i;
    }
  }

  /** Redelivering a batch at once adds no event and moves no state, exactly when the batch agrees with itself. */
  lemma RedeliverySilent(a: Alarm, notifiers: nat, clock: nat -> int, again: nat -> int, rs: seq<Reading>)
    ensures var once := Checked(a, notifiers, clock, rs);
            var twice := Checked(once, notifiers, again, rs);
            && (twice.log == once.log <==> LevelsAgree(a, rs))
            && (LevelsAgree(a, rs) ==> twice == once)
  {
    var once := Checked(a, notifiers, clock, rs);
    CheckKeeps(a, notifiers, clock, rs);
    CheckKeeps(once, notifiers, again, rs);
    SilentWhenSettled(once, notifiers, again, rs);
    forall i | 0 <= i < |rs| && rs[i].metric in a.thresholds
      ensures exists k :: 0 <= k < |rs| && rs[k].metric == rs[i].metric &&
                LevelOf(once.state, rs[i].metric) == Classify(a.thresholds[rs[k].metric], rs[k].value)
    {
      var k := LastOfMetric(rs, i);
      StateIsLastLevel(a, notifiers, clock, rs, k);
    }
  }

  /** In particular for a batch that has each metric at most once. */
  lemma RedeliverySilentOncePerMetric(a: Alarm, notifiers: nat, clock: nat -> int, again: nat -> int, rs: seq<Reading>)
    requires forall i, j :: 0 <= i < j < |rs| ==> rs[i].metric != rs[j].metric
    ensures var once := Checked(a, notifiers, clock, rs); Checked(once, notifiers, again, rs) == once
  {
    RedeliverySilent(a, notifiers, clock, again, rs);
  }
}
