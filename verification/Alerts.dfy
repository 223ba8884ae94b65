/** The alerter: edge-triggered alarm state per metric, and the daily notification cap. */
module Alerts {
  import opened Options

  datatype Kind = Min | Max

  // The stored alarm state of a metric: "" | "min" | "max".
  datatype Level = InRange | Violating(kind: Kind)

  datatype Threshold = Threshold(min: Option<real>, max: Option<real>, enabled: bool)

  datatype Cross = Cross(kind: Kind, bound: real)

  datatype Event = Alert(kind: Kind, bound: real) | Recovered(kind: Kind, bound: real)

  /** Where a value stands against a threshold, said without the order of tests Evaluate uses. */
  function Classify(t: Threshold, value: real): Level {
    var above := t.enabled && t.max.Some? && value > t.max.value;
    var below := t.enabled && t.min.Some? && value < t.min.value;
    if above then Violating(Max) else if below then Violating(Min) else InRange
  }

  /** A crossing is reported exactly when the value is out of range, with the bound that it broke. */
  function Evaluate(t: Threshold, value: real): (cross: Option<Cross>)
    ensures cross.None? <==> Classify(t, value) == InRange
    ensures cross.Some? ==> Classify(t, value) == Violating(cross.value.kind)
    ensures cross.Some? && cross.value.kind.Max? ==> t.max == Some(cross.value.bound) && value > cross.value.bound
    ensures cross.Some? && cross.value.kind.Min? ==> t.min == Some(cross.value.bound) && value < cross.value.bound
  {
    if !t.enabled then None
    else if t.max.Some? && value > t.max.value then Some(Cross(Max, t.max.value))
    else if t.min.Some? && value < t.min.value then Some(Cross(Min, t.min.value))
    else None
  }

  function LevelOf(state: map<string, Level>, metric: string): Level {
    if metric in state then state[metric] else InRange
  }

  function BoundValue(t: Threshold, kind: Kind): real {
    if kind.Max? && t.max.Some? then t.max.value
    else if kind.Min? && t.min.Some? then t.min.value
    else 0.0
  }

  /** One atomic transition: the new alarm state, and the event to emit if the state changed. */
  function Transition(state: map<string, Level>, metric: string, t: Threshold, cross: Option<Cross>)
    : (map<string, Level>, Option<Event>)
  {
    var prev := LevelOf(state, metric);
    if cross.Some? && prev != Violating(cross.value.kind) then
      (state[metric := Violating(cross.value.kind)], Some(Alert(cross.value.kind, cross.value.bound)))
    else if cross.None? && prev != InRange then
      (state[metric := InRange], Some(Recovered(prev.kind, BoundValue(t, prev.kind))))
    else
      (state, None)
  }

  // ---- the daily cap

  datatype Counter = Counter(day: Option<int>, count: nat)

  // One consultation of the cap: the UTC day it happens on and the cap then in force.
  datatype CapCheck = CapCheck(day: int, maxPerDay: int)

  function AllowNotify(c: Counter, check: CapCheck): (Counter, bool) {
    if check.maxPerDay <= 0 then (c, true)
    else
      var today := if c.day == Some(check.day) then c else Counter(Some(check.day), 0);
      if today.count >= check.maxPerDay then (today, false)
      else (today.(count := today.count + 1), true)
  }

  const NEVER_NOTIFIED := Counter(None, 0)

  function CounterAfter(checks: seq<CapCheck>): Counter {
    if checks == [] then NEVER_NOTIFIED
    else AllowNotify(CounterAfter(checks[..|checks| - 1]), checks[|checks| - 1]).0
  }

  /** Whether the k-th consultation of a sequence is allowed. */
  predicate Allowed(checks: seq<CapCheck>, k: nat)
    requires k < |checks|
  {
    AllowNotify(CounterAfter(checks[..k]), checks[k]).1
  }

  function ChecksOn(checks: seq<CapCheck>, day: int): nat {
    if checks == [] then 0
    else ChecksOn(checks[..|checks| - 1], day) + if checks[|checks| - 1].day == day then 1 else 0
  }

  function AllowedOn(checks: seq<CapCheck>, day: int): nat {
    if checks == [] then 0
    else
      var n := |checks| - 1;
      AllowedOn(checks[..n], day) + if checks[n].day == day && Allowed(checks, n) then 1 else 0
  }

  /** Each day's consultations come together, as they do when the clock never steps back a day. */
  predicate DaysTogether(checks: seq<CapCheck>) {
    forall i, j, k :: 0 <= i < j < k < |checks| && checks[i].day == checks[k].day ==> checks[j].day == checks[i].day
  }

  ghost predicate InDayOrder(checks: seq<CapCheck>) {
    forall i, j :: 0 <= i < j < |checks| ==> checks[i].day <= checks[j].day
  }

  lemma OrderedDaysTogether(checks: seq<CapCheck>)
    requires InDayOrder(checks)
    ensures DaysTogether(checks)
  {
    forall i, j, k | 0 <= i < j < k < |checks| && checks[i].day == checks[k].day
      ensures checks[j].day == checks[i].day
    {
      assert checks[i].day <= checks[j].day <= checks[k].day;
    }
  }

  lemma {:induction false} NoneOn(checks: seq<CapCheck>, day: int)
    requires forall i :: 0 <= i < |checks| ==> checks[i].day != day
    ensures ChecksOn(checks, day) == 0 && AllowedOn(checks, day) == 0
  {
    if checks != [] {
      NoneOn(checks[..|checks| - 1], day);
    }
  }

  /** A day that is not the day of the last consultation does not come back. */
  lemma DayChanged(checks: seq<CapCheck>)
    requires |checks| >= 2 && DaysTogether(checks)
    requires checks[|checks| - 2].day != checks[|checks| - 1].day
    ensures forall i :: 0 <= i < |checks| - 1 ==> checks[i].day != checks[|checks| - 1].day
  {
    var n := |checks| - 1;
    forall i | 0 <= i < n ensures checks[i].day != checks[n].day {
      if i < n - 1 && checks[i].day == checks[n].day {
        assert false;
      }
    }
  }

  /** How many of the last consultations, without a break, were on this day. */
  function Streak(checks: seq<CapCheck>, day: int): nat {
    if checks == [] || checks[|checks| - 1].day != day then 0
    else 1 + Streak(checks[..|checks| - 1], day)
  }

  /** Some consultation was on this day and a later one was not. */
  predicate Left(checks: seq<CapCheck>, day: int) {
    exists i, j :: 0 <= i < j < |checks| && checks[i].day == day && checks[j].day != day
  }

  lemma {:induction false} ConsultedOn(checks: seq<CapCheck>, day: int)
    ensures ChecksOn(checks, day) > 0 <==> exists i :: 0 <= i < |checks| && checks[i].day == day
  {
    if checks != [] {
      ConsultedOn(checks[..|checks| - 1], day);
      assert checks[|checks| - 1].day == day ==> exists i :: 0 <= i < |checks| && checks[i].day == day;
    }
  }

  /** A day's consultations are one streak exactly while the day has not been left. */
  lemma {:induction false} StreakIsAll(checks: seq<CapCheck>, day: int)
    ensures Streak(checks, day) <= ChecksOn(checks, day)
    ensures Streak(checks, day) == ChecksOn(checks, day) <==> !Left(checks, day)
  {
    if checks != [] {
      var n := |checks| - 1;
      var front := checks[..n];
      StreakIsAll(front, day);
      if checks[n].day == day {
        assert Left(front, day) <==> Left(checks, day);
      } else {
        ConsultedOn(front, day);
        if i :| 0 <= i < |front| && front[i].day == day {
          assert checks[i].day == day && checks[n].day != day;
        }
      }
    }
  }

  ghost predicate CapIs(checks: seq<CapCheck>, cap: int) {
    forall i :: 0 <= i < |checks| ==> checks[i].maxPerDay == cap
  }

  /** With a fixed cap the counter holds the current streak, cut at the cap. */
  lemma {:induction false} CounterIsStreak(checks: seq<CapCheck>, cap: int)
    requires cap > 0 && checks != [] && CapIs(checks, cap)
    ensures var today := checks[|checks| - 1].day;
            var used := Streak(checks, today);
            CounterAfter(checks) == Counter(Some(today), if used < cap then used else cap)
  {
    var front := checks[..|checks| - 1];
    if front != [] {
      CounterIsStreak(front, cap);
    }
  }

  lemma AllowedIffStreak(checks: seq<CapCheck>, cap: int, k: nat)
    requires cap > 0 && k < |checks| && CapIs(checks, cap)
    ensures Allowed(checks, k) <==> Streak(checks[..k], checks[k].day) < cap
  {
    if k > 0 {
      CounterIsStreak(checks[..k], cap);
    }
  }

  /** Daily cap: exactly the first `cap` consultations of a day are allowed. */
  lemma FixedCap(checks: seq<CapCheck>, cap: int, k: nat)
    requires cap > 0 && k < |checks| && DaysTogether(checks) && CapIs(checks, cap)
    ensures Allowed(checks, k) <==> ChecksOn(checks[..k], checks[k].day) < cap
  {
    AllowedIffStreak(checks, cap, k);
    StreakIsAll(checks[..k], checks[k].day);
  }

  /** So a day with n consultations has min(cap, n) notifications. */
  lemma {:induction false} FixedCapTotal(checks: seq<CapCheck>, cap: int, day: int)
    requires cap > 0 && DaysTogether(checks) && CapIs(checks, cap)
    ensures AllowedOn(checks, day) == if ChecksOn(checks, day) < cap then ChecksOn(checks, day) else cap
  {
    if checks != [] {
      var n := |checks| - 1;
      assert DaysTogether(checks[..n]);
      FixedCapTotal(checks[..n], cap, day);
      FixedCap(checks, cap, n);
    }
  }

  function LargestCapOn(checks: seq<CapCheck>, day: int): int {
    if checks == [] then 0
    else
      var c := checks[|checks| - 1];
      var before := LargestCapOn(checks[..|checks| - 1], day);
      if c.day == day && c.maxPerDay > before then c.maxPerDay else before
  }

  lemma {:induction false} CounterUnderAnyCap(checks: seq<CapCheck>)
    requires checks != [] && DaysTogether(checks)
    requires forall i :: 0 <= i < |checks| ==> checks[i].maxPerDay > 0
    ensures var today := checks[|checks| - 1].day;
            CounterAfter(checks) == Counter(Some(today), AllowedOn(checks, today))
  {
    var n := |checks| - 1;
    var front := checks[..n];
    if front != [] {
      assert DaysTogether(front);
      CounterUnderAnyCap(front);
      if checks[n - 1].day != checks[n].day {
        DayChanged(checks);
        NoneOn(front, checks[n].day);
      }
    }
  }

  /** However the admin moves a positive cap, a day never sees more than the largest cap it was under. */
  lemma {:induction false} VaryingCap(checks: seq<CapCheck>, day: int)
    requires DaysTogether(checks)
    requires forall i :: 0 <= i < |checks| ==> checks[i].maxPerDay > 0
    ensures AllowedOn(checks, day) <= LargestCapOn(checks, day)
  {
    if checks != [] {
      var n := |checks| - 1;
      var front := checks[..n];
      assert DaysTogether(front);
      VaryingCap(front, day);
      if checks[n].day == day && front != [] {
        CounterUnderAnyCap(front);
        if checks[n - 1].day != day {
          DayChanged(checks);
          NoneOn(front, day);
        }
      }
    }
  }

  /** Consultation k is allowed exactly if its day has notifications left. */
  predicate KeptAt(checks: seq<CapCheck>, cap: int, k: nat)
    requires k < |checks|
  {
    Allowed(checks, k) <==> ChecksOn(checks[..k], checks[k].day) < cap
  }

  ghost predicate CapKept(checks: seq<CapCheck>, cap: int) {
    forall k :: 0 <= k < |checks| ==> KeptAt(checks, cap, k)
  }

  /** If consultation k is on a day that comes back, the day is not over its cap with it. */
  predicate WithinAt(checks: seq<CapCheck>, cap: int, k: nat)
    requires k < |checks|
  {
    Left(checks[..k], checks[k].day) ==> ChecksOn(checks[..k + 1], checks[k].day) <= cap
  }

  lemma WithinIsKept(checks: seq<CapCheck>, cap: int, k: nat)
    requires cap > 0 && k < |checks| && CapIs(checks, cap) && WithinAt(checks, cap, k)
    ensures KeptAt(checks, cap, k)
  {
    assert checks[..k + 1][..k] == checks[..k];
    AllowedIffStreak(checks, cap, k);
    StreakIsAll(checks[..k], checks[k].day);
  }

  /** A day that comes back with its cap used up is let past it, then or since it came back. */
  lemma {:induction false} ReturningDayExceeds(checks: seq<CapCheck>, cap: int, k: nat) returns (m: nat)
    requires cap > 0 && k < |checks| && CapIs(checks, cap)
    requires Left(checks[..k], checks[k].day) && ChecksOn(checks[..k], checks[k].day) >= cap
    ensures m <= k && Allowed(checks, m) && ChecksOn(checks[..m], checks[m].day) >= cap
  {
    AllowedIffStreak(checks, cap, k);
    StreakIsAll(checks[..k], checks[k].day);
    m := k;
    if Streak(checks[..k], checks[k].day) >= cap {
      assert checks[..k][..k - 1] == checks[..k - 1];
      assert checks[k - 1].day == checks[k].day;
      StreakIsAll(checks[..k - 1], checks[k].day);
      m := ReturningDayExceeds(checks, cap, k - 1);
    }
  }

  /**
   * When the daily cap is kept, for any cap: exactly if no day that comes back after another one is consulted more
   * often than the cap in all. The counter forgets a day as soon as it sees another.
   */
  lemma CapKeptIff(checks: seq<CapCheck>, cap: int)
    requires cap > 0 && CapIs(checks, cap)
    ensures CapKept(checks, cap) <==> forall k :: 0 <= k < |checks| ==> WithinAt(checks, cap, k)
  {
    forall k | 0 <= k < |checks| && WithinAt(checks, cap, k) ensures KeptAt(checks, cap, k) {
      WithinIsKept(checks, cap, k);
    }
    forall k | 0 <= k < |checks| && !WithinAt(checks, cap, k) ensures !CapKept(checks, cap) {
      assert checks[..k + 1][..k] == checks[..k];
      var m := ReturningDayExceeds(checks, cap, k);
      assert !KeptAt(checks, cap, m);
    }
  }

  /** It does fail: under a cap of one, a day that comes back is notified twice. */
  lemma ReturningDayFails()
    ensures !CapKept([CapCheck(0, 1), CapCheck(1, 1), CapCheck(0, 1)], 1)
  {
    var checks := [CapCheck(0, 1), CapCheck(1, 1), CapCheck(0, 1)];
    var before := checks[..2];
    assert before[..1] == [CapCheck(0, 1)] && [CapCheck(0, 1)][..0] == [];
    assert CounterAfter([CapCheck(0, 1)]) == Counter(Some(0), 1);
    assert Allowed(checks, 2) && ChecksOn(before, 0) == 1;
    assert !KeptAt(checks, 1, 2);
  }
}
