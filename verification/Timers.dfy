/** Poll interval and cooldowns over whole runs: how many workers a target can gain or lose in any
    window of time, whatever the queue and the nodes do. */
module Timers {
  import opened Names
  import opened Targets

  datatype Clock = Clock(lastTick: real, lastUp: real, lastDown: real)

  /** What one engine tick did for one target: it was not due, or it ran and so many additions and
      stop calls were acknowledged. */
  datatype Outcome = NotDue | Ran(up: nat, down: nat)

  /** How a tick at time `now` may move a target's clock. */
  ghost predicate ClockStep(t: Target, s: Clock, now: real, o: Outcome, s': Clock)
  {
    if now - s.lastTick < t.pollInterval as real then o.NotDue? && s' == s
    else
      && o.Ran? && s'.lastTick == now && (o.up == 0 || o.down == 0)
      && (if o.up > 0 then o.up <= t.scaleUpStep && now - s.lastUp >= t.cooldownUp as real && s'.lastUp == now
          else s'.lastUp == s.lastUp)
      && (if o.down > 0 then
            o.down <= t.scaleDownStep && now - s.lastDown >= t.cooldownDown as real && s'.lastDown == now
          else s'.lastDown == s.lastDown)
  }

  datatype Tick = Tick(now: real, outcome: Outcome)

  /** A run of ticks with the clocks in between. Reloads that keep the target keep its clock, so they
      may happen anywhere in a run. */
  ghost predicate IsClockRun(t: Target, clocks: seq<Clock>, ticks: seq<Tick>)
  {
    |clocks| == |ticks| + 1 &&
    forall k :: 0 <= k < |ticks| ==> ClockStep(t, clocks[k], ticks[k].now, ticks[k].outcome, clocks[k + 1])
  }

  // ----- Spaced events -----

  datatype Event = Event(at: real, amount: nat)

  ghost predicate Spaced(events: seq<Event>, gap: real, step: nat)
  {
    && (forall i :: 0 <= i < |events| ==> events[i].amount <= step)
    && (forall i, j :: 0 <= i < j < |events| && events[i].amount > 0 && events[j].amount > 0 ==>
          events[i].at + gap <= events[j].at)
  }

  ghost function InWindow(events: seq<Event>, from: real, to: real): nat
  {
    if |events| == 0 then 0
    else
      var last := events[|events| - 1];
      InWindow(events[..|events| - 1], from, to) + if from <= last.at <= to then last.amount else 0
  }

  lemma {:induction false} WindowShrinks(events: seq<Event>, from: real, to: real, x: real)
    requires x <= to && forall i :: 0 <= i < |events| && events[i].amount > 0 ==> events[i].at <= x
    ensures InWindow(events, from, to) == InWindow(events, from, x)
    ensures x < from ==> InWindow(events, from, to) == 0
  {
    if |events| > 0 {
      WindowShrinks(events[..|events| - 1], from, to, x);
    }
  }

  /** How many gaps fit into a window, plus one. */
  ghost function Slots(from: real, to: real, gap: real): int
    requires gap > 0.0
  {
    ((to - from) / gap).Floor + 1
  }

  lemma DivideTimes(a: real, gap: real)
    requires gap > 0.0
    ensures a / gap * gap == a
  {
  }

  lemma Positive(p: real, q: real)
    requires p > 0.0 && q > 0.0
    ensures p * q > 0.0
  {
  }

  lemma ZeroProduct(d: real, gap: real)
    requires gap > 0.0 && d * gap == 0.0
    ensures d == 0.0
  {
    if d > 0.0 { Positive(d, gap); }
    if d < 0.0 { Positive(-d, gap); }
  }

  lemma DivideLess(x: real, y: real, a: real, b: real, gap: real)
    requires gap > 0.0 && x * gap == a && y * gap == b && b == a - gap
    ensures y == x - 1.0
  {
    assert (y - x + 1.0) * gap == y * gap - x * gap + gap;
    ZeroProduct(y - x + 1.0, gap);
  }

  lemma OneGapLess(a: real, b: real, gap: real)
    requires gap > 0.0 && b == a - gap
    ensures b / gap == a / gap - 1.0
  {
    DivideTimes(a, gap);
    DivideTimes(b, gap);
    DivideLess(a / gap, b / gap, a, b, gap);
  }

  lemma SlotsStep(from: real, to: real, gap: real)
    requires gap > 0.0
    ensures Slots(from, to - gap, gap) == Slots(from, to, gap) - 1
  {
    OneGapLess(to - from, to - gap - from, gap);
  }

  lemma SlotsMonotone(from: real, to: real, to': real, gap: real)
    requires gap > 0.0 && to <= to'
    ensures Slots(from, to, gap) <= Slots(from, to', gap)
    ensures from <= to ==> Slots(from, to, gap) >= 1
  {
    assert (to' - from) / gap - (to - from) / gap == (to' - to) / gap >= 0.0;
    if from <= to { assert (to - from) / gap >= 0.0; }
  }

  lemma {:induction false} WindowBound(events: seq<Event>, gap: real, step: nat, from: real, to: real)
    requires gap > 0.0 && from <= to && Spaced(events, gap, step)
    ensures InWindow(events, from, to) <= step * Slots(from, to, gap)
    decreases |events|
  {
    SlotsMonotone(from, to, to, gap);
    if |events| == 0 {
      assert step * Slots(from, to, gap) >= 0;
    } else {
      var front, last := events[..|events| - 1], events[|events| - 1];
      if last.amount == 0 || !(from <= last.at <= to) {
        WindowBound(front, gap, step, from, to);
      } else {
        var x := last.at - gap;
        WindowShrinks(front, from, to, x);
        if x >= from {
          WindowBound(front, gap, step, from, x);
        }
        SlotsMonotone(from, last.at, to, gap);
        SlotsStep(from, last.at, gap);
        StepCounts(step, last.amount, Slots(from, x, gap), Slots(from, to, gap));
      }
    }
  }

  lemma Scale(step: nat, a: int, b: int)
    requires a <= b
    ensures step * a <= step * b
  {
  }

  lemma StepCounts(step: nat, amount: nat, a: int, b: int)
    requires amount <= step && a + 1 <= b && b >= 1
    ensures step * a + amount <= step * b && amount <= step * b
  {
    Scale(step, a + 1, b);
    Scale(step, 1, b);
    assert step * (a + 1) == step * a + step;
  }

  // ----- From clocks to spaced events -----

  ghost function Ups(ticks: seq<Tick>): (r: seq<Event>)
    ensures |r| == |ticks|
  {
    seq(|ticks|, i requires 0 <= i < |ticks| =>
      Event(ticks[i].now, if ticks[i].outcome.Ran? then ticks[i].outcome.up else 0))
  }

  ghost function Downs(ticks: seq<Tick>): (r: seq<Event>)
    ensures |r| == |ticks|
  {
    seq(|ticks|, i requires 0 <= i < |ticks| =>
      Event(ticks[i].now, if ticks[i].outcome.Ran? then ticks[i].outcome.down else 0))
  }

  lemma {:induction false} ClocksRemember(t: Target, clocks: seq<Clock>, ticks: seq<Tick>, i: nat, k: nat)
    requires t.Valid() && IsClockRun(t, clocks, ticks) && i < k <= |ticks| && ticks[i].outcome.Ran?
    ensures ticks[i].now <= clocks[k].lastTick
    ensures ticks[i].outcome.up > 0 ==> ticks[i].now <= clocks[k].lastUp
    ensures ticks[i].outcome.down > 0 ==> ticks[i].now <= clocks[k].lastDown
    decreases k
  {
    assert ClockStep(t, clocks[k - 1], ticks[k - 1].now, ticks[k - 1].outcome, clocks[k]);
    if i < k - 1 {
      ClocksRemember(t, clocks, ticks, i, k - 1);
    }
  }

  ghost function UpGap(t: Target): real { Max(t.pollInterval, t.cooldownUp) as real }

  ghost function DownGap(t: Target): real { Max(t.pollInterval, t.cooldownDown) as real }

  lemma ClocksSpace(t: Target, clocks: seq<Clock>, ticks: seq<Tick>)
    requires t.Valid() && IsClockRun(t, clocks, ticks)
    ensures Spaced(Ups(ticks), UpGap(t), t.scaleUpStep)
    ensures Spaced(Downs(ticks), DownGap(t), t.scaleDownStep)
  {
    forall k | 0 <= k < |ticks|
      ensures Ups(ticks)[k].amount <= t.scaleUpStep && Downs(ticks)[k].amount <= t.scaleDownStep
    {
      assert ClockStep(t, clocks[k], ticks[k].now, ticks[k].outcome, clocks[k + 1]);
    }
    forall i, j | 0 <= i < j < |ticks| && ticks[i].outcome.Ran? && ticks[j].outcome.Ran?
      ensures ticks[i].outcome.up > 0 && ticks[j].outcome.up > 0 ==> ticks[i].now + UpGap(t) <= ticks[j].now
      ensures ticks[i].outcome.down > 0 && ticks[j].outcome.down > 0 ==> ticks[i].now + DownGap(t) <= ticks[j].now
    {
      ClocksRemember(t, clocks, ticks, i, j);
      assert ClockStep(t, clocks[j], ticks[j].now, ticks[j].outcome, clocks[j + 1]);
    }
  }

  /** In any window of length T a target gains at most scale_up_step * (floor(T / gap) + 1) acknowledged
      workers, and acknowledges at most scale_down_step * (floor(T / gap') + 1) stop calls, where the
      gaps are the longer of the poll interval and the cooldown. */
  lemma RateBound(t: Target, clocks: seq<Clock>, ticks: seq<Tick>, from: real, to: real)
    requires t.Valid() && IsClockRun(t, clocks, ticks) && from <= to
    ensures InWindow(Ups(ticks), from, to) <= t.scaleUpStep * (((to - from) / UpGap(t)).Floor + 1)
    ensures InWindow(Downs(ticks), from, to) <= t.scaleDownStep * (((to - from) / DownGap(t)).Floor + 1)
  {
    ClocksSpace(t, clocks, ticks);
    WindowBound(Ups(ticks), UpGap(t), t.scaleUpStep, from, to);
    WindowBound(Downs(ticks), DownGap(t), t.scaleDownStep, from, to);
  }
}
