/** The scaling engine: per-target state, one tick over all targets, and taking over a new
    configuration. */
module Engine {
  import opened Names
  import opened Group
  import opened Protocol
  import opened Cluster
  import opened Targets
  import opened Balancer
  import opened Timers
  import opened Confirmation
  import opened Distribution
  import opened Pm2Path
  import opened Backends
  import opened Verdicts

  // ----- The pending names of all targets -----

  function HeldFor(state: States, k: Key): set<nat>
  {
    if k.1 in state then Held(state[k.1].pending, k.0) else {}
  }

  /** The engine's pending dictionaries are what the protocol runs of all groups say is pending. */
  ghost predicate Agrees(cells: Cells, state: States)
  {
    forall k :: PendingIn(cells, k) == HeldFor(state, k)
  }

  lemma AgreesTracks(cells: Cells, state: States, name: string)
    requires Agrees(cells, state) && name in state
    ensures Tracks(cells, name, state[name].pending)
  {
    forall n
      ensures PendingIn(cells, (n, name)) == Held(state[name].pending, n)
    {
      assert PendingIn(cells, (n, name)) == HeldFor(state, (n, name));
    }
  }

  lemma AgreesPut(cells: Cells, cells': Cells, state: States, name: string, s: TargetState)
    requires Agrees(cells, state) && OthersKept(cells, cells', name) && Tracks(cells', name, s.pending)
    ensures Agrees(cells', state[name := s])
  {
    forall k: Key
      ensures PendingIn(cells', k) == HeldFor(state[name := s], k)
    {
      if k.1 == name {
        assert PendingIn(cells', (k.0, name)) == Held(s.pending, k.0);
      } else {
        assert PendingIn(cells, k) == HeldFor(state, k);
      }
    }
  }

  lemma AgreesSamePending(cells: Cells, state: States, name: string, s: TargetState)
    requires Agrees(cells, state) && name in state && s.pending == state[name].pending
    ensures Agrees(cells, state[name := s])
  {
    forall k: Key
      ensures PendingIn(cells, k) == HeldFor(state[name := s], k)
    {
      assert PendingIn(cells, k) == HeldFor(state, k);
    }
  }

  lemma AgreesWithout(cells: Cells, cells': Cells, state: States, names: set<string>)
    requires Agrees(cells, state)
    requires forall k: Key :: PendingIn(cells', k) == if k.1 in names then {} else PendingIn(cells, k)
    ensures Agrees(cells', state - names)
  {
    forall k: Key
      ensures PendingIn(cells', k) == HeldFor(state - names, k)
    {
      assert PendingIn(cells, k) == HeldFor(state, k);
    }
  }

  lemma AgreesAdded(cells: Cells, before: States, state: States, done: seq<Target>)
    requires Agrees(cells, before) && Ensured(done, before, state)
    ensures Agrees(cells, state)
  {
    forall k: Key
      ensures PendingIn(cells, k) == HeldFor(state, k)
    {
      assert PendingIn(cells, k) == HeldFor(before, k);
    }
  }

  // ----- What each target's timers have been through -----

  /** The ticks of a target since its parameters were last set. */
  datatype History = History(target: Target, clocks: seq<Clock>, ticks: seq<Timers.Tick>)

  type Histories = map<string, History>

  ghost predicate Faithful(h: History, c: Clock)
  {
    h.target.Valid() && IsClockRun(h.target, h.clocks, h.ticks) && h.clocks[|h.ticks|] == c
  }

  ghost function Begin(t: Target, c: Clock): History { History(t, [c], []) }

  ghost function Extend(h: History, k: Timers.Tick, c: Clock): History { History(h.target, h.clocks + [c],
                        h.ticks + [k]) }

  lemma ExtendFaithful(h: History, c: Clock, k: Timers.Tick, c': Clock)
    requires Faithful(h, c) && ClockStep(h.target, c, k.now, k.outcome, c')
    ensures Faithful(Extend(h, k, c'), c')
  {
    var clocks, ticks := h.clocks + [c'], h.ticks + [k];
    forall i | 0 <= i < |ticks|
      ensures ClockStep(h.target, clocks[i], ticks[i].now, ticks[i].outcome, clocks[i + 1])
    {
      if i < |h.ticks| {
        assert ClockStep(h.target, h.clocks[i], h.ticks[i].now, h.ticks[i].outcome, h.clocks[i + 1]);
      }
    }
  }

  /** Each target has a state and a history that leads to its timers. */
  ghost predicate Consistent(targets: seq<Target>, state: States, histories: Histories)
  {
    && state.Keys == histories.Keys == TargetNames(targets)
    && forall i {:trigger Current(targets[i], state, histories)} :: 0 <= i < |targets| ==>
         Current(targets[i], state, histories)
  }

  ghost predicate Current(t: Target, state: States, histories: Histories)
  {
    && t.name in state && t.name in histories
    && histories[t.name].target == t && Faithful(histories[t.name], state[t.name].clock)
  }

  const FRESH := TargetState(Clock(0.0, 0.0, 0.0), map[])

  /** The targets dealt with so far have a state, old ones their own. */
  ghost predicate Ensured(done: seq<Target>, before: States, state: States)
  {
    && state.Keys == before.Keys + TargetNames(done)
    && forall n :: n in state ==> state[n] == if n in before then before[n] else FRESH
  }

  ghost function Carry(t: Target, c: Clock, before: Histories): History
  {
    if t.name in before && before[t.name].target == t then before[t.name] else Begin(t, c)
  }

  ghost predicate Renewed(done: seq<Target>, state: States, before: Histories, grown: Histories)
  {
    grown.Keys == TargetNames(done) && forall t :: t in done ==> Carried(t, state, before, grown)
  }

  ghost predicate Carried(t: Target, state: States, before: Histories, grown: Histories)
  {
    t.name in state && t.name in grown && grown[t.name] == Carry(t, state[t.name].clock, before)
  }

  /** The histories there are lead to the timers there are. */
  ghost predicate Led(names: set<string>, state: States, histories: Histories)
  {
    forall n :: n in histories && n in names ==> n in state && Faithful(histories[n], state[n].clock)
  }

  ghost predicate DistinctNames(targets: seq<Target>)
  {
    forall i, j :: 0 <= i < j < |targets| ==> targets[i].name != targets[j].name
  }

  /** `longer` are the targets in `done` and one more, of another name. */
  ghost predicate OneMore(done: seq<Target>, t: Target, longer: seq<Target>)
  {
    && TargetNames(longer) == TargetNames(done) + {t.name} && t.name !in TargetNames(done)
    && forall u :: u in longer <==> u in done || u == t
  }

  lemma NextTarget(targets: seq<Target>, k: nat)
    requires k < |targets| && DistinctNames(targets)
    ensures OneMore(targets[..k], targets[k], targets[..k + 1])
  {
    assert targets[..k + 1] == targets[..k] + [targets[k]];
    assert forall t :: t in targets[..k] ==> t.name != targets[k].name;
  }

  function Added(state: States, name: string): States
  {
    if name in state then state else state[name := FRESH]
  }

  lemma EnsureOne(done: seq<Target>, t: Target, longer: seq<Target>, before: States, state: States)
    requires OneMore(done, t, longer) && Ensured(done, before, state)
    ensures Ensured(longer, before, Added(state, t.name))
  {
  }

  lemma RenewOne(done: seq<Target>, t: Target, longer: seq<Target>, state: States,
                 before: Histories, grown: Histories)
    requires OneMore(done, t, longer) && Renewed(done, state, before, grown)
    ensures var state' := Added(state, t.name);
            Renewed(longer, state', before, grown[t.name := Carry(t, state'[t.name].clock, before)])
  {
    var state' := Added(state, t.name);
    var grown' := grown[t.name := Carry(t, state'[t.name].clock, before)];
    forall u | u in done
      ensures Carried(u, state', before, grown')
    {
      assert Carried(u, state, before, grown) && u.name in TargetNames(done);
    }
    assert Carried(t, state', before, grown');
  }

  lemma EnsuredLed(targets: seq<Target>, before: States, state: States, histories: Histories)
    requires Ensured(targets, before, state) && Led(TargetNames(targets), before, histories)
    ensures Led(TargetNames(targets), state, histories)
  {
  }

  lemma RenewedIsConsistent(targets: seq<Target>, state: States, before: Histories, grown: Histories)
    requires Renewed(targets, state, before, grown) && state.Keys == TargetNames(targets)
    requires Led(TargetNames(targets), state, before)
    requires forall i :: 0 <= i < |targets| ==> targets[i].Valid()
    ensures Consistent(targets, state, grown)
  {
    forall i | 0 <= i < |targets|
      ensures Current(targets[i], state, grown)
    {
      assert Carried(targets[i], state, before, grown);
    }
  }

  lemma HistoryGoesOn(targets: seq<Target>, state: States, before: Histories, grown: Histories, t: Target)
    requires Renewed(targets, state, before, grown) && t in targets
    requires t.name in before && before[t.name].target == t
    ensures t.name in grown && grown[t.name] == before[t.name]
  {
    assert Carried(t, state, before, grown);
  }

  // ----- Supervisor targets -----

  /** Phase 5, once it is decided to add workers to the nodes that are free. */
  method Grow(cluster: Cluster, t: Target, c: Clock, kept: Pending, now: real, r: Report, free: seq<Slot>, add: nat)
    returns (report: Report, after: TargetState)
    requires t.Valid() && r.Weighed? && free == Eligible(r.loads, kept.Keys) && free != []
    requires add > 0 && add == ToAdd(t, c, now, Wanted(t, r.queueLen), Total(r.loads))
    requires cluster.Valid() && Tracks(cluster.cells, t.name, kept) && Untouched(r.loads) && DistinctNodes(r.loads)
    modifies cluster
    ensures cluster.Valid() && Tracks(cluster.cells, t.name, after.pending)
    ensures OthersKept(old(cluster.cells), cluster.cells, t.name)
    ensures report.Weighed? && report == r.(slots := report.slots, calls := report.calls)
    ensures Spread(t, c, kept, now, report, after)
    ensures AllMoved(Adds(t, c, now, report), old(cluster.tallies), cluster.tallies, t.name, report.slots)
    ensures Placed(if Adds(t, c, now, report) then Raising else Lowering, t.name, report.slots,
                   old(cluster.calls), cluster.calls)
    ensures Later(old(cluster.runs), cluster.runs)
  {
    FreeSlots(cluster.cells, t.name, kept, r.loads);
    var slots, calls := DistributeUp(cluster, t.name, free, add);
    TracksSame(old(cluster.cells), cluster.cells, t.name, kept);
    return r.(slots := slots, calls := calls), TargetState(MarkUp(c, now, slots), kept);
  }

  /** Phase 6, once it is decided to stop workers on the nodes that are free. */
  method Shrink(cluster: Cluster, t: Target, c: Clock, kept: Pending, now: real, r: Report, free: seq<Slot>,
                remove: nat)
    returns (report: Report, after: TargetState)
    requires t.Valid() && r.Weighed? && free == Eligible(r.loads, kept.Keys) && free != []
    requires remove > 0 && remove == ToRemove(t, c, now, Wanted(t, r.queueLen), Total(r.loads))
    requires cluster.Valid() && Tracks(cluster.cells, t.name, kept) && Untouched(r.loads) && DistinctNodes(r.loads)
    modifies cluster
    ensures cluster.Valid() && Tracks(cluster.cells, t.name, after.pending)
    ensures OthersKept(old(cluster.cells), cluster.cells, t.name)
    ensures report.Weighed? && report == r.(slots := report.slots, calls := report.calls)
    ensures Spread(t, c, kept, now, report, after)
    ensures AllMoved(Adds(t, c, now, report), old(cluster.tallies), cluster.tallies, t.name, report.slots)
    ensures Placed(if Adds(t, c, now, report) then Raising else Lowering, t.name, report.slots,
                   old(cluster.calls), cluster.calls)
    ensures Later(old(cluster.runs), cluster.runs)
  {
    FreeSlots(cluster.cells, t.name, kept, r.loads);
    var slots, pending, calls := DistributeDown(cluster, t.name, free, remove, kept);
    return r.(slots := slots, calls := calls), TargetState(MarkDown(c, now, slots), pending);
  }

  /** Phases 4 to 6, for a target whose timers are `c` and which has `kept` pending. */
  method SpreadLoad(cluster: Cluster, t: Target, c: Clock, kept: Pending, now: real, r: Report)
    returns (report: Report, after: TargetState)
    requires t.Valid() && r.Weighed? && r.slots == [] && r.calls == 0 && Untouched(r.loads) && DistinctNodes(r.loads)
    requires cluster.Valid() && Tracks(cluster.cells, t.name, kept)
    modifies cluster
    ensures cluster.Valid() && Tracks(cluster.cells, t.name, after.pending)
    ensures OthersKept(old(cluster.cells), cluster.cells, t.name)
    ensures report.Weighed? && report == r.(slots := report.slots, calls := report.calls)
    ensures Spread(t, c, kept, now, report, after)
    ensures AllMoved(Adds(t, c, now, report), old(cluster.tallies), cluster.tallies, t.name, report.slots)
    ensures Placed(if Adds(t, c, now, report) then Raising else Lowering, t.name, report.slots,
                   old(cluster.calls), cluster.calls)
    ensures Later(old(cluster.runs), cluster.runs)
  {
    var wanted, total := Wanted(t, r.queueLen), Total(r.loads);
    var free := Eligible(r.loads, kept.Keys);
    if wanted > total {
      if now - c.lastUp >= t.cooldownUp as real {
        var add := Min(t.scaleUpStep, t.maxWorkers - total);
        if add > 0 && free != [] {
          report, after := Grow(cluster, t, c, kept, now, r, free, add);
          return;
        }
      }
    } else if wanted < total {
      if now - c.lastDown >= t.cooldownDown as real {
        var remove := Min(t.scaleDownStep, total - t.minWorkers);
        if remove > 0 && free != [] {
          report, after := Shrink(cluster, t, c, kept, now, r, free, remove);
          return;
        }
      }
    }
    return r, TargetState(c, kept);
  }

  lemma FreeSlots(cells: Cells, target: string, kept: Pending, loads: seq<Slot>)
    requires Tracks(cells, target, kept) && Untouched(loads) && DistinctNodes(loads)
    ensures Untouched(Eligible(loads, kept.Keys)) && Free(cells, target, Eligible(loads, kept.Keys))
    ensures DistinctNodes(Eligible(loads, kept.Keys))
  {
    EligibleDistinct(loads, kept.Keys);
    var free := Eligible(loads, kept.Keys);
    EligibleSlots(loads, kept.Keys);
    forall i | 0 <= i < |free|
      ensures PendingIn(cells, (free[i].name, target)) == {}
    {
      assert PendingIn(cells, (free[i].name, target)) == Held(kept, free[i].name);
    }
  }

  /** The queue length, if the backend exists and answers. */
  method PollQueue(monitors: map<string, Monitor>, queues: Queues, t: Target) returns (r: Option<nat>)
    ensures r == Polled(monitors.Keys, queues, t)
  {
    if t.queue !in monitors {
      return None;
    }
    return Length(queues, t.queue, t.queueKey);
  }

  method SuperviseTarget(cluster: Cluster, t: Target, monitors: map<string, Monitor>, queues: Queues,
                         clients: set<string>,
                         s: TargetState, now: real)
    returns (report: Report, after: TargetState)
    requires t.Valid() && cluster.Valid() && Tracks(cluster.cells, t.name, s.pending)
    modifies cluster
    ensures cluster.Valid() && Tracks(cluster.cells, t.name, after.pending)
    ensures OthersKept(old(cluster.cells), cluster.cells, t.name)
    ensures Supervised(t, clients, s, now, report, after)
    ensures WentBy(monitors.Keys, queues, t, report)
    ensures Accounted(t, s.clock, now, report, old(cluster.tallies), cluster.tallies)
    ensures OthersUncalled(old(cluster.tallies), cluster.tallies, t.name)
    ensures Observed(cluster.start, old(cluster.runs), cluster.runs, t.name, report)
    ensures CallsMatch(t, clients, s, now, report, old(cluster.calls), cluster.calls)
    ensures OthersNotCalled(t.name, old(cluster.calls), cluster.calls)
    ensures Later(old(cluster.runs), cluster.runs)
  {
    var kept, logs := ConfirmPendingPerNode(cluster, t.name, clients, s.pending);
    var queueLen := PollQueue(monitors, queues, t);
    report, after := Skipped(kept, logs, queueLen), TargetState(s.clock, kept);
    ghost var placed := cluster.calls;
    SkippedAccounted(t, s.clock, now, report, old(cluster.tallies), cluster.tallies);
    VouchedUncalled(old(cluster.tallies), cluster.tallies, t.name, logs);
    if queueLen.None? {
      NothingAsked(clients, t.name, placed);
      SkippedCalls(t, clients, s, now, report, [], old(cluster.calls), placed, placed);
      return;
    }
    ghost var mid, confirmed := cluster.cells, cluster.runs;
    var loads, replies := GatherLoads(cluster, t.name, t.nodes, clients);
    TracksSame(mid, cluster.cells, t.name, kept);
    OthersKeptTransitive(old(cluster.cells), mid, cluster.cells, t.name);
    ghost var tallies, gathered := cluster.tallies, cluster.runs;
    ObservedBoth(cluster.start, old(cluster.runs), confirmed, gathered, gathered, t.name, logs, replies);
    if loads == [] {
      assert replies == map[];
      SkippedCalls(t, clients, s, now, report, t.nodes, old(cluster.calls), placed, cluster.calls);
      return;
    }
    mid := cluster.cells;
    ghost var asked := cluster.calls;
    report, after := SpreadLoad(cluster, t, s.clock, kept, now, Weighed(kept, logs, queueLen.value, replies, loads,
        [], 0));
    OthersKeptTransitive(old(cluster.cells), mid, cluster.cells, t.name);
    WeighedAccounted(t, s.clock, now, report, old(cluster.tallies), tallies, cluster.tallies);
    ObservedBoth(cluster.start, old(cluster.runs), confirmed, gathered, cluster.runs, t.name, logs, replies);
    WeighedCalls(t, clients, s, now, report, old(cluster.calls), placed, asked, cluster.calls);
  }

  lemma ObservedBoth(start: Cells, a: Runs, b: Runs, c: Runs,
                     d: Runs, target: string, logs: Logs, replies: Replies)
    requires AllSeen(start, a, b, target, logs) && AllReported(start, b, c, target, replies)
    requires Later(a, b) && Later(b, c) && Later(c, d)
    ensures AllSeen(start, a, d, target, logs) && AllReported(start, a, d, target, replies) && Later(a, d)
  {
    LaterStill(b, c, d);
    LaterStill(a, b, d);
    AllSeenLonger(start, a, a, b, d, target, logs);
    AllReportedLonger(start, a, b, c, d, target, replies);
  }

  lemma TracksSame(cells: Cells, cells': Cells, target: string, m: Pending)
    requires Tracks(cells, target, m) && SamePending(cells, cells')
    ensures Tracks(cells', target, m) && OthersKept(cells, cells', target)
  {
    forall n
      ensures PendingIn(cells', (n, target)) == Held(m, n)
    {
      assert PendingIn(cells', (n, target)) == PendingIn(cells, (n, target));
    }
  }

  // ----- PM2 targets -----

  method PilotTarget(pm2: Pm2, t: Target, monitors: map<string, Monitor>, queues: Queues, s: TargetState, now: real)
    returns (report: Report, after: TargetState)
    requires t.Valid()
    modifies pm2
    ensures Piloted(t, s, now, report, after) && after.pending == s.pending
    ensures Followed(report, t.program, old(pm2.apps), pm2.apps)
    ensures WentBy(monitors.Keys, queues, t, report)
    ensures pm2.log == old(pm2.log) + PilotCalls(t.program, report)
  {
    var queueLen := PollQueue(monitors, queues, t);
    report, after := Pm2Skipped(queueLen), s;
    if queueLen.None? {
      return;
    }
    var wanted := Wanted(t, queueLen.value);
    var info := pm2.Info(t.program);
    if info.None? {
      return;
    }
    var active := info.value;
    report := Commanded(queueLen.value, active, Nothing, true);
    if wanted > active {
      if now - s.clock.lastUp >= t.cooldownUp as real {
        var count := Min(t.scaleUpStep, t.maxWorkers - active);
        if count > 0 {
          var done := pm2.Scale(t.program, ScaleBy(count));
          report := Commanded(queueLen.value, active, ScaleBy(count), done);
          if done { after := s.(clock := s.clock.(lastUp := now)); }
        }
      }
    } else if wanted < active {
      if now - s.clock.lastDown >= t.cooldownDown as real {
        var count := Min(t.scaleDownStep, active - t.minWorkers);
        if count > 0 {
          var done := pm2.Scale(t.program, ScaleTo(active - count));
          report := Commanded(queueLen.value, active, ScaleTo(active - count), done);
          if done { after := s.(clock := s.clock.(lastDown := now)); }
        }
      }
    }
  }

  // ----- One tick over all targets -----

  /** Every report so far goes by what the target's backend said. */
  ghost predicate AllWentBy(backends: set<string>, queues: Queues, targets: seq<Target>, reports: seq<Report>)
  {
    |reports| <= |targets| && forall i :: 0 <= i < |reports| ==> WentBy(backends, queues, targets[i], reports[i])
  }

  /** What PM2 was asked, target by target. */
  function AllPilotCalls(targets: seq<Target>, reports: seq<Report>): seq<Pm2Call>
    requires |reports| <= |targets|
  {
    if |reports| == 0 then []
    else
      var n := |reports| - 1;
      AllPilotCalls(targets, reports[..n]) + PilotCalls(targets[n].program, reports[n])
  }

  /** What the tick has heard from the backends and asked of PM2 so far. */
  ghost predicate Heard(backends: set<string>, queues: Queues, targets: seq<Target>, reports: seq<Report>,
                        before: seq<Pm2Call>, after: seq<Pm2Call>)
  {
    AllWentBy(backends, queues, targets, reports) && after == before + AllPilotCalls(targets, reports)
  }

  lemma HeardRound(backends: set<string>, queues: Queues, targets: seq<Target>, reports: seq<Report>, r: Report,
                   before: seq<Pm2Call>, mid: seq<Pm2Call>, after: seq<Pm2Call>)
    requires Heard(backends, queues, targets, reports, before, mid) && |reports| < |targets|
    requires WentBy(backends, queues, targets[|reports|], r)
    requires after == mid + PilotCalls(targets[|reports|].program, r)
    ensures Heard(backends, queues, targets, reports + [r], before, after)
  {
    assert (reports + [r])[..|reports|] == reports;
  }

  /** The first |reports| targets have been ticked, the others are as before. */
  ghost predicate Progress(targets: seq<Target>, clients: set<string>, before: States, now: real,
                           reports: seq<Report>, state: States)
  {
    && |reports| <= |targets| && state.Keys == before.Keys
    && forall i {:trigger DoneOrNot(targets[i], clients, before, now, reports, i, state)} ::
         0 <= i < |targets| ==> DoneOrNot(targets[i], clients, before, now, reports, i, state)
  }

  ghost predicate DoneOrNot(t: Target, clients: set<string>, before: States, now: real,
                            reports: seq<Report>, i: nat, state: States)
  {
    && t.Valid() && t.name in before && t.name in state
    && if i < |reports| then Ticked(t, clients, before[t.name], now, reports[i], state[t.name])
       else state[t.name] == before[t.name]
  }

  lemma ProgressStep(targets: seq<Target>, clients: set<string>, before: States, now: real,
                     reports: seq<Report>, state: States, r: Report, s': TargetState)
    requires Progress(targets, clients, before, now, reports, state) && DistinctNames(targets) && |reports| < |targets|
    requires var t := targets[|reports|];
             t.Valid() && t.name in before && Ticked(t, clients, before[t.name], now, r, s')
    ensures Progress(targets, clients, before, now, reports + [r], state[targets[|reports|].name := s'])
  {
    var k := |reports|;
    var state' := state[targets[k].name := s'];
    forall i | 0 <= i < |targets|
      ensures DoneOrNot(targets[i], clients, before, now, reports + [r], i, state')
    {
      assert DoneOrNot(targets[i], clients, before, now, reports, i, state);
      if i != k { assert targets[i].name != targets[k].name; }
    }
  }

  lemma ConsistentPut(targets: seq<Target>, state: States, histories: Histories, k: nat,
                      s': TargetState, h: History)
    requires Consistent(targets, state, histories) && DistinctNames(targets) && k < |targets|
    requires h.target == targets[k] && Faithful(h, s'.clock)
    ensures Consistent(targets, state[targets[k].name := s'], histories[targets[k].name := h])
  {
    var name := targets[k].name;
    assert Current(targets[k], state, histories);
    forall i | 0 <= i < |targets|
      ensures Current(targets[i], state[name := s'], histories[name := h])
    {
      assert Current(targets[i], state, histories);
      if i != k { assert targets[i].name != name; }
    }
  }

  ghost function Lengthened(h: History, s: TargetState, now: real, r: Report, s': TargetState): History
    requires h.target.Valid()
  {
    Extend(h, Timers.Tick(now, OutcomeOf(h.target, s.clock, now, r)), s'.clock)
  }

  lemma RecordTick(h: History, clients: set<string>, s: TargetState, now: real, r: Report, s': TargetState)
    requires Faithful(h, s.clock) && Ticked(h.target, clients, s, now, r, s')
    ensures Faithful(Lengthened(h, s, now, r, s'), s'.clock)
  {
    TickedIsClockStep(h.target, clients, s, now, r, s');
    ExtendFaithful(h, s.clock, Timers.Tick(now, OutcomeOf(h.target, s.clock, now, r)), s'.clock);
  }

  /** What a tick is recorded to have done between two moments: tallies, runs and calls. */
  datatype Record = Record(ledger: Ledger, runs: Runs, calls: multiset<Call>)

  /** The report is a true account of what happened: what was executed, what was seen, what was called. */
  ghost predicate Honest(t: Target, clients: set<string>, s: TargetState, now: real, r: Report, start: Cells,
                         before: Record, after: Record)
    requires t.Valid()
  {
    && Accounted(t, s.clock, now, r, before.ledger, after.ledger)
    && OthersUncalled(before.ledger, after.ledger, t.name)
    && Observed(start, before.runs, after.runs, t.name, r) && Later(before.runs, after.runs)
    && CallsMatch(t, clients, s, now, r, before.calls, after.calls)
    && OthersNotCalled(t.name, before.calls, after.calls)
  }

  /** The calls so far are accounted for by the reports so far, target by target. */
  ghost predicate Billed(targets: seq<Target>, before: States, now: real, reports: seq<Report>,
                         t0: Ledger, tallies: Ledger)
  {
    forall i {:trigger BilledOne(targets[i], before, now, reports, i, t0, tallies)} ::
         0 <= i < |targets| ==> BilledOne(targets[i], before, now, reports, i, t0, tallies)
  }

  ghost predicate BilledOne(t: Target, before: States, now: real, reports: seq<Report>, i: nat,
                            t0: Ledger, tallies: Ledger)
  {
    && t.Valid() && t.name in before
    && if i < |reports| then Accounted(t, before[t.name].clock, now, reports[i], t0, tallies)
       else SameFor(t.name, t0, tallies)
  }

  ghost predicate SameFor(target: string, t: Ledger, t': Ledger)
  {
    forall n :: TallyIn(t', (n, target)) == TallyIn(t, (n, target))
  }

  lemma AccountedThrough(t: Target, c: Clock, now: real, r: Report, t0: Ledger, mid: Ledger,
                         mid': Ledger, t1: Ledger)
    requires t.Valid() && SameFor(t.name, t0, mid) && Accounted(t, c, now, r, mid, mid') && SameFor(t.name, mid', t1)
    ensures Accounted(t, c, now, r, t0, t1)
  {
    forall n
      ensures OneAccounted(t, c, now, r, n, TallyIn(t0, (n, t.name)), TallyIn(t1, (n, t.name)))
    {
      assert TallyIn(mid, (n, t.name)) == TallyIn(t0, (n, t.name))
          && TallyIn(t1, (n, t.name)) == TallyIn(mid', (n, t.name));
      assert OneAccounted(t, c, now, r, n, TallyIn(mid, (n, t.name)), TallyIn(mid', (n, t.name)));
    }
  }

  lemma BillRound(targets: seq<Target>, before: States, now: real, reports: seq<Report>, r: Report,
                  t0: Ledger, mid: Ledger, t1: Ledger)
    requires Billed(targets, before, now, reports, t0, mid) && DistinctNames(targets) && |reports| < |targets|
    requires var t := targets[|reports|];
             && t.Valid() && t.name in before && Accounted(t, before[t.name].clock, now, r, mid, t1)
             && OthersUncalled(mid, t1, t.name)
    ensures Billed(targets, before, now, reports + [r], t0, t1)
  {
    var k := |reports|;
    forall i | 0 <= i < |targets|
      ensures BilledOne(targets[i], before, now, reports + [r], i, t0, t1)
    {
      var t := targets[i];
      assert BilledOne(t, before, now, reports, i, t0, mid);
      if i == k {
        AccountedThrough(t, before[t.name].clock, now, r, t0, mid, t1, t1);
      } else {
        assert t.name != targets[k].name;
        assert SameFor(t.name, mid, t1);
        if i < k { AccountedThrough(t, before[t.name].clock, now, reports[i], t0, t0, mid, t1); }
      }
    }
  }

  /** The calls placed so far are those of the reports so far, target by target. */
  ghost predicate AllMatched(targets: seq<Target>, clients: set<string>, before: States, now: real,
                             reports: seq<Report>,
                             c0: multiset<Call>, calls: multiset<Call>)
  {
    forall i {:trigger MatchedOne(targets[i], clients, before, now, reports, i, c0, calls)} ::
         0 <= i < |targets| ==> MatchedOne(targets[i], clients, before, now, reports, i, c0, calls)
  }

  ghost predicate MatchedOne(t: Target, clients: set<string>, before: States, now: real, reports: seq<Report>, i: nat,
                             c0: multiset<Call>, calls: multiset<Call>)
  {
    && t.Valid() && t.name in before
    && if i < |reports| then CallsMatch(t, clients, before[t.name], now, reports[i], c0, calls)
       else SameCalls(t.name, c0, calls)
  }

  lemma CallsMatchThrough(t: Target, clients: set<string>, s: TargetState, now: real, r: Report, c0: multiset<Call>,
                          mid: multiset<Call>, mid': multiset<Call>, c1: multiset<Call>)
    requires t.Valid() && SameCalls(t.name, c0, mid) && CallsMatch(t, clients, s, now, r, mid, mid')
    requires SameCalls(t.name, mid', c1)
    ensures CallsMatch(t, clients, s, now, r, c0, c1)
  {
    if r.Skipped? {
      var nodes := if r.polled.Some? then t.nodes else [];
      StillAsked(s.pending, clients, r.logs, t.name, nodes, map[], c0, mid, mid', c1);
    }
    if r.Weighed? {
      StillAsked(s.pending, clients, r.logs, t.name, t.nodes, r.replies, c0, mid, mid', c1);
      var op := if Adds(t, s.clock, now, r) then Raising else Lowering;
      forall i | 0 <= i < |r.slots|
        ensures SlotPlaced(op, t.name, r.slots[i], c0, c1)
      {
        assert SlotPlaced(op, t.name, r.slots[i], mid, mid');
      }
    }
  }

  lemma MatchRound(targets: seq<Target>, clients: set<string>, before: States, now: real, reports: seq<Report>,
                   r: Report,
                   c0: multiset<Call>, mid: multiset<Call>, c1: multiset<Call>)
    requires AllMatched(targets, clients, before, now, reports, c0, mid)
    requires DistinctNames(targets) && |reports| < |targets|
    requires var t := targets[|reports|];
             && t.Valid() && t.name in before && CallsMatch(t, clients, before[t.name], now, r, mid, c1)
             && OthersNotCalled(t.name, mid, c1)
    ensures AllMatched(targets, clients, before, now, reports + [r], c0, c1)
  {
    var k := |reports|;
    forall i | 0 <= i < |targets|
      ensures MatchedOne(targets[i], clients, before, now, reports + [r], i, c0, c1)
    {
      var t := targets[i];
      assert MatchedOne(t, clients, before, now, reports, i, c0, mid);
      if i == k {
        CallsMatchThrough(t, clients, before[t.name], now, r, c0, mid, c1, c1);
      } else {
        assert t.name != targets[k].name;
        assert SameCalls(t.name, mid, c1);
        if i < k { CallsMatchThrough(t, clients, before[t.name], now, reports[i], c0, c0, mid, c1); }
      }
    }
  }

  /** Everything reported so far was true during the tick. */
  ghost predicate AllObserved(targets: seq<Target>, start: Cells, from: Runs, to: Runs,
                              reports: seq<Report>)
  {
    && Later(from, to)
    && forall i {:trigger Observed(start, from, to, targets[i].name, reports[i])} ::
         0 <= i < |reports| && i < |targets| ==>
         Observed(start, from, to, targets[i].name, reports[i])
  }

  lemma ObserveRound(targets: seq<Target>, start: Cells, from: Runs, mid: Runs,
                     to: Runs, reports: seq<Report>, r: Report)
    requires AllObserved(targets, start, from, mid, reports) && Later(mid, to) && |reports| < |targets|
    requires Observed(start, mid, to, targets[|reports|].name, r)
    ensures AllObserved(targets, start, from, to, reports + [r])
  {
    LaterStill(from, mid, to);
    forall i | 0 <= i < |reports| + 1
      ensures Observed(start, from, to, targets[i].name, (reports + [r])[i])
    {
      if i < |reports| {
        ObservedLonger(start, from, from, mid, to, targets[i].name, reports[i]);
      } else {
        ObservedLonger(start, from, mid, to, to, targets[i].name, r);
      }
    }
  }

  /** The reports so far are a true account of everything since the tick began, and of the targets still to
      come nothing has happened. */
  ghost predicate AllHonest(targets: seq<Target>, clients: set<string>, before: States, now: real,
                            reports: seq<Report>,
                            start: Cells, first: Record, last: Record)
  {
    && Billed(targets, before, now, reports, first.ledger, last.ledger)
    && AllMatched(targets, clients, before, now, reports, first.calls, last.calls)
    && AllObserved(targets, start, first.runs, last.runs, reports)
    && Spared(targets, first, last)
  }

  /** Groups that belong to no target were not called. */
  ghost predicate Spared(targets: seq<Target>, first: Record, last: Record)
  {
    && (forall k: Key :: k.1 !in TargetNames(targets) ==> TallyIn(last.ledger, k) == TallyIn(first.ledger, k))
    && (forall c: Call :: c.key.1 !in TargetNames(targets) ==> last.calls[c] == first.calls[c])
  }

  lemma SparedRound(targets: seq<Target>, t: Target, first: Record, mid: Record, last: Record)
    requires Spared(targets, first, mid) && t in targets
    requires OthersUncalled(mid.ledger, last.ledger, t.name) && OthersNotCalled(t.name, mid.calls, last.calls)
    ensures Spared(targets, first, last)
  {
    assert t.name in TargetNames(targets);
  }

  lemma HonestRound(targets: seq<Target>, clients: set<string>, before: States, now: real, reports: seq<Report>,
                    r: Report,
                    start: Cells, first: Record, mid: Record, last: Record)
    requires AllHonest(targets, clients, before, now, reports, start, first, mid)
    requires DistinctNames(targets) && |reports| < |targets|
    requires var t := targets[|reports|];
             t.Valid() && t.name in before && Honest(t, clients, before[t.name], now, r, start, mid, last)
    ensures AllHonest(targets, clients, before, now, reports + [r], start, first, last)
  {
    BillRound(targets, before, now, reports, r, first.ledger, mid.ledger, last.ledger);
    MatchRound(targets, clients, before, now, reports, r, first.calls, mid.calls, last.calls);
    ObserveRound(targets, start, first.runs, mid.runs, last.runs, reports, r);
    SparedRound(targets, targets[|reports|], first, mid, last);
  }

  /** Setting last_tick changes nothing about what a tick may do. */
  lemma DueIsHonest(t: Target, clients: set<string>, s: TargetState, due: TargetState, now: real, r: Report,
                    start: Cells,
                    before: Record, after: Record)
    requires t.Valid() && due == s.(clock := s.clock.(lastTick := now))
    requires Honest(t, clients, due, now, r, start, before, after)
    ensures Honest(t, clients, s, now, r, start, before, after)
  {
    assert r.Weighed? ==> Adds(t, due.clock, now, r) == Adds(t, s.clock, now, r);
    forall n
      ensures OneAccounted(t, s.clock, now, r, n, TallyIn(before.ledger, (n, t.name)),
                           TallyIn(after.ledger, (n, t.name)))
    {
      assert OneAccounted(t, due.clock, now, r, n, TallyIn(before.ledger, (n, t.name)),
                          TallyIn(after.ledger, (n, t.name)));
    }
  }

  /** A report of no calls is honest when nothing happened. */
  lemma QuietIsHonest(t: Target, clients: set<string>, s: TargetState, now: real, r: Report, start: Cells,
                      same: Record)
    requires t.Valid() && !r.Weighed? && !r.Skipped?
    ensures Honest(t, clients, s, now, r, start, same, same)
  {
  }

  lemma DueIsTicked(t: Target, clients: set<string>, state: States, due: TargetState, now: real, r: Report,
                    state': States)
    requires t.Valid() && t.name in state && t.name in state'
              && now - state[t.name].clock.lastTick >= t.pollInterval as real
    requires due == state[t.name].(clock := state[t.name].clock.(lastTick := now))
    requires state' == state[t.name := due][t.name := state'[t.name]]
              && Processed(t, clients, due, now, r, state'[t.name])
    ensures Ticked(t, clients, state[t.name], now, r, state'[t.name])
    ensures state' == state[t.name := state'[t.name]]
  {
  }

  /** The loop over targets after |reports| rounds. */
  ghost predicate Rounds(targets: seq<Target>, clients: set<string>, before: States, now: real,
                         reports: seq<Report>, state: States, histories: Histories)
  {
    Progress(targets, clients, before, now, reports, state) && Consistent(targets, state, histories)
        && DistinctNames(targets)
  }

  /** The target's history has grown by what the tick reported, or, before its turn, is as it was carried over. */
  ghost predicate AppendedOne(t: Target, before: States, now: real, reports: seq<Report>, i: nat, state: States,
                              h0: Histories, histories: Histories)
  {
    && t.Valid() && t.name in before && t.name in state && t.name in histories
    && var base := Carry(t, before[t.name].clock, h0);
       histories[t.name] ==
         if i < |reports| then Lengthened(base, before[t.name], now, reports[i], state[t.name]) else base
  }

  ghost predicate Appended(targets: seq<Target>, before: States, now: real, reports: seq<Report>, state: States,
                           h0: Histories, histories: Histories)
  {
    forall i {:trigger AppendedOne(targets[i], before, now, reports, i, state, h0, histories)} :: 0 <= i < |targets| ==>
      AppendedOne(targets[i], before, now, reports, i, state, h0, histories)
  }

  lemma AppendRound(targets: seq<Target>, before: States, now: real, reports: seq<Report>, state: States,
                    h0: Histories, histories: Histories, r: Report, state': States, histories': Histories)
    requires Appended(targets, before, now, reports, state, h0, histories)
    requires DistinctNames(targets) && |reports| < |targets|
    requires var t := targets[|reports|];
             && t.Valid() && t.name in before && t.name in state && before[t.name] == state[t.name]
             && t.name in state' && state' == state[t.name := state'[t.name]]
             && t.name in histories && histories[t.name].target == t
             && histories' == histories[t.name := Lengthened(histories[t.name], state[t.name], now, r, state'[t.name])]
    ensures Appended(targets, before, now, reports + [r], state', h0, histories')
  {
    var k := |reports|;
    forall i | 0 <= i < |targets|
      ensures AppendedOne(targets[i], before, now, reports + [r], i, state', h0, histories')
    {
      assert AppendedOne(targets[i], before, now, reports, i, state, h0, histories);
      if i != k { assert targets[i].name != targets[k].name; }
    }
  }

  ghost predicate SoFar(targets: seq<Target>, clients: set<string>, before: States, now: real, reports: seq<Report>,
                        state: States, h0: Histories, histories: Histories, start: Cells, first: Record, last: Record)
  {
    && Rounds(targets, clients, before, now, reports, state, histories)
    && Appended(targets, before, now, reports, state, h0, histories)
    && AllHonest(targets, clients, before, now, reports, start, first, last)
  }

  lemma Started(targets: seq<Target>, clients: set<string>, now: real, state: States, histories: Histories,
                start: Cells, first: Record)
    requires Consistent(targets, state, histories) && DistinctNames(targets)
    requires forall i :: 0 <= i < |targets| ==> targets[i].Valid()
    ensures SoFar(targets, clients, state, now, [], state, histories, histories, start, first, first)
  {
    forall i | 0 <= i < |targets|
      ensures DoneOrNot(targets[i], clients, state, now, [], i, state)
      ensures AppendedOne(targets[i], state, now, [], i, state, histories, histories)
      ensures BilledOne(targets[i], state, now, [], i, first.ledger, first.ledger)
      ensures MatchedOne(targets[i], clients, state, now, [], i, first.calls, first.calls)
    {
      assert Current(targets[i], state, histories);
    }
  }

  lemma SoFarStep(targets: seq<Target>, clients: set<string>, before: States, now: real, reports: seq<Report>,
                  state: States, h0: Histories, histories: Histories, start: Cells, first: Record, mid: Record,
                  last: Record, r: Report, state': States)
    returns (histories': Histories)
    requires SoFar(targets, clients, before, now, reports, state, h0, histories, start, first, mid)
    requires |reports| < |targets|
    requires var t := targets[|reports|];
             && t.Valid() && t.name in state && t.name in before && before[t.name] == state[t.name]
             && t.name in state' && state' == state[t.name := state'[t.name]]
             && Ticked(t, clients, state[t.name], now, r, state'[t.name])
             && Honest(t, clients, state[t.name], now, r, start, mid, last)
    ensures SoFar(targets, clients, before, now, reports + [r], state', h0, histories', start, first, last)
  {
    HonestRound(targets, clients, before, now, reports, r, start, first, mid, last);
    histories' := TickRound(targets, clients, before, now, reports, state, histories, r, state');
    AppendRound(targets, before, now, reports, state, h0, histories, r, state', histories');
  }

  lemma TickRound(targets: seq<Target>, clients: set<string>, before: States, now: real,
                  reports: seq<Report>, state: States, histories: Histories, r: Report,
                  state': States)
    returns (histories': Histories)
    requires Rounds(targets, clients, before, now, reports, state, histories) && |reports| < |targets|
    requires var t := targets[|reports|];
             && t.Valid() && t.name in state && t.name in state' && state' == state[t.name := state'[t.name]]
             && Ticked(t, clients, state[t.name], now, r, state'[t.name])
    ensures Rounds(targets, clients, before, now, reports + [r], state', histories')
    ensures var t := targets[|reports|];
            && t.name in histories && histories[t.name].target == t
            && histories' == histories[t.name := Lengthened(histories[t.name], state[t.name], now, r, state'[t.name])]
  {
    var k, t := |reports|, targets[|reports|];
    assert Current(t, state, histories) && DoneOrNot(t, clients, before, now, reports, k, state);
    var s' := state'[t.name];
    var h := Lengthened(histories[t.name], state[t.name], now, r, s');
    ProgressStep(targets, clients, before, now, reports, state, r, s');
    RecordTick(histories[t.name], clients, state[t.name], now, r, s');
    ConsistentPut(targets, state, histories, k, s', h);
    histories' := histories[t.name := h];
  }

  lemma TargetIsReady(targets: seq<Target>, clients: set<string>, before: States, now: real,
                      reports: seq<Report>, state: States, histories: Histories)
    requires Rounds(targets, clients, before, now, reports, state, histories) && |reports| < |targets|
    ensures var t := targets[|reports|];
            t.Valid() && t.name in state && t.name in before && before[t.name] == state[t.name]
  {
    assert DoneOrNot(targets[|reports|], clients, before, now, reports, |reports|, state);
  }

  lemma ConsistentLed(targets: seq<Target>, state: States, histories: Histories,
                      names: set<string>, removed: set<string>)
    requires Consistent(targets, state, histories) && names !! removed
    ensures Led(names, state - removed, histories)
  {
    forall n | n in histories && n in names
      ensures n in state && Faithful(histories[n], state[n].clock)
    {
      var t :| t in targets && t.name == n;
      var i :| 0 <= i < |targets| && targets[i] == t;
      assert Current(targets[i], state, histories);
    }
  }

  /** What a reload makes of the states. */
  function Carryover(state: States, names: set<string>): States
  {
    map n | n in names :: if n in state then state[n] else FRESH
  }

  lemma EnsuredIs(targets: seq<Target>, before: States, removed: set<string>, state: States)
    requires Ensured(targets, before - removed, state) && before.Keys - removed <= TargetNames(targets)
    requires removed !! TargetNames(targets)
    ensures state == Carryover(before, TargetNames(targets))
  {
  }

  lemma HistoriesGoOn(old_: seq<Target>, targets: seq<Target>, state: States, histories: Histories,
                      state': States, histories': Histories)
    requires Consistent(old_, state, histories) && Renewed(targets, state', histories, histories')
    requires state'.Keys == TargetNames(targets)
    ensures forall t :: t in targets && t in old_ ==>
              t.name in histories && t.name in histories' && histories'[t.name] == histories[t.name]
  {
    forall t | t in targets && t in old_
      ensures t.name in histories && t.name in histories' && histories'[t.name] == histories[t.name]
    {
      var i :| 0 <= i < |old_| && old_[i] == t;
      assert Current(old_[i], state, histories);
      HistoryGoesOn(targets, state', histories, histories', t);
    }
  }

  // ----- The engine -----

  class ScalerEngine {
    var config: Config
    var monitors: map<string, Monitor>
    var clients: map<string, Client>
    var state: States
    const cluster: Cluster
    const pm2: Pm2
    ghost var histories: Histories

    ghost predicate Valid()
      reads this, cluster
    {
      && config.Accepted() && cluster.Valid()
      && Consistent(config.targets, state, histories) && Agrees(cluster.cells, state)
    }

    constructor (config: Config, monitors: map<string, Monitor>, clients: map<string, Client>, cluster: Cluster,
                 pm2: Pm2)
      requires config.Accepted() && cluster.Valid() && forall k :: PendingIn(cluster.cells, k) == {}
      ensures Valid() && this.config == config && this.monitors == monitors && this.clients == clients
      ensures this.cluster == cluster && this.pm2 == pm2
      ensures state == map n | n in TargetNames(config.targets) :: TargetState(Clock(0.0, 0.0, 0.0), map[])
    {
      this.config, this.monitors, this.clients, this.cluster := config, monitors, clients, cluster;
      this.pm2 := pm2;
      state, histories := map[], map[];
      new;
      EnsureTargetStates();
    }

    /** Gives every configured target a state, keeping the ones there are. The history of a target that is
        as before goes on. */
    method EnsureTargetStates()
      requires config.Accepted() && state.Keys <= TargetNames(config.targets)
      requires Led(TargetNames(config.targets), state, histories)
      modifies this`state, this`histories
      ensures Ensured(config.targets, old(state), state)
      ensures Consistent(config.targets, state, histories) && Renewed(config.targets, state, old(histories), histories)
    {
      ghost var grown := map[];
      for k := 0 to |config.targets|
        invariant Ensured(config.targets[..k], old(state), state)
        invariant Renewed(config.targets[..k], state, old(histories), grown)
      {
        var t := config.targets[k];
        NextTarget(config.targets, k);
        EnsureOne(config.targets[..k], t, config.targets[..k + 1], old(state), state);
        RenewOne(config.targets[..k], t, config.targets[..k + 1], state, old(histories), grown);
        state := Added(state, t.name);
        grown := grown[t.name := Carry(t, state[t.name].clock, old(histories))];
      }
      assert config.targets[..|config.targets|] == config.targets;
      EnsuredLed(config.targets, old(state), state, old(histories));
      RenewedIsConsistent(config.targets, state, old(histories), grown);
      histories := grown;
    }

    ghost function Now(): Record
      reads cluster
    {
      Record(cluster.tallies, cluster.runs, cluster.calls)
    }

    method ProcessPm2Target(t: Target, now: real, queues: Queues) returns (report: Report)
      requires cluster.Valid() && Agrees(cluster.cells, state) && t.Valid() && t.name in state
      modifies this`state, pm2
      ensures Agrees(cluster.cells, state) && t.name in state && state == old(state)[t.name := state[t.name]]
      ensures Piloted(t, old(state)[t.name], now, report, state[t.name])
      ensures WentBy(monitors.Keys, queues, t, report) && Followed(report, t.program, old(pm2.apps), pm2.apps)
      ensures pm2.log == old(pm2.log) + PilotCalls(t.program, report)
    {
      var after;
      report, after := PilotTarget(pm2, t, monitors, queues, state[t.name], now);
      AgreesSamePending(cluster.cells, state, t.name, after);
      state := state[t.name := after];
    }

    method ProcessSupervisorTarget(t: Target, now: real, queues: Queues) returns (report: Report)
      requires cluster.Valid() && Agrees(cluster.cells, state) && t.Valid() && t.name in state
      modifies this`state, cluster
      ensures cluster.Valid() && Agrees(cluster.cells, state)
      ensures t.name in state && state == old(state)[t.name := state[t.name]]
      ensures Supervised(t, clients.Keys, old(state)[t.name], now, report, state[t.name])
      ensures Honest(t, clients.Keys, old(state)[t.name], now, report, cluster.start, old(Now()), Now())
      ensures WentBy(monitors.Keys, queues, t, report) && PilotCalls(t.program, report) == []
    {
      AgreesTracks(cluster.cells, state, t.name);
      var after;
      report, after := SuperviseTarget(cluster, t, monitors, queues, clients.Keys, state[t.name], now);
      AgreesPut(old(cluster.cells), cluster.cells, state, t.name, after);
      state := state[t.name := after];
    }

    /** _process_target */
    method ProcessTarget(t: Target, now: real, queues: Queues) returns (report: Report)
      requires cluster.Valid() && Agrees(cluster.cells, state) && t.Valid() && t.name in state
      modifies this`state, cluster, pm2
      ensures cluster.Valid() && Agrees(cluster.cells, state)
      ensures t.name in state && state == old(state)[t.name := state[t.name]]
      ensures Processed(t, clients.Keys, old(state)[t.name], now, report, state[t.name])
      ensures Honest(t, clients.Keys, old(state)[t.name], now, report, cluster.start, old(Now()), Now())
      ensures WentBy(monitors.Keys, queues, t, report) && Followed(report, t.program, old(pm2.apps), pm2.apps)
      ensures pm2.log == old(pm2.log) + PilotCalls(t.program, report)
    {
      if t.kind.Pm2? {
        report := ProcessPm2Target(t, now, queues);
        QuietIsHonest(t, clients.Keys, old(state)[t.name], now, report, cluster.start, Now());
      } else {
        report := ProcessSupervisorTarget(t, now, queues);
      }
    }

    /** The body of the loop over targets. */
    method TickTarget(t: Target, now: real, queues: Queues) returns (report: Report)
      requires cluster.Valid() && Agrees(cluster.cells, state) && t.Valid() && t.name in state
      modifies this`state, cluster, pm2
      ensures cluster.Valid() && Agrees(cluster.cells, state)
      ensures t.name in state && state == old(state)[t.name := state[t.name]]
      ensures Ticked(t, clients.Keys, old(state)[t.name], now, report, state[t.name])
      ensures Honest(t, clients.Keys, old(state)[t.name], now, report, cluster.start, old(Now()), Now())
      ensures WentBy(monitors.Keys, queues, t, report) && Followed(report, t.program, old(pm2.apps), pm2.apps)
      ensures pm2.log == old(pm2.log) + PilotCalls(t.program, report)
    {
      var s := state[t.name];
      if now - s.clock.lastTick < t.pollInterval as real {
        QuietIsHonest(t, clients.Keys, s, now, Waiting, cluster.start, Now());
        return Waiting;
      }
      var due := s.(clock := s.clock.(lastTick := now));
      AgreesTracks(cluster.cells, state, t.name);
      AgreesPut(cluster.cells, cluster.cells, state, t.name, due);
      state := state[t.name := due];
      report := ProcessTarget(t, now, queues);
      DueIsHonest(t, clients.Keys, s, due, now, report, cluster.start, old(Now()), Now());
      DueIsTicked(t, clients.Keys, old(state), due, now, report, state);
    }

    /** The body of the loop over targets, with what it records. */
    method TickNext(t: Target, now: real, queues: Queues, ghost reached: set<string>, ghost before: States,
                    ghost reports: seq<Report>, ghost h0: Histories, ghost first: Record)
      returns (report: Report)
      requires cluster.Valid() && Agrees(cluster.cells, state) && reached == clients.Keys
      requires |reports| < |config.targets| && t == config.targets[|reports|]
      requires SoFar(config.targets, reached, before, now, reports, state, h0, histories, cluster.start, first, Now())
      modifies this`state, this`histories, cluster, pm2
      ensures cluster.Valid() && Agrees(cluster.cells, state) && WentBy(monitors.Keys, queues, t, report)
      ensures SoFar(config.targets, reached, before, now, reports + [report], state, h0, histories, cluster.start,
                    first, Now())
      ensures pm2.log == old(pm2.log) + PilotCalls(t.program, report)
    {
      ghost var prior, had := Now(), state;
      TargetIsReady(config.targets, reached, before, now, reports, state, histories);
      report := TickTarget(t, now, queues);
      histories := SoFarStep(config.targets, reached, before, now, reports, had, h0, histories, cluster.start, first,
                             prior, Now(), report, state);
    }

    /** One pass over all targets. Each target's new state follows from its own old state and what its own
        nodes and queue answered, and the reports are a true account of everything that happened. */
    method Tick(now: real, queues: Queues) returns (reports: seq<Report>)
      requires Valid()
      modifies this`state, this`histories, cluster, pm2
      ensures Valid() && |reports| == |config.targets|
      ensures Progress(config.targets, clients.Keys, old(state), now, reports, state)
      ensures AllHonest(config.targets, clients.Keys, old(state), now, reports, cluster.start, old(Now()), Now())
      ensures Appended(config.targets, old(state), now, reports, state, old(histories), histories)
      ensures AllWentBy(monitors.Keys, queues, config.targets, reports)
      ensures pm2.log == old(pm2.log) + AllPilotCalls(config.targets, reports)
    {
      reports := [];
      assert pm2.log + [] == pm2.log;
      ghost var before, reached, first, h0 := state, clients.Keys, Now(), histories;
      Started(config.targets, reached, now, state, histories, cluster.start, first);
      for k := 0 to |config.targets|
        invariant cluster.Valid() && Agrees(cluster.cells, state) && |reports| == k
        invariant SoFar(config.targets, reached, before, now, reports, state, h0, histories, cluster.start, first,
                        Now())
        invariant Heard(monitors.Keys, queues, config.targets, reports, old(pm2.log), pm2.log)
      {
        ghost var asked := pm2.log;
        var report := TickNext(config.targets[k], now, queues, reached, before, reports, h0, first);
        HeardRound(monitors.Keys, queues, config.targets, reports, report, old(pm2.log), asked, pm2.log);
        reports := reports + [report];
      }
    }

    /** The names of the targets that are gone lose their state, pending names included. */
    method DropTargets(names: set<string>)
      requires cluster.Valid() && Agrees(cluster.cells, state)
      modifies this`state, cluster`runs, cluster`cells
      ensures cluster.Valid() && Agrees(cluster.cells, state)
      ensures state == old(state) - names && Later(old(cluster.runs), cluster.runs)
    {
      cluster.ForgetTargets(names);
      AgreesWithout(old(cluster.cells), cluster.cells, state, names);
      state := state - names;
    }

    /** Taking over a new configuration; None keeps what is there. */
    method ReloadConfig(newConfig: Config, newMonitors: Option<map<string, Monitor>>,
                        newClients: Option<map<string, Client>>)
      requires Valid() && newConfig.Accepted()
      modifies this, cluster`runs, cluster`cells
      ensures Valid() && config == newConfig
      ensures monitors == if newMonitors.Some? then newMonitors.value else old(monitors)
      ensures clients == if newClients.Some? then newClients.value else old(clients)
      ensures state == Carryover(old(state), TargetNames(newConfig.targets)) && Later(old(cluster.runs), cluster.runs)
      ensures Renewed(newConfig.targets, state, old(histories), histories)
      ensures forall n :: n in state && n !in old(state) ==> state[n] == TargetState(Clock(0.0, 0.0, 0.0), map[])
      ensures forall t :: t in newConfig.targets && t in old(config).targets ==>
                t.name in histories && t.name in old(histories) && histories[t.name] == old(histories)[t.name]
    {
      var oldNames, newNames := TargetNames(config.targets), TargetNames(newConfig.targets);
      config := newConfig;
      if newMonitors.Some? { monitors := newMonitors.value; }
      if newClients.Some? { clients := newClients.value; }
      ConsistentLed(old(config).targets, state, histories, newNames, oldNames - newNames);
      DropTargets(oldNames - newNames);
      ghost var kept := state;
      EnsureTargetStates();
      AgreesAdded(cluster.cells, kept, state, newConfig.targets);
      EnsuredIs(newConfig.targets, old(state), oldNames - newNames, state);
      HistoriesGoOn(old(config).targets, newConfig.targets, old(state), old(histories), state, histories);
    }
  }

  // ----- Every reachable state -----

  /** In any window, a target gained at most scale_up_step workers per started gap, and acknowledged at
      most scale_down_step stops per started gap, counting every tick since its parameters were last
      changed; reloads in between that keep them do not matter. */
  lemma EngineRateBound(e: ScalerEngine, t: Target, from: real, to: real)
    requires e.Valid() && t in e.config.targets && from <= to
    ensures t.name in e.histories
    ensures var ticks := e.histories[t.name].ticks;
            && InWindow(Ups(ticks), from, to) <= t.scaleUpStep * (((to - from) / UpGap(t)).Floor + 1)
            && InWindow(Downs(ticks), from, to) <= t.scaleDownStep * (((to - from) / DownGap(t)).Floor + 1)
  {
    var i :| 0 <= i < |e.config.targets| && e.config.targets[i] == t;
    assert Current(e.config.targets[i], e.state, e.histories);
    var h := e.histories[t.name];
    RateBound(t, h.clocks, h.ticks, from, to);
  }

  /** Of the names the engine holds pending for a group, none but the top process can still be in it, and
      the group has no hole, as long as its history has no bad crash and no bad scaleDown. */
  lemma EnginePendingIsTop(e: ScalerEngine, node: string, target: string)
    requires e.Valid() && (node, target) in e.cluster.groups
    requires var c, key := e.cluster, (node, target);
             Initial(c.start[key]) && forall j :: 0 <= j < |c.runs[key]| ==>
                 Benign(At(c.start[key], c.runs[key], j), c.runs[key][j])
    ensures var procs := e.cluster.groups[(node, target)].procs;
            && Contiguous(procs)
            && forall p :: p in HeldFor(e.state, (node, target)) && p in procs ==> p == |procs| - 1
  {
    var c, key := e.cluster, (node, target);
    GroupsStayGood(c, key);
    assert PendingIn(c.cells, key) == HeldFor(e.state, key);
    assert PendingIn(c.cells, key) == c.cells[key].pending;
    forall p | p in HeldFor(e.state, key) && p in c.groups[key].procs
      ensures p == |c.groups[key].procs| - 1
    {
      assert p in c.cells[key].pending * c.groups[key].procs.Keys;
    }
  }

  /** Whatever any confirmation ever removed from any group was stopped at that moment, had been named by an
      earlier scaleDown reply that reached the engine and was pending all the time in between; with a benign
      history up to there, it was in the group all that time too, so it is the process that was named. */
  lemma EngineRemovalsAreSafe(e: ScalerEngine, key: Key, k: nat, p: nat)
    requires e.Valid() && key in e.cluster.groups && e.cluster.start[key].pending == {}
    requires Removes(e.cluster.start[key], e.cluster.runs[key], k, p)
    ensures IsStopped(At(e.cluster.start[key], e.cluster.runs[key], k).view.procs[p])
    ensures exists j :: NamedSince(e.cluster.start[key], e.cluster.runs[key], j, k, p)
    ensures var first, run := e.cluster.start[key], e.cluster.runs[key];
            Initial(first) && (forall m :: 0 <= m < k ==> Benign(At(first, run, m), run[m])) ==>
              exists j :: NamedSince(first, run, j, k, p) && StaysSince(first, run, j, k, p)
  {
    var first, run := e.cluster.start[key], e.cluster.runs[key];
    assert Traced(e.cluster.start, e.cluster.runs, e.cluster.cells, e.cluster.tallies, key);
    RemovedWasStoppedAndNamed(first, run, k, p);
    if Initial(first) && forall m :: 0 <= m < k ==> Benign(At(first, run, m), run[m]) {
      RemovedIsTheOneNamed(first, run, k, p);
    }
  }
}
